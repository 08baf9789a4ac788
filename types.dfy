/** The resume document (types.ts): personal information, ordered typed sections
    of items, the selected template, an accent colour and a content scale. */
module ResumeTypes {

  datatype Option<+T> = None | Some(value: T)

  /** The three visual templates (types.ts:1). */
  datatype Template = Modern | Classic | Minimal

  /** The five kinds of section (types.ts:25). */
  datatype SectionType = Text | List | Experience | Education | Skills

  /** `linkedin` may be absent and `photoUrl` may be null; every other field is a string (types.ts:3-12). */
  datatype PersonalInfo = PersonalInfo(
    fullName: string,
    title: string,
    email: string,
    phone: string,
    address: string,
    linkedin: Option<string>,
    photoUrl: Option<string>,
    summary: string)

  /** Every item has an id; the four display fields may each be absent (types.ts:14-20). */
  datatype SectionItem = SectionItem(
    id: string,
    title: Option<string>,
    subtitle: Option<string>,
    date: Option<string>,
    description: Option<string>)

  datatype Section = Section(
    id: string,
    title: string,
    sectionType: SectionType,
    items: seq<SectionItem>,
    isVisible: bool)

  /** `contentScale` is a floating-point number in the source; it is only carried here. */
  datatype ResumeData = ResumeData(
    personalInfo: PersonalInfo,
    sections: seq<Section>,
    template: Template,
    primaryColor: string,
    contentScale: real)

  /** JavaScript truthiness of an optional string: present and not empty. */
  predicate Truthy(o: Option<string>) {
    o.Some? && o.value != ""
  }

  /** What JSX shows for an optional string: nothing when it is absent. */
  function Shown(o: Option<string>): string {
    if o.Some? then o.value else ""
  }

  function SectionIds(sections: seq<Section>): (ids: seq<string>)
    ensures |ids| == |sections|
    ensures forall i :: 0 <= i < |sections| ==> ids[i] == sections[i].id
  {
    seq(|sections|, i requires 0 <= i < |sections| => sections[i].id)
  }

  ghost predicate UniqueSectionIds(sections: seq<Section>) {
    forall i, j :: 0 <= i < j < |sections| ==> sections[i].id != sections[j].id
  }

  ghost predicate UniqueItemIds(items: seq<SectionItem>) {
    forall i, j :: 0 <= i < j < |items| ==> items[i].id != items[j].id
  }

  /** Section ids are unique in the document and item ids are unique within each section. */
  ghost predicate WellFormed(d: ResumeData) {
    && UniqueSectionIds(d.sections)
    && forall i :: 0 <= i < |d.sections| ==> UniqueItemIds(d.sections[i].items)
  }
}
