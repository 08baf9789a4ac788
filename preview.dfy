/** The resume preview (ResumePreview.tsx) as a pure projection from a document to an
    abstract page: which headings, lines and entries each template puts in which region,
    and in which order. Markup, classes, icons and the content scaling are not part of it. */
module Preview {
  import opened ResumeTypes
  import opened Seqs

  /** The contact lines, in the order every template writes them. */
  datatype ContactKind = AddressLine | PhoneLine | EmailLine | LinkedinLine

  datatype Contact = Contact(kind: ContactKind, text: string)

  /** The name, the optional job title and the optional photo at the top of the page. */
  datatype Header = Header(name: string, title: Option<string>, photo: Option<string>)

  datatype SummaryBlock = SummaryBlock(heading: string, text: string)

  /** One rendered item: the title line always exists; each other field is `None` when
      the template leaves its element out. */
  datatype Entry = Entry(title: string, date: Option<string>, subtitle: Option<string>, description: Option<string>)

  /** How labels are laid out: rounded chips (modern), a bulleted list (minimal sidebar)
      or a two-column grid with dots (classic). */
  datatype LabelStyle = Chips | BulletList | DotGrid

  /** How entries are laid out: title and date on one line with the rest below (modern),
      the compact column of the minimal template, or the classic date column. */
  datatype EntryStyle = Stacked | Compact | DateColumn

  datatype Body =
    | Labels(labelStyle: LabelStyle, labels: seq<string>)
    | Entries(entryStyle: EntryStyle, entries: seq<Entry>)

  datatype SectionView = SectionView(id: string, heading: string, body: Body)

  /** Where a section is drawn: the single flow of the modern or classic page, or one
      of the two columns of the minimal page. */
  datatype Region = ModernFlow | ClassicFlow | Sidebar | MainColumn

  datatype Page =
    | ModernPage(accent: string, header: Header, contacts: seq<Contact>, summary: Option<SummaryBlock>,
                 sections: seq<SectionView>)
    | MinimalPage(header: Header, contactHeading: string, contacts: seq<Contact>, sidebar: seq<SectionView>,
                  summary: Option<SummaryBlock>, main: seq<SectionView>)
    | ClassicPage(header: Header, contacts: seq<Contact>, summary: Option<SummaryBlock>, sections: seq<SectionView>)

  predicate IsSkills(s: Section) {
    s.sectionType == Skills
  }

  predicate IsNotSkills(s: Section) {
    s.sectionType != Skills
  }

  /** `{cond && <element>}` on a string field: the element exists only for a non-empty value. */
  function NonEmpty(s: string): Option<string> {
    if s != "" then Some(s) else None
  }

  function WhenTruthy(o: Option<string>): Option<string> {
    if Truthy(o) then o else None
  }

  /** `item.description || item.title` (ResumePreview.tsx:29, 143, 214). */
  function Label(item: SectionItem): string {
    if Truthy(item.description) then item.description.value else Shown(item.title)
  }

  function LabelsOf(items: seq<SectionItem>): (r: seq<string>)
    ensures |r| == |items|
    ensures forall k :: 0 <= k < |items| ==> r[k] == Label(items[k])
  {
    seq(|items|, k requires 0 <= k < |items| => Label(items[k]))
  }

  /** The modern item (ResumePreview.tsx:41-45): date, subtitle and description each only
      when non-empty. */
  function ModernEntry(item: SectionItem): Entry {
    Entry(Shown(item.title), WhenTruthy(item.date), WhenTruthy(item.subtitle), WhenTruthy(item.description))
  }

  /** The minimal and classic item (ResumePreview.tsx:166-170, 223-228): every element is
      always there, empty when its field is. */
  function PlainEntry(item: SectionItem): Entry {
    Entry(Shown(item.title), Some(Shown(item.date)), Some(Shown(item.subtitle)), Some(Shown(item.description)))
  }

  function EntriesOf(items: seq<SectionItem>, modern: bool): (r: seq<Entry>)
    ensures |r| == |items|
    ensures forall k :: 0 <= k < |items| ==> r[k] == if modern then ModernEntry(items[k]) else PlainEntry(items[k])
  {
    seq(|items|, k requires 0 <= k < |items| => if modern then ModernEntry(items[k]) else PlainEntry(items[k]))
  }

  /** One section in one region: `renderItems` for the modern page (ResumePreview.tsx:23-50),
      the sidebar and main blocks of the minimal page (138-147, 159-175) and the classic
      section (206-235). */
  function ViewOf(s: Section, region: Region): SectionView {
    var body := match region
      case ModernFlow => if IsSkills(s) then Labels(Chips, LabelsOf(s.items)) else Entries(Stacked, EntriesOf(s.items, true))
      case ClassicFlow => if IsSkills(s) then Labels(DotGrid, LabelsOf(s.items)) else Entries(DateColumn, EntriesOf(s.items, false))
      case Sidebar => Labels(BulletList, LabelsOf(s.items))
      case MainColumn => Entries(Compact, EntriesOf(s.items, false));
    SectionView(s.id, s.title, body)
  }

  /** `sections.map(section => ...)` in one region. */
  function Views(sections: seq<Section>, region: Region): (r: seq<SectionView>)
    ensures |r| == |sections|
    ensures forall i :: 0 <= i < |sections| ==> r[i] == ViewOf(sections[i], region)
  {
    seq(|sections|, i requires 0 <= i < |sections| => ViewOf(sections[i], region))
  }

  function ViewIds(views: seq<SectionView>): (ids: seq<string>)
    ensures |ids| == |views|
    ensures forall i :: 0 <= i < |views| ==> ids[i] == views[i].id
  {
    seq(|views|, i requires 0 <= i < |views| => views[i].id)
  }

  function ContactValue(p: PersonalInfo, kind: ContactKind): string {
    match kind
    case AddressLine => p.address
    case PhoneLine => p.phone
    case EmailLine => p.email
    case LinkedinLine => Shown(p.linkedin)
  }

  function Rank(kind: ContactKind): nat {
    match kind
    case AddressLine => 0
    case PhoneLine => 1
    case EmailLine => 2
    case LinkedinLine => 3
  }

  function KindsOf(contacts: seq<Contact>): (kinds: seq<ContactKind>)
    ensures |kinds| == |contacts|
    ensures forall i :: 0 <= i < |contacts| ==> kinds[i] == contacts[i].kind
  {
    seq(|contacts|, i requires 0 <= i < |contacts| => contacts[i].kind)
  }

  /** The line of one field: the classic bullet, except before the address, then the field. */
  function LineFor(p: PersonalInfo, kind: ContactKind, bullet: string): Contact {
    Contact(kind, (if kind == AddressLine then "" else bullet) + ContactValue(p, kind))
  }

  /** `{personalInfo.<field> && <line>}`: one line for a non-empty field, none otherwise. */
  function ContactLine(p: PersonalInfo, kind: ContactKind, bullet: string): seq<Contact> {
    if ContactValue(p, kind) != "" then [LineFor(p, kind, bullet)] else []
  }

  /** The contact lines (ResumePreview.tsx:77-80, 131-134, 191-194). The classic template
      writes `bullet` before every line but the address. */
  function Contacts(p: PersonalInfo, bullet: string): seq<Contact> {
    ContactLine(p, AddressLine, bullet) + ContactLine(p, PhoneLine, bullet)
    + ContactLine(p, EmailLine, bullet) + ContactLine(p, LinkedinLine, bullet)
  }

  /** Every line shows its own field. */
  predicate LinesShowFields(r: seq<Contact>, p: PersonalInfo, bullet: string) {
    forall i :: 0 <= i < |r| ==> r[i] == LineFor(p, r[i].kind, bullet)
  }

  /** The lines come in the order address, phone, email, LinkedIn. */
  predicate InFieldOrder(r: seq<Contact>) {
    forall i, j :: 0 <= i < j < |r| ==> Rank(r[i].kind) < Rank(r[j].kind)
  }

  lemma LinesAppend(x: seq<Contact>, y: seq<Contact>, p: PersonalInfo, bullet: string)
    requires LinesShowFields(x, p, bullet) && LinesShowFields(y, p, bullet)
    requires InFieldOrder(x) && InFieldOrder(y)
    requires forall i, j :: 0 <= i < |x| && 0 <= j < |y| ==> Rank(x[i].kind) < Rank(y[j].kind)
    ensures LinesShowFields(x + y, p, bullet) && InFieldOrder(x + y)
  {
  }

  lemma OneLine(p: PersonalInfo, kind: ContactKind, bullet: string)
    ensures LinesShowFields(ContactLine(p, kind, bullet), p, bullet)
    ensures InFieldOrder(ContactLine(p, kind, bullet))
    ensures forall i :: 0 <= i < |ContactLine(p, kind, bullet)| ==> ContactLine(p, kind, bullet)[i].kind == kind
  {
  }

  lemma KindsAppend(x: seq<Contact>, y: seq<Contact>)
    ensures KindsOf(x + y) == KindsOf(x) + KindsOf(y)
  {
  }

  /** Each field has its line exactly when it is non-empty. */
  lemma ContactsShowNonEmptyFields(p: PersonalInfo, bullet: string)
    ensures forall kind :: kind in KindsOf(Contacts(p, bullet)) <==> ContactValue(p, kind) != ""
  {
    var a, ph, e, l := ContactLine(p, AddressLine, bullet), ContactLine(p, PhoneLine, bullet),
                       ContactLine(p, EmailLine, bullet), ContactLine(p, LinkedinLine, bullet);
    KindsAppend(a, ph);
    KindsAppend(a + ph, e);
    KindsAppend(a + ph + e, l);
    var kinds := KindsOf(a) + KindsOf(ph) + KindsOf(e) + KindsOf(l);
    assert KindsOf(Contacts(p, bullet)) == kinds;
    forall kind
      ensures kind in kinds <==> ContactValue(p, kind) != ""
    {
      LineKinds(p, AddressLine, bullet);
      LineKinds(p, PhoneLine, bullet);
      LineKinds(p, EmailLine, bullet);
      LineKinds(p, LinkedinLine, bullet);
    }
  }

  lemma LineKinds(p: PersonalInfo, kind: ContactKind, bullet: string)
    ensures KindsOf(ContactLine(p, kind, bullet)) == if ContactValue(p, kind) != "" then [kind] else []
  {
  }

  /** The lines follow the order address, phone, email, LinkedIn, and each shows its field
      after the bullet. */
  lemma ContactsInFieldOrder(p: PersonalInfo, bullet: string)
    ensures LinesShowFields(Contacts(p, bullet), p, bullet)
    ensures InFieldOrder(Contacts(p, bullet))
  {
    var a, ph, e, l := ContactLine(p, AddressLine, bullet), ContactLine(p, PhoneLine, bullet),
                       ContactLine(p, EmailLine, bullet), ContactLine(p, LinkedinLine, bullet);
    OneLine(p, AddressLine, bullet);
    OneLine(p, PhoneLine, bullet);
    OneLine(p, EmailLine, bullet);
    OneLine(p, LinkedinLine, bullet);
    LinesAppend(a, ph, p, bullet);
    assert forall i :: 0 <= i < |a + ph| ==> Rank((a + ph)[i].kind) <= 1;
    LinesAppend(a + ph, e, p, bullet);
    assert forall i :: 0 <= i < |a + ph + e| ==> Rank((a + ph + e)[i].kind) <= 2;
    LinesAppend(a + ph + e, l, p, bullet);
  }

  function SummaryHeading(t: Template): string {
    match t
    case Modern => "Sobre Mim"
    case Minimal => "Perfil"
    case Classic => "Resumo"
  }

  function SummaryOf(p: PersonalInfo, heading: string): Option<SummaryBlock> {
    if p.summary != "" then Some(SummaryBlock(heading, p.summary)) else None
  }

  /** The whole page of the selected template (ResumePreview.tsx:53-239). */
  function Render(d: ResumeData): Page {
    var p := d.personalInfo;
    match d.template
    case Modern =>
      ModernPage(d.primaryColor,
                 Header(if p.fullName != "" then p.fullName else "Seu Nome", NonEmpty(p.title), WhenTruthy(p.photoUrl)),
                 Contacts(p, ""), SummaryOf(p, SummaryHeading(Modern)), Views(d.sections, ModernFlow))
    case Minimal =>
      MinimalPage(Header(p.fullName, NonEmpty(p.title), WhenTruthy(p.photoUrl)), "Contato", Contacts(p, ""),
                  Views(Filter(d.sections, IsSkills), Sidebar),
                  SummaryOf(p, SummaryHeading(Minimal)),
                  Views(Filter(d.sections, IsNotSkills), MainColumn))
    case Classic =>
      ClassicPage(Header(p.fullName, NonEmpty(p.title), None), Contacts(p, "\U{2022} "),
                  SummaryOf(p, SummaryHeading(Classic)), Views(d.sections, ClassicFlow))
  }

  /** Every section view on the page, region by region. */
  function AllViews(page: Page): seq<SectionView> {
    if page.MinimalPage? then page.sidebar + page.main else page.sections
  }

  /** The page has the layout of the document's template and no other. */
  lemma TemplateSelectsLayout(d: ResumeData)
    ensures Render(d).ModernPage? <==> d.template == Modern
    ensures Render(d).MinimalPage? <==> d.template == Minimal
    ensures Render(d).ClassicPage? <==> d.template == Classic
  {
  }

  /** Modern and classic: one view per section, in document order, each headed by the
      section's title (ResumePreview.tsx:98-105, 206-235). */
  lemma FlowKeepsDocumentOrder(d: ResumeData)
    requires d.template != Minimal
    ensures ViewIds(Render(d).sections) == SectionIds(d.sections)
    ensures forall i :: 0 <= i < |d.sections| ==> Render(d).sections[i].heading == d.sections[i].title
  {
  }

  /** Classic: skills sections use the dotted grid and every other type the date column
      (ResumePreview.tsx:209-233); modern uses chips and stacked entries (24-49). */
  lemma FlowBodyFollowsType(d: ResumeData, i: nat)
    requires d.template != Minimal && i < |d.sections|
    ensures Render(d).sections[i].body.Labels? <==> d.sections[i].sectionType == Skills
    ensures Render(d).sections[i].body.Labels? ==>
      Render(d).sections[i].body.labelStyle == (if d.template == Modern then Chips else DotGrid)
    ensures Render(d).sections[i].body.Entries? ==>
      Render(d).sections[i].body.entryStyle == (if d.template == Modern then Stacked else DateColumn)
  {
  }

  lemma {:induction false} SectionIdsAppend(a: seq<Section>, b: seq<Section>)
    ensures SectionIds(a + b) == SectionIds(a) + SectionIds(b)
  {
    assert forall i :: 0 <= i < |a + b| ==> SectionIds(a + b)[i] == (SectionIds(a) + SectionIds(b))[i];
  }

  /** The section ids of the two filters split the ids of the document. */
  lemma {:induction false} IdsPartition(s: seq<Section>)
    ensures multiset(SectionIds(Filter(s, IsSkills))) + multiset(SectionIds(Filter(s, IsNotSkills))) == multiset(SectionIds(s))
  {
    if s != [] {
      IdsPartition(s[1..]);
      var head := if IsSkills(s[0]) then [s[0]] else [];
      var rest := if IsSkills(s[0]) then [] else [s[0]];
      SectionIdsAppend(head, Filter(s[1..], IsSkills));
      SectionIdsAppend(rest, Filter(s[1..], IsNotSkills));
      SectionIdsAppend([s[0]], s[1..]);
      assert s == [s[0]] + s[1..];
    }
  }

  /** Minimal: the sidebar holds exactly the skills sections and the main column exactly the
      others, each in document order, so together they show every section once
      (ResumePreview.tsx:138-147, 159-175). */
  lemma MinimalPartition(d: ResumeData)
    requires d.template == Minimal
    ensures ViewIds(Render(d).sidebar) == SectionIds(Filter(d.sections, IsSkills))
    ensures ViewIds(Render(d).main) == SectionIds(Filter(d.sections, IsNotSkills))
    ensures multiset(ViewIds(Render(d).sidebar)) + multiset(ViewIds(Render(d).main)) == multiset(SectionIds(d.sections))
    ensures |Render(d).sidebar| + |Render(d).main| == |d.sections|
  {
    FilterPartition(d.sections, IsSkills, IsNotSkills);
    IdsPartition(d.sections);
  }

  lemma ViewsAppend(a: seq<Section>, b: seq<Section>, region: Region)
    ensures Views(a + b, region) == Views(a, region) + Views(b, region)
  {
    assert forall i :: 0 <= i < |a + b| ==> (a + b)[i] == if i < |a| then a[i] else b[i - |a|];
  }

  /** Minimal keeps the document order within each column: the sections before any cut
      come before the sections after it. */
  lemma MinimalColumnsKeepOrder(d: ResumeData, cut: nat)
    requires d.template == Minimal && cut <= |d.sections|
    ensures Render(d).sidebar == Views(Filter(d.sections[..cut], IsSkills), Sidebar) + Views(Filter(d.sections[cut..], IsSkills), Sidebar)
    ensures Render(d).main == Views(Filter(d.sections[..cut], IsNotSkills), MainColumn) + Views(Filter(d.sections[cut..], IsNotSkills), MainColumn)
  {
    var before, after := d.sections[..cut], d.sections[cut..];
    assert d.sections == before + after;
    FilterAppend(before, after, IsSkills);
    FilterAppend(before, after, IsNotSkills);
    ViewsAppend(Filter(before, IsSkills), Filter(after, IsSkills), Sidebar);
    ViewsAppend(Filter(before, IsNotSkills), Filter(after, IsNotSkills), MainColumn);
  }

  /** Every section of the document is on the page, whatever its `isVisible` flag says:
      no template reads the flag. */
  lemma EverySectionRendered(d: ResumeData)
    ensures |AllViews(Render(d))| == |d.sections|
    ensures forall i :: 0 <= i < |d.sections| ==> d.sections[i].id in ViewIds(AllViews(Render(d)))
  {
    if d.template == Minimal {
      MinimalPartition(d);
      forall i | 0 <= i < |d.sections|
        ensures d.sections[i].id in ViewIds(AllViews(Render(d)))
      {
        MinimalShowsSection(d, i);
      }
    } else {
      FlowKeepsDocumentOrder(d);
    }
  }

  /** In every template the page draws each section exactly once: the ids of the views
      are the ids of the document, counted with multiplicity. */
  lemma EachSectionOnce(d: ResumeData)
    ensures multiset(ViewIds(AllViews(Render(d)))) == multiset(SectionIds(d.sections))
  {
    if d.template == Minimal {
      MinimalPartition(d);
      ViewIdsAppend(Render(d).sidebar, Render(d).main);
    } else {
      FlowKeepsDocumentOrder(d);
    }
  }

  lemma ViewIdsAppend(a: seq<SectionView>, b: seq<SectionView>)
    ensures ViewIds(a + b) == ViewIds(a) + ViewIds(b)
  {
    assert forall i :: 0 <= i < |a + b| ==> (a + b)[i] == if i < |a| then a[i] else b[i - |a|];
  }

  lemma ViewOfMember(f: seq<Section>, s: Section, region: Region)
    requires s in f
    ensures s.id in ViewIds(Views(f, region))
  {
    var m :| 0 <= m < |f| && f[m] == s;
    assert ViewIds(Views(f, region))[m] == s.id;
  }

  lemma MinimalShowsSection(d: ResumeData, i: nat)
    requires d.template == Minimal && i < |d.sections|
    ensures d.sections[i].id in ViewIds(AllViews(Render(d)))
  {
    var skills, others := Filter(d.sections, IsSkills), Filter(d.sections, IsNotSkills);
    var sidebar, main := Views(skills, Sidebar), Views(others, MainColumn);
    assert AllViews(Render(d)) == sidebar + main;
    ViewIdsAppend(sidebar, main);
    var s := d.sections[i];
    FilterMembers(d.sections, IsSkills);
    FilterMembers(d.sections, IsNotSkills);
    if IsSkills(s) {
      ViewOfMember(skills, s, Sidebar);
    } else {
      ViewOfMember(others, s, MainColumn);
    }
  }

  /** The summary block appears exactly when the summary is non-empty, under the template's
      own heading (ResumePreview.tsx:86-95, 152-157, 199-204). */
  lemma SummaryShownIffNonEmpty(d: ResumeData)
    ensures Render(d).summary.Some? <==> d.personalInfo.summary != ""
    ensures Render(d).summary.Some? ==>
      Render(d).summary.value == SummaryBlock(SummaryHeading(d.template), d.personalInfo.summary)
  {
  }

  /** Each contact line appears exactly when its field is non-empty, in the order address,
      phone, email, LinkedIn, with the classic bullet before all but the address. */
  lemma ContactLinesOfPage(d: ResumeData)
    ensures Render(d).contacts == Contacts(d.personalInfo, if d.template == Classic then "\U{2022} " else "")
    ensures var r := Render(d).contacts;
      && (forall kind :: kind in KindsOf(r) <==> ContactValue(d.personalInfo, kind) != "")
      && InFieldOrder(r)
  {
    ContactsShowNonEmptyFields(d.personalInfo, if d.template == Classic then "\U{2022} " else "");
    ContactsInFieldOrder(d.personalInfo, if d.template == Classic then "\U{2022} " else "");
  }

  /** Modern writes "Seu Nome" for an empty name; minimal and classic write the name as it
      is (ResumePreview.tsx:61, 125, 187). The job title appears only when non-empty, and the
      photo only in modern and minimal, only when its URL is non-empty (62-68, 120-126, 188). */
  lemma HeaderOfPage(d: ResumeData)
    ensures Render(d).header.name ==
      if d.template == Modern && d.personalInfo.fullName == "" then "Seu Nome" else d.personalInfo.fullName
    ensures Render(d).header.title.Some? <==> d.personalInfo.title != ""
    ensures Render(d).header.title.Some? ==> Render(d).header.title.value == d.personalInfo.title
    ensures Render(d).header.photo ==
      if d.template != Classic && Truthy(d.personalInfo.photoUrl) then d.personalInfo.photoUrl else None
  {
  }

  /** The region the `j`-th view of the page is drawn in. */
  function RegionAt(d: ResumeData, j: nat): Region {
    match d.template
    case Modern => ModernFlow
    case Classic => ClassicFlow
    case Minimal => if j < |Filter(d.sections, IsSkills)| then Sidebar else MainColumn
  }

  /** Every view on the page is the view of a section of the document; the sidebar only
      draws skills sections and the main column only the others. */
  lemma ViewSource(d: ResumeData, j: nat) returns (s: Section)
    requires j < |AllViews(Render(d))|
    ensures s in d.sections && AllViews(Render(d))[j] == ViewOf(s, RegionAt(d, j))
    ensures RegionAt(d, j) == Sidebar ==> IsSkills(s)
    ensures RegionAt(d, j) == MainColumn ==> !IsSkills(s)
  {
    if d.template == Minimal {
      s := MinimalViewSource(d, j);
    } else {
      s := d.sections[j];
    }
  }

  lemma MinimalRegions(d: ResumeData)
    requires d.template == Minimal
    ensures AllViews(Render(d)) == Views(Filter(d.sections, IsSkills), Sidebar) + Views(Filter(d.sections, IsNotSkills), MainColumn)
  {
  }

  lemma MinimalViewSource(d: ResumeData, j: nat) returns (s: Section)
    requires d.template == Minimal && j < |AllViews(Render(d))|
    ensures s in d.sections && AllViews(Render(d))[j] == ViewOf(s, RegionAt(d, j))
    ensures RegionAt(d, j) == Sidebar ==> IsSkills(s)
    ensures RegionAt(d, j) == MainColumn ==> !IsSkills(s)
  {
    MinimalRegions(d);
    s := ColumnSource(d.sections, j);
  }

  /** The `j`-th view of the two minimal columns comes from a section of the right kind. */
  lemma ColumnSource(sections: seq<Section>, j: nat) returns (s: Section)
    requires j < |Filter(sections, IsSkills)| + |Filter(sections, IsNotSkills)|
    ensures var skills := Filter(sections, IsSkills);
      && s in sections
      && (Views(skills, Sidebar) + Views(Filter(sections, IsNotSkills), MainColumn))[j]
         == ViewOf(s, if j < |skills| then Sidebar else MainColumn)
      && (j < |skills| <==> IsSkills(s))
  {
    var skills, others := Filter(sections, IsSkills), Filter(sections, IsNotSkills);
    var sidebar, main := Views(skills, Sidebar), Views(others, MainColumn);
    if j < |skills| {
      FilterMembers(sections, IsSkills);
      s := skills[j];
      assert (sidebar + main)[j] == sidebar[j];
    } else {
      FilterMembers(sections, IsNotSkills);
      s := others[j - |skills|];
      assert (sidebar + main)[j] == main[j - |skills|];
    }
  }

  /** A skills item shows its description when that is non-empty and its title otherwise,
      never both, in every template (ResumePreview.tsx:29, 143, 214). */
  lemma SkillLabels(d: ResumeData, j: nat) returns (s: Section)
    requires j < |AllViews(Render(d))| && AllViews(Render(d))[j].body.Labels?
    ensures s in d.sections && IsSkills(s) && s.id == AllViews(Render(d))[j].id
    ensures var labels := AllViews(Render(d))[j].body.labels;
      |labels| == |s.items|
      && forall k :: 0 <= k < |s.items| ==>
           labels[k] == if Truthy(s.items[k].description) then s.items[k].description.value else Shown(s.items[k].title)
  {
    s := ViewSource(d, j);
  }

  /** What one item of a non-skills section shows: in modern the date, subtitle and
      description only when non-empty (ResumePreview.tsx:41-45); in minimal and classic all
      four elements, each empty when its field is (166-170, 223-228). */
  predicate EntryShows(e: Entry, item: SectionItem, modern: bool) {
    && e.title == Shown(item.title)
    && (modern ==> (e.date.Some? <==> Truthy(item.date)) && (e.subtitle.Some? <==> Truthy(item.subtitle))
                   && (e.description.Some? <==> Truthy(item.description)))
    && (!modern ==> e.date.Some? && e.subtitle.Some? && e.description.Some?)
    && (e.date.Some? ==> e.date.value == Shown(item.date))
    && (e.subtitle.Some? ==> e.subtitle.value == Shown(item.subtitle))
    && (e.description.Some? ==> e.description.value == Shown(item.description))
  }

  /** Every entry list on the page belongs to a non-skills section and shows its items in
      order, one entry per item. */
  lemma EntryFields(d: ResumeData, j: nat) returns (s: Section)
    requires j < |AllViews(Render(d))| && AllViews(Render(d))[j].body.Entries?
    ensures s in d.sections && !IsSkills(s) && s.id == AllViews(Render(d))[j].id
    ensures var entries := AllViews(Render(d))[j].body.entries;
      |entries| == |s.items|
      && forall k :: 0 <= k < |s.items| ==> EntryShows(entries[k], s.items[k], d.template == Modern)
  {
    s := ViewSource(d, j);
  }
}
