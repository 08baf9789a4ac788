/** The document updaters of the editor (App.tsx): each takes the previous document and
    returns the next one, as the `setResumeData(prev => ...)` callbacks do. */
module ResumeDocument {
  import opened ResumeTypes
  import opened Seqs
  import SectionList

  /** `INITIAL_DATA` (App.tsx:9-74). */
  function InitialData(): ResumeData {
    ResumeData(InitialPersonalInfo(), InitialSections(), Modern, "#1f2937", 1.0)
  }

  /** Long literals are written in pieces, which keeps them cheap for the verifier. */
  function InitialPersonalInfo(): PersonalInfo {
    PersonalInfo(
      "Max K. Silva",
      "Jovem Aprendiz",
      "exemplo@gmail.com",
      "(12) 3456-7890",
      "Rua Duque de Caxias, 1, " + "Centro - Buenos Aires, PE",
      Some("linkedin.com/in/max-k-silva"),
      Some("https://picsum.photos/200/200"),
      "Busco minha primeira oportunidade " + "de emprego como Jovem Aprendiz, " +
      "visando desenvolver habilidades " + "profissionais e contribuir com " +
      "dedicação e vontade de aprender " + "para o crescimento da empresa.")
  }

  function InitialSections(): seq<Section> {
    [ Section("obj", "Objetivos Profissionais", Text, ObjectiveItems(), true),
      Section("edu", "Formação", Education, SchoolItems(), true),
      Section("qual", "Qualificações", Skills, QualificationItems(), true),
      Section("lang", "Idiomas", Skills, LanguageItems(), true),
      Section("courses", "Cursos", Education, CourseItems(), true) ]
  }

  function ObjectiveItems(): seq<SectionItem> {
    [SectionItem("1", Some(""), Some(""), Some(""), Some("Desenvolver habilidades em " + "administração e atendimento " + "ao cliente."))]
  }

  function SchoolItems(): seq<SectionItem> {
    [SectionItem("1", Some("Escola Pacheco e Lacerda"), Some("Cursando 1º ano do ensino médio"), Some("2025"), None)]
  }

  function QualificationItems(): seq<SectionItem> {
    [ SectionItem("1", None, None, None, Some("Facilidade em trabalhar em equipe")),
      SectionItem("2", None, None, None, Some("Boa comunicação")),
      SectionItem("3", None, None, None, Some("Habilidade em organização e pontualidade")),
      SectionItem("4", None, None, None, Some("Conhecimento básico em digitalização")) ]
  }

  function LanguageItems(): seq<SectionItem> {
    [ SectionItem("1", None, None, None, Some("Português: Nativo")),
      SectionItem("2", None, None, None, Some("Inglês: Básico")),
      SectionItem("3", None, None, None, Some("Espanhol: Básico")) ]
  }

  function CourseItems(): seq<SectionItem> {
    [ SectionItem("1", Some("Hanover e Tavares"), Some("Curso de Idioma (Espanhol)"), Some("2023"), None),
      SectionItem("2", Some("Empresa Ícaro"), Some("Curso Comunicação Escrita"), Some("2020"), None) ]
  }

  /** Items whose ids are "1", "2", ... in order have distinct ids. */
  lemma NumberedItemsUnique(items: seq<SectionItem>)
    requires |items| <= 4
    requires forall k :: 0 <= k < |items| ==> items[k].id == ["1", "2", "3", "4"][k]
    ensures UniqueItemIds(items)
  {
    var labels := ["1", "2", "3", "4"];
    assert forall k, m :: 0 <= k < m < 4 ==> labels[k][0] != labels[m][0];
  }

  lemma InitialSectionIdsUnique()
    ensures |InitialSections()| == 5
    ensures UniqueSectionIds(InitialSections())
  {
    var ss := InitialSections();
    var initials := "oeqlc";
    assert forall i :: 0 <= i < 5 ==> |ss[i].id| > 0 && ss[i].id[0] == initials[i];
    assert forall i, j :: 0 <= i < j < 5 ==> initials[i] != initials[j];
  }

  lemma InitialItemIdsUnique()
    ensures forall i :: 0 <= i < |InitialSections()| ==> UniqueItemIds(InitialSections()[i].items)
  {
    NumberedItemsUnique(ObjectiveItems());
    NumberedItemsUnique(SchoolItems());
    NumberedItemsUnique(QualificationItems());
    NumberedItemsUnique(LanguageItems());
    NumberedItemsUnique(CourseItems());
  }

  /** The initial document is well formed: its section ids are pairwise distinct and so
      are the item ids of each section. */
  lemma InitialDataWellFormed()
    ensures WellFormed(InitialData())
    ensures |InitialData().sections| == 5
  {
    InitialSectionIdsUnique();
    InitialItemIdsUnique();
  }

  /** The fields `handlePersonalInfoChange` is called with. */
  datatype PersonalField = FullName | JobTitle | Email | Phone | Address | Linkedin | PhotoUrl | Summary

  function PersonalFieldOf(p: PersonalInfo, field: PersonalField): Option<string> {
    match field
    case FullName => Some(p.fullName)
    case JobTitle => Some(p.title)
    case Email => Some(p.email)
    case Phone => Some(p.phone)
    case Address => Some(p.address)
    case Linkedin => p.linkedin
    case PhotoUrl => p.photoUrl
    case Summary => Some(p.summary)
  }

  /** `{ ...personalInfo, [field]: value }`. Only the photo is ever set to `null` (App.tsx:266). */
  function WithPersonalField(p: PersonalInfo, field: PersonalField, value: Option<string>): (r: PersonalInfo)
    requires value.None? ==> field == PhotoUrl
    ensures PersonalFieldOf(r, field) == value
    ensures forall f :: f != field ==> PersonalFieldOf(r, f) == PersonalFieldOf(p, f)
  {
    match field
    case FullName => p.(fullName := value.value)
    case JobTitle => p.(title := value.value)
    case Email => p.(email := value.value)
    case Phone => p.(phone := value.value)
    case Address => p.(address := value.value)
    case Linkedin => p.(linkedin := value)
    case PhotoUrl => p.(photoUrl := value)
    case Summary => p.(summary := value.value)
  }

  /** `handlePersonalInfoChange` (App.tsx:82-87): only the named personal field changes. */
  function ChangePersonalInfo(d: ResumeData, field: PersonalField, value: Option<string>): (r: ResumeData)
    requires value.None? ==> field == PhotoUrl
    ensures PersonalFieldOf(r.personalInfo, field) == value
    ensures forall f :: f != field ==> PersonalFieldOf(r.personalInfo, f) == PersonalFieldOf(d.personalInfo, f)
    ensures r.(personalInfo := d.personalInfo) == d
  {
    d.(personalInfo := WithPersonalField(d.personalInfo, field, value))
  }

  /** `handleReorderSections` (App.tsx:97-99): the section list is replaced wholesale. */
  function ReorderSections(d: ResumeData, newSections: seq<Section>): (r: ResumeData)
    ensures r.sections == newSections
    ensures r.(sections := d.sections) == d
  {
    d.(sections := newSections)
  }

  /** `handleUpdateSection` (App.tsx:101-106): every section whose id is `id` is replaced
      by `updated`; the others, their order and the list length are kept. */
  function UpdateSection(d: ResumeData, id: string, updated: Section): (r: ResumeData)
    ensures |r.sections| == |d.sections|
    ensures forall i :: 0 <= i < |d.sections| && d.sections[i].id == id ==> r.sections[i] == updated
    ensures forall i :: 0 <= i < |d.sections| && d.sections[i].id != id ==> r.sections[i] == d.sections[i]
    ensures r.(sections := d.sections) == d
  {
    d.(sections := seq(|d.sections|, i requires 0 <= i < |d.sections| =>
      if d.sections[i].id == id then updated else d.sections[i]))
  }

  /** With unique ids, updating the section at index `k` touches that index only. */
  lemma UpdateSectionAt(d: ResumeData, k: nat, updated: Section)
    requires UniqueSectionIds(d.sections)
    requires k < |d.sections|
    ensures UpdateSection(d, d.sections[k].id, updated).sections == d.sections[k := updated]
  {
    var r := UpdateSection(d, d.sections[k].id, updated);
    forall i | 0 <= i < |d.sections|
      ensures r.sections[i] == d.sections[k := updated][i]
    {
      if i != k {
        assert d.sections[i].id != d.sections[k].id;
      }
    }
  }

  /** Updating an id that no section has leaves the document as it was. */
  lemma UpdateSectionAbsent(d: ResumeData, id: string, updated: Section)
    requires id !in SectionIds(d.sections)
    ensures UpdateSection(d, id, updated) == d
  {
    var r := UpdateSection(d, id, updated);
    forall i | 0 <= i < |d.sections| ensures r.sections[i] == d.sections[i] {
      assert SectionIds(d.sections)[i] == d.sections[i].id;
    }
  }

  /** Repeating an update changes nothing more. */
  lemma UpdateSectionIdempotent(d: ResumeData, id: string, updated: Section)
    requires updated.id == id
    ensures UpdateSection(UpdateSection(d, id, updated), id, updated) == UpdateSection(d, id, updated)
  {
  }

  /** An update that keeps the section's id and gives it distinct item ids keeps the
      document well formed. */
  lemma UpdateSectionKeepsWellFormed(d: ResumeData, id: string, updated: Section)
    requires WellFormed(d)
    requires updated.id == id && UniqueItemIds(updated.items)
    ensures WellFormed(UpdateSection(d, id, updated))
  {
    var r := UpdateSection(d, id, updated);
    forall i, j | 0 <= i < j < |r.sections| ensures r.sections[i].id != r.sections[j].id {
      assert d.sections[i].id != d.sections[j].id;
    }
  }

  /** The section `handleAddSection` creates. */
  function NewSection(id: string): Section {
    Section(id, "Nova Seção", Experience, [], true)
  }

  /** `handleAddSection` (App.tsx:108-117): appends one visible, empty section of type
      experience titled "Nova Seção"; `newId` stands for `Date.now().toString()`. */
  function AddSection(d: ResumeData, newId: string): (r: ResumeData)
    ensures |r.sections| == |d.sections| + 1
    ensures r.sections[..|d.sections|] == d.sections
    ensures var s := r.sections[|d.sections|];
      s.id == newId && s.title == "Nova Seção" && s.sectionType == Experience && s.items == [] && s.isVisible
    ensures r.(sections := d.sections) == d
  {
    d.(sections := d.sections + [NewSection(newId)])
  }

  /** A fresh id keeps the document well formed. */
  lemma AddSectionKeepsWellFormed(d: ResumeData, newId: string)
    requires WellFormed(d)
    requires newId !in SectionIds(d.sections)
    ensures WellFormed(AddSection(d, newId))
  {
    var r := AddSection(d, newId);
    forall i, j | 0 <= i < j < |r.sections| ensures r.sections[i].id != r.sections[j].id {
      if j == |d.sections| {
        assert SectionIds(d.sections)[i] == d.sections[i].id;
      }
    }
  }

  /** `handleRemoveSection` (App.tsx:119-124): keeps the sections whose id is not `id`. */
  function RemoveSection(d: ResumeData, id: string): (r: ResumeData)
    ensures forall i :: 0 <= i < |r.sections| ==> r.sections[i].id != id && r.sections[i] in d.sections
    ensures forall i :: 0 <= i < |d.sections| && d.sections[i].id != id ==> d.sections[i] in r.sections
    ensures r.(sections := d.sections) == d
  {
    FilterMembers(d.sections, (s: Section) => s.id != id);
    d.(sections := Filter(d.sections, (s: Section) => s.id != id))
  }

  /** Removing twice is removing once. */
  lemma RemoveSectionIdempotent(d: ResumeData, id: string)
    ensures RemoveSection(RemoveSection(d, id), id) == RemoveSection(d, id)
  {
    FilterIdempotent(d.sections, (s: Section) => s.id != id);
  }

  /** Removing an id that no section has leaves the document as it was. */
  lemma RemoveSectionAbsent(d: ResumeData, id: string)
    requires id !in SectionIds(d.sections)
    ensures RemoveSection(d, id) == d
  {
    forall i | 0 <= i < |d.sections| ensures d.sections[i].id != id {
      assert SectionIds(d.sections)[i] == d.sections[i].id;
    }
    FilterKeepsAll(d.sections, (s: Section) => s.id != id);
  }

  /** With unique ids, removing the id of the section at index `k` drops exactly that
      section and keeps the others in order, so the list shrinks by one. */
  lemma RemoveSectionAt(d: ResumeData, k: nat)
    requires UniqueSectionIds(d.sections)
    requires k < |d.sections|
    ensures RemoveSection(d, d.sections[k].id).sections == RemoveAt(d.sections, k)
    ensures |RemoveSection(d, d.sections[k].id).sections| == |d.sections| - 1
  {
    var id := d.sections[k].id;
    forall i | 0 <= i < |d.sections| && i != k ensures d.sections[i].id != id {
      if i < k {
        assert d.sections[i].id != d.sections[k].id;
      }
    }
    FilterRejectsOne(d.sections, k, (s: Section) => s.id != id);
  }

  /** Filtering a list with unique ids keeps them unique. */
  lemma {:induction false} FilterKeepsUniqueIds(ss: seq<Section>, keep: Section -> bool)
    requires UniqueSectionIds(ss)
    ensures UniqueSectionIds(Filter(ss, keep))
  {
    if ss != [] {
      var tail := ss[1..];
      FilterKeepsUniqueIds(tail, keep);
      var ft := Filter(tail, keep);
      FilterMembers(tail, keep);
      forall j | 0 <= j < |ft| ensures ft[j].id != ss[0].id {
        var m :| 0 <= m < |tail| && tail[m] == ft[j];
        assert ss[m + 1] == ft[j];
      }
      var r := Filter(ss, keep);
      if keep(ss[0]) {
        assert r == [ss[0]] + ft;
        forall i, j | 0 <= i < j < |r| ensures r[i].id != r[j].id {
          if i > 0 {
            assert r[i] == ft[i - 1] && r[j] == ft[j - 1];
          } else {
            assert r[j] == ft[j - 1];
          }
        }
      } else {
        assert r == ft;
      }
    }
  }

  lemma RemoveSectionKeepsWellFormed(d: ResumeData, id: string)
    requires WellFormed(d)
    ensures WellFormed(RemoveSection(d, id))
  {
    var r := RemoveSection(d, id);
    FilterKeepsUniqueIds(d.sections, (s: Section) => s.id != id);
    forall i | 0 <= i < |r.sections| ensures UniqueItemIds(r.sections[i].items) {
      var m :| 0 <= m < |d.sections| && d.sections[m] == r.sections[i];
    }
  }

  /** A drag-and-drop move keeps the document well formed. */
  lemma MoveKeepsWellFormed(d: ResumeData, from: nat, to: nat)
    requires WellFormed(d)
    requires from < |d.sections| && to < |d.sections|
    ensures WellFormed(ReorderSections(d, Move(d.sections, from, to)))
  {
    var m := Move(d.sections, from, to);
    MoveAt(d.sections, from, to);
    forall i, j | 0 <= i < j < |m| ensures m[i].id != m[j].id {
      MoveSourceInjective(from, to, i, j);
      var si, sj := MoveSource(from, to, i), MoveSource(from, to, j);
      if si < sj {
        assert d.sections[si].id != d.sections[sj].id;
      } else {
        assert d.sections[sj].id != d.sections[si].id;
      }
    }
  }

  /** Adding an item under an id no item of that section has keeps the document well
      formed (SortableSectionList.tsx:38-49 through App.tsx:101-106). */
  lemma AddItemKeepsWellFormed(d: ResumeData, k: nat, itemId: string)
    requires WellFormed(d)
    requires k < |d.sections|
    requires forall m :: 0 <= m < |d.sections[k].items| ==> d.sections[k].items[m].id != itemId
    ensures var u := SectionList.AddItemToSection(d.sections, k, itemId);
      WellFormed(UpdateSection(d, u.id, u.section))
  {
    var u := SectionList.AddItemToSection(d.sections, k, itemId);
    var items, n := u.section.items, |d.sections[k].items|;
    forall i, j | 0 <= i < j < |items| ensures items[i].id != items[j].id {
      if j < n {
        assert items[i] == d.sections[k].items[i] && items[j] == d.sections[k].items[j];
      } else {
        assert items[i] == d.sections[k].items[i];
      }
    }
    UpdateSectionKeepsWellFormed(d, u.id, u.section);
  }

  /** Removing an item keeps the document well formed (SortableSectionList.tsx:58-62
      through App.tsx:101-106). */
  lemma RemoveItemKeepsWellFormed(d: ResumeData, k: nat, itemIndex: int)
    requires WellFormed(d)
    requires k < |d.sections|
    ensures var u := SectionList.RemoveItem(d.sections, k, itemIndex);
      WellFormed(UpdateSection(d, u.id, u.section))
  {
    var u := SectionList.RemoveItem(d.sections, k, itemIndex);
    var old_items, items := d.sections[k].items, u.section.items;
    if 0 <= itemIndex < |old_items| {
      forall i, j | 0 <= i < j < |items| ensures items[i].id != items[j].id {
        var si, sj := if i < itemIndex then i else i + 1, if j < itemIndex then j else j + 1;
        assert items[i] == old_items[si] && items[j] == old_items[sj];
      }
    }
    UpdateSectionKeepsWellFormed(d, u.id, u.section);
  }

  /** Renaming a section keeps the document well formed (SortableSectionList.tsx:64-67
      through App.tsx:101-106). */
  lemma TitleChangeKeepsWellFormed(d: ResumeData, k: nat, newTitle: string)
    requires WellFormed(d)
    requires k < |d.sections|
    ensures var u := SectionList.TitleChange(d.sections, k, newTitle);
      WellFormed(UpdateSection(d, u.id, u.section))
  {
    var u := SectionList.TitleChange(d.sections, k, newTitle);
    UpdateSectionKeepsWellFormed(d, u.id, u.section);
  }

  /** The template buttons and cards (App.tsx:143, 193-204): only the template changes. */
  function SetTemplate(d: ResumeData, t: Template): (r: ResumeData)
    ensures r.template == t
    ensures r.(template := d.template) == d
  {
    d.(template := t)
  }
}
