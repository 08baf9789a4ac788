/** A whole editing session, handler by handler: the pieces of the model composed. */
module ResumeScenario {
  import opened ResumeTypes
  import opened Seqs
  import opened ResumeDocument
  import SectionList
  import Preview

  /** Starting from `INITIAL_DATA`, add a section, add one item to it, drag it to the top
      and show the modern template: the new section's heading "Nova Seção" comes first
      on the page, and the page still draws all six sections, one each. */
  lemma NewSectionDraggedToTop(newId: string, itemId: string)
    requires newId !in SectionIds(InitialData().sections)
    ensures
      var d1 := AddSection(InitialData(), newId);
      var u := SectionList.AddItemToSection(d1.sections, 5, itemId);
      var d2 := UpdateSection(d1, u.id, u.section);
      var d3 := ReorderSections(d2, Move(d2.sections, 5, 0));
      && WellFormed(d3)
      && Preview.Render(d3).ModernPage?
      && |Preview.Render(d3).sections| == 6
      && Preview.Render(d3).sections[0].id == newId
      && Preview.Render(d3).sections[0].heading == "Nova Seção"
      && multiset(Preview.ViewIds(Preview.AllViews(Preview.Render(d3)))) == multiset(SectionIds(d3.sections))
  {
    var d1 := AddSection(InitialData(), newId);
    var u := SectionList.AddItemToSection(d1.sections, 5, itemId);
    var d2 := UpdateSection(d1, u.id, u.section);
    var d3 := ReorderSections(d2, Move(d2.sections, 5, 0));
    InitialDataWellFormed();
    AddSectionKeepsWellFormed(InitialData(), newId);
    UpdateSectionAt(d1, 5, u.section);
    AddItemKeepsWellFormed(d1, 5, itemId);
    MoveAt(d2.sections, 5, 0);
    MoveKeepsWellFormed(d2, 5, 0);
    Preview.FlowKeepsDocumentOrder(d3);
    Preview.EachSectionOnce(d3);
  }
}
