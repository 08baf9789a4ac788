/** The state of the `App` component (App.tsx:75-79): the document being edited, the
    current screen and whether a PDF is being generated. Each handler replaces the
    document through the pure updaters of `ResumeDocument`. */
module EditorSession {
  import opened ResumeTypes
  import opened Seqs
  import opened ResumeDocument
  import opened PdfFileName
  import SectionList

  /** The three screens: template choice, the editor with its live preview, and the
      preview alone. */
  datatype View = Home | EditorView | PreviewView

  /** The home screen shows only the template cards (App.tsx:157-177); every other control
      (the edit forms, the bar's buttons) exists only on the editor and preview screens,
      which is what the `requires` on `view` say. */
  class Editor {
    var resumeData: ResumeData
    var view: View
    var isDownloading: bool
    /** The view the pending download callback will restore: the `previousView` its
        closure captured when the button was pressed (App.tsx:129). */
    var pending: Option<View>

    /** The document stays well formed, a download is running exactly when a callback is
        pending, and that callback was set up off the home screen. */
    ghost predicate Valid()
      reads this
    {
      && WellFormed(resumeData)
      && (isDownloading <==> pending.Some?)
      && (pending.Some? ==> pending.value != Home)
    }

    /** The app opens on the home screen with the example document. */
    constructor ()
      ensures Valid()
      ensures resumeData == InitialData() && view == Home && !isDownloading
    {
      resumeData := InitialData();
      view := Home;
      isDownloading := false;
      pending := None;
      InitialDataWellFormed();
    }

    method ChangePersonalInfo(field: PersonalField, value: Option<string>)
      requires Valid() && view != Home
      requires value.None? ==> field == PhotoUrl
      modifies this
      ensures Valid()
      ensures resumeData == ResumeDocument.ChangePersonalInfo(old(resumeData), field, value)
      ensures view == old(view) && isDownloading == old(isDownloading) && pending == old(pending)
    {
      resumeData := ResumeDocument.ChangePersonalInfo(resumeData, field, value);
    }

    /** `handleUpdateSection` as the section list calls it: with the id of the section it
        rebuilt, keeping that id and distinct item ids. */
    method UpdateSection(id: string, updated: Section)
      requires Valid() && view != Home
      requires updated.id == id && UniqueItemIds(updated.items)
      modifies this
      ensures Valid()
      ensures resumeData == ResumeDocument.UpdateSection(old(resumeData), id, updated)
      ensures view == old(view) && isDownloading == old(isDownloading) && pending == old(pending)
    {
      UpdateSectionKeepsWellFormed(resumeData, id, updated);
      resumeData := ResumeDocument.UpdateSection(resumeData, id, updated);
    }

    /** `newId` stands for `Date.now().toString()` (App.tsx:110), taken to be fresh. */
    method AddSection(newId: string)
      requires Valid() && view != Home
      requires newId !in SectionIds(resumeData.sections)
      modifies this
      ensures Valid()
      ensures resumeData == ResumeDocument.AddSection(old(resumeData), newId)
      ensures view == old(view) && isDownloading == old(isDownloading) && pending == old(pending)
    {
      AddSectionKeepsWellFormed(resumeData, newId);
      resumeData := ResumeDocument.AddSection(resumeData, newId);
    }

    method RemoveSection(id: string)
      requires Valid() && view != Home
      modifies this
      ensures Valid()
      ensures resumeData == ResumeDocument.RemoveSection(old(resumeData), id)
      ensures view == old(view) && isDownloading == old(isDownloading) && pending == old(pending)
    {
      RemoveSectionKeepsWellFormed(resumeData, id);
      resumeData := ResumeDocument.RemoveSection(resumeData, id);
    }

    /** A drop in the section list (SortableSectionList.tsx:24-32) handed to
        `handleReorderSections` (App.tsx:97-99): the dragged section moves to the drop
        position; a cancelled drop leaves the document as it was. */
    method DropSection(source: nat, destination: Option<nat>)
      requires Valid() && view != Home
      requires source < |resumeData.sections|
      requires destination.Some? ==> destination.value < |resumeData.sections|
      modifies this
      ensures Valid()
      ensures destination.None? ==> resumeData == old(resumeData)
      ensures destination.Some? ==>
        resumeData == ReorderSections(old(resumeData), Move(old(resumeData.sections), source, destination.value))
      ensures view == old(view) && isDownloading == old(isDownloading) && pending == old(pending)
    {
      var reordered := SectionList.DragEnd(resumeData.sections, source, destination);
      if reordered.Some? {
        MoveKeepsWellFormed(resumeData, source, destination.value);
        resumeData := ReorderSections(resumeData, reordered.value);
      }
    }

    /** The "add item" button of section `k` (SortableSectionList.tsx:38-49, 185); `itemId`
        stands for `Date.now().toString()`, taken to be fresh within the section. Only
        section `k` changes. */
    method AddItem(k: nat, itemId: string)
      requires Valid() && view != Home
      requires k < |resumeData.sections|
      requires forall m :: 0 <= m < |resumeData.sections[k].items| ==> resumeData.sections[k].items[m].id != itemId
      modifies this
      ensures Valid()
      ensures resumeData == ReorderSections(old(resumeData),
        old(resumeData.sections)[k := SectionList.AddItemToSection(old(resumeData.sections), k, itemId).section])
      ensures view == old(view) && isDownloading == old(isDownloading) && pending == old(pending)
    {
      var u := SectionList.AddItemToSection(resumeData.sections, k, itemId);
      AddItemKeepsWellFormed(resumeData, k, itemId);
      UpdateSectionAt(resumeData, k, u.section);
      resumeData := ResumeDocument.UpdateSection(resumeData, u.id, u.section);
    }

    /** Typing into a field of item `i` of section `k` (SortableSectionList.tsx:51-56,
        143-177); the forms offer the title, subtitle, date and description, never the id.
        Only that field of that item changes. */
    method EditItem(k: nat, i: nat, field: SectionList.ItemField, value: string)
      requires Valid() && view != Home
      requires k < |resumeData.sections| && i < |resumeData.sections[k].items|
      requires field != SectionList.Id
      modifies this
      ensures Valid()
      ensures |resumeData.sections| == |old(resumeData.sections)|
      ensures resumeData == ReorderSections(old(resumeData), old(resumeData.sections)[k := resumeData.sections[k]])
      ensures resumeData.sections[k] == old(resumeData.sections[k]).(items := resumeData.sections[k].items)
      ensures |resumeData.sections[k].items| == |old(resumeData.sections[k].items)|
      ensures forall m :: 0 <= m < |resumeData.sections[k].items| && m != i ==>
        resumeData.sections[k].items[m] == old(resumeData.sections[k].items[m])
      ensures SectionList.FieldOf(resumeData.sections[k].items[i], field) == Some(value)
      ensures forall f :: f != field ==>
        SectionList.FieldOf(resumeData.sections[k].items[i], f) == SectionList.FieldOf(old(resumeData.sections[k].items[i]), f)
      ensures view == old(view) && isDownloading == old(isDownloading) && pending == old(pending)
    {
      var u := SectionList.UpdateItem(resumeData.sections, k, i, field, value);
      UpdateSectionKeepsWellFormed(resumeData, u.id, u.section);
      UpdateSectionAt(resumeData, k, u.section);
      resumeData := ResumeDocument.UpdateSection(resumeData, u.id, u.section);
    }

    /** The trash button of item `i` of section `k` (SortableSectionList.tsx:58-62, 132).
        Only section `k` changes. */
    method RemoveItem(k: nat, i: nat)
      requires Valid() && view != Home
      requires k < |resumeData.sections|
      modifies this
      ensures Valid()
      ensures resumeData == ReorderSections(old(resumeData),
        old(resumeData.sections)[k := SectionList.RemoveItem(old(resumeData.sections), k, i).section])
      ensures view == old(view) && isDownloading == old(isDownloading) && pending == old(pending)
    {
      var u := SectionList.RemoveItem(resumeData.sections, k, i);
      RemoveItemKeepsWellFormed(resumeData, k, i);
      UpdateSectionAt(resumeData, k, u.section);
      resumeData := ResumeDocument.UpdateSection(resumeData, u.id, u.section);
    }

    /** The title field of section `k` (SortableSectionList.tsx:64-67, 103). Only that
        section's title changes. */
    method RenameSection(k: nat, newTitle: string)
      requires Valid() && view != Home
      requires k < |resumeData.sections|
      modifies this
      ensures Valid()
      ensures resumeData == ReorderSections(old(resumeData),
        old(resumeData.sections)[k := old(resumeData.sections[k]).(title := newTitle)])
      ensures view == old(view) && isDownloading == old(isDownloading) && pending == old(pending)
    {
      var u := SectionList.TitleChange(resumeData.sections, k, newTitle);
      TitleChangeKeepsWellFormed(resumeData, k, newTitle);
      UpdateSectionAt(resumeData, k, u.section);
      resumeData := ResumeDocument.UpdateSection(resumeData, u.id, u.section);
    }

    /** The template buttons of the editor bar (App.tsx:193-204). */
    method SelectTemplate(t: Template)
      requires Valid() && view != Home
      modifies this
      ensures Valid()
      ensures resumeData == SetTemplate(old(resumeData), t)
      ensures view == old(view) && isDownloading == old(isDownloading) && pending == old(pending)
    {
      resumeData := SetTemplate(resumeData, t);
    }

    /** A template card on the home screen (App.tsx:142-145): selects the template and
        opens the editor. */
    method ChooseTemplateCard(t: Template)
      requires Valid() && view == Home
      modifies this
      ensures Valid()
      ensures resumeData == SetTemplate(old(resumeData), t)
      ensures view == EditorView && isDownloading == old(isDownloading) && pending == old(pending)
    {
      resumeData := SetTemplate(resumeData, t);
      view := EditorView;
    }

    /** The "Início" button (App.tsx:185). */
    method GoHome()
      requires Valid() && view != Home
      modifies this
      ensures Valid()
      ensures view == Home
      ensures resumeData == old(resumeData) && isDownloading == old(isDownloading) && pending == old(pending)
    {
      view := Home;
    }

    /** The editor/preview switch of the bar (App.tsx:207-213), only on those two screens. */
    method ToggleView()
      requires Valid() && view != Home
      modifies this
      ensures Valid()
      ensures view == (if old(view) == EditorView then PreviewView else EditorView)
      ensures view != old(view) && view != Home
      ensures resumeData == old(resumeData) && isDownloading == old(isDownloading) && pending == old(pending)
    {
      view := if view == EditorView then PreviewView else EditorView;
    }

    /** Pressing "Baixar PDF" (App.tsx:126-132, 216): while a download runs the button is
        disabled and the press does nothing. Otherwise the flag is raised, the current view
        is remembered for the callback and the preview is shown; `fileName` is the name the
        callback passes to the PDF generator, computed from the document of this moment
        because the callback closes over it (App.tsx:134). */
    method StartDownload() returns (started: bool, fileName: string)
      requires Valid() && view != Home
      modifies this
      ensures Valid()
      ensures started <==> !old(isDownloading)
      ensures started ==> isDownloading && view == PreviewView && pending == Some(old(view))
      ensures started ==> fileName == FileName(old(resumeData).personalInfo.fullName)
      ensures !started ==> view == old(view) && isDownloading == old(isDownloading) && pending == old(pending)
      ensures resumeData == old(resumeData)
    {
      if isDownloading {
        return false, "";
      }
      isDownloading := true;
      pending := Some(view);
      if view != PreviewView {
        view := PreviewView;
      }
      started := true;
      fileName := FileName(resumeData.personalInfo.fullName);
    }

    /** The end of the pending callback (App.tsx:135-136): the flag drops and the view from
        before the download comes back, whatever screen is showing by then. */
    method FinishDownload()
      requires Valid() && pending.Some?
      modifies this
      ensures Valid()
      ensures !isDownloading && pending == None && view == old(pending).value
      ensures view != Home
      ensures resumeData == old(resumeData)
    {
      view := pending.value;
      pending := None;
      isDownloading := false;
    }

    /** A whole download with no other event in between: the document is unchanged, the
        flag is down again and the screen is the one the user pressed the button on. */
    method Download() returns (fileName: string)
      requires Valid() && view != Home && !isDownloading
      modifies this
      ensures Valid()
      ensures fileName == FileName(resumeData.personalInfo.fullName)
      ensures NoWhitespace(fileName)
      ensures resumeData == old(resumeData) && view == old(view) && !isDownloading && pending == None
    {
      var started;
      started, fileName := StartDownload();
      assert pending == Some(old(view));
      FinishDownload();
    }
  }
}
