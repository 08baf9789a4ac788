# Resume Builder — document model, file name and template projection

This project models the core of a React resume builder in Dafny. A resume is a
document made of:

- personal information;
- an ordered list of typed sections of items;
- a selected template (modern, classic or minimal);
- an accent colour and a content scale.

The model covers the editor's handlers on that document, the file name given to the
downloaded PDF, the editor's screen and download state, and the way each of the three
templates lays the document out.

The modules follow the source files:

- `ResumeTypes` (types.dfy) covers types.ts. The document's entities are datatypes. The
  template and the section type are closed enumerations. Optional fields are `Option`.
- `Seqs` (seqs.dfy) holds the sequence operations the handlers are built from:
  - `Array.prototype.filter` as `Filter`;
  - `splice` removal and insertion as `RemoveAt`/`InsertAt`, plus in-place array versions
    `SpliceOut`/`SpliceIn`;
  - the drag-and-drop move `Move`, as a splice out followed by a splice in.
- `SectionList` (section_list.dfy) covers SortableSectionList.tsx:
  - the drag handler, as a method that copies the list into a fresh array and splices it
    in place;
  - the item handlers, which build the section update sent back to the document; the
    update of a single item is a method over a copied array;
  - the expand/collapse state, as a small class.
- `ResumeDocument` (document.dfy) covers App.tsx's `INITIAL_DATA` and its pure document
  updaters (`prev => ({...prev, ...})`), written as functions from the old document to
  the new one.
- `PdfFileName` (file_name.dfy) covers the file name rule of App.tsx:134:
  - every maximal run of ECMAScript whitespace (`\s`) in the full name becomes one `-`;
  - the result is lower-cased;
  - it is wrapped as `curriculo-<slug>.pdf`.

  The module `PdfFileNameExample` works the name "Max K. Silva" through.
- `EditorSession` (editor.dfy) models the `App` component's state (`resumeData`, `view`,
  `isDownloading`) as a class. Its handlers are methods, and the download is split into
  the button press and the delayed callback. The view that callback restores is a field
  (`pending`). Every method keeps the invariant `Valid()`: the document stays well formed
  (unique section ids, unique item ids within each section), and a callback is pending
  exactly while a download runs.
- `Preview` (preview.dfy) models ResumePreview.tsx as a pure function, `Render`, from a
  document to an abstract page. The page holds:
  - a header (name, job title, photo);
  - contact lines;
  - an optional summary block;
  - section views, each with a heading and a body. A body is either labels (skills) or
    entries (every other type), placed in a flow region or in one of the two columns of
    the minimal page.

Ids the source draws from `Date.now()` are parameters of the operations that create
them.

## Model

| member | source | states |
|---|---|---|
| Seqs.Filter | App.tsx:122 | `Array.prototype.filter`: the elements that pass the test, in their order, never more than the input; described by FilterMembers, FilterRejectsOne, FilterIdempotent and FilterPartition |
| Seqs.FilterMembers | App.tsx:119-124 | `filter` keeps exactly the elements that pass the test: every element of the result is an input element that passes, and every input element that passes is in the result |
| Seqs.FilterRejectsOne | App.tsx:119-124 | when exactly one element fails the test, filtering is removal of that element at its index, the others keeping their order |
| Seqs.FilterIdempotent | App.tsx:119-124 | filtering twice with the same test is filtering once |
| Seqs.FilterPartition | ResumePreview.tsx:138-175 | two complementary filters split a list: their results together are a permutation of the list and their lengths add up to its length |
| Seqs.RemoveAt | SortableSectionList.tsx:28 | `splice(i, 1)`: one element shorter, elements before `i` in place and those after shifted down by one |
| Seqs.InsertAt | SortableSectionList.tsx:29 | `splice(j, 0, x)`: one element longer, `x` at `j`, the others shifted around it |
| Seqs.SpliceOut | SortableSectionList.tsx:28 | removing in place from an array leaves `RemoveAt` of the old contents in the prefix |
| Seqs.SpliceIn | SortableSectionList.tsx:29 | inserting in place into the used prefix of an array gives `InsertAt` of the old prefix and does not touch the rest |
| Seqs.Move | SortableSectionList.tsx:27-29 | the drag-and-drop move: the element at `from` spliced out and spliced back in at `to`; described by MoveAt, MovePermutes, MoveKeepsOthersInOrder, MoveToSelf and MoveUndo |
| Seqs.MoveAt | SortableSectionList.tsx:27-29 | a move keeps the length and every position holds the element of a computed source index |
| Seqs.MoveSourceInjective | SortableSectionList.tsx:27-29 | distinct positions after a move come from distinct positions before it |
| Seqs.MovePermutes | SortableSectionList.tsx:27-29 | a move is a permutation of the list |
| Seqs.MoveKeepsOthersInOrder | SortableSectionList.tsx:28-29 | the moved element lands at the destination and the other elements keep their relative order |
| Seqs.MoveToSelf | SortableSectionList.tsx:27-29 | moving an element to its own index returns the original list |
| Seqs.MoveUndo | SortableSectionList.tsx:27-29 | moving back from the destination to the source undoes a move |
| SectionList.WithField | SortableSectionList.tsx:54 | `{ ...item, [field]: value }` sets the named field and leaves every other field as it was |
| SectionList.DragEnd | SortableSectionList.tsx:24-32 | a drop with no destination reports nothing; otherwise the result is the move of the dragged section to the destination, built on a copy |
| SectionList.AddItemToSection | SortableSectionList.tsx:38-49 | the section keeps its id, title, type and existing items, and exactly one item is appended, with the given id and empty title, subtitle, date and description |
| SectionList.UpdateItem | SortableSectionList.tsx:51-56 | only the named field of the item at the index changes: same item count, other items and other fields unchanged, section id and the rest of the section unchanged; when the field is not the id, unique item ids stay unique |
| SectionList.WithoutIndex | SortableSectionList.tsx:60 | filtering by index drops exactly the element at an in-range index and nothing when the index is out of range |
| SectionList.RemoveItem | SortableSectionList.tsx:58-62 | the item at the position is dropped and the others keep their order (length one less); an out-of-range position changes nothing; only the items change |
| SectionList.TitleChange | SortableSectionList.tsx:64-67 | only the section's title changes, so unique item ids stay unique |
| SectionList.Toggled | SortableSectionList.tsx:35 | `expandedSection === id ? null : id`: the next open section after a press on `id`; described by ToggleFlips, ToggleTwiceRestores and ToggleTwiceFromOther |
| SectionList.ToggleFlips | SortableSectionList.tsx:34-36 | after a press, section `id` is open exactly when it was not open before |
| SectionList.ToggleTwiceRestores | SortableSectionList.tsx:34-36 | from the collapsed state, or with `id` open, pressing twice restores the state |
| SectionList.ToggleTwiceFromOther | SortableSectionList.tsx:34-36 | with another section open, one press opens `id` and a second press leaves nothing open, so the other section does not come back |
| SectionList.ExpandState.constructor | SortableSectionList.tsx:22 | no section is open at first |
| SectionList.ExpandState.ToggleExpand | SortableSectionList.tsx:34-36 | the open section becomes `Toggled(old, id)`: none when `id` was open, otherwise `id` |
| ResumeDocument.NumberedItemsUnique | App.tsx:23-73 | items numbered "1", "2", … have distinct ids |
| ResumeDocument.InitialSectionIdsUnique | App.tsx:23-73 | the initial document has five sections with pairwise distinct ids |
| ResumeDocument.InitialItemIdsUnique | App.tsx:23-73 | every initial section has distinct item ids |
| ResumeDocument.InitialData | App.tsx:9-74 | `INITIAL_DATA` field by field: the example personal information, the five example sections, the modern template, colour #1f2937 and scale 1; described by InitialDataWellFormed |
| ResumeDocument.InitialDataWellFormed | App.tsx:9-74 | `INITIAL_DATA` is well formed: unique section ids and unique item ids within each section |
| ResumeDocument.WithPersonalField | App.tsx:84-86 | the named personal field takes the new value and the other personal fields are unchanged |
| ResumeDocument.ChangePersonalInfo | App.tsx:82-87 | only the named personal field changes; sections, template, colour and scale are unchanged |
| ResumeDocument.ReorderSections | App.tsx:97-99 | the section list is replaced and nothing else changes |
| ResumeDocument.UpdateSection | App.tsx:101-106 | every section with the id is replaced, the others stay in place, the length is kept and nothing outside the sections changes |
| ResumeDocument.UpdateSectionAt | App.tsx:101-106 | with unique ids, updating the id of the section at `k` changes that index only |
| ResumeDocument.UpdateSectionAbsent | App.tsx:101-106 | an id no section has leaves the document unchanged |
| ResumeDocument.UpdateSectionIdempotent | App.tsx:101-106 | repeating an update that keeps the id changes nothing more |
| ResumeDocument.UpdateSectionKeepsWellFormed | App.tsx:101-106 | an update that keeps the id and has unique item ids keeps the document well formed |
| ResumeDocument.NewSection | App.tsx:109-115 | the section `handleAddSection` creates: the given id, "Nova Seção", type experience, no items, visible; its fields are stated by AddSection |
| ResumeDocument.AddSection | App.tsx:108-117 | exactly one section is appended (the given id, "Nova Seção", type experience, no items, visible); the earlier sections and the rest of the document are unchanged |
| ResumeDocument.AddSectionKeepsWellFormed | App.tsx:108-117 | a fresh id keeps the document well formed |
| ResumeDocument.RemoveSection | App.tsx:119-124 | no remaining section has the id, every remaining section was in the document, every section with another id remains, and nothing outside the sections changes |
| ResumeDocument.RemoveSectionIdempotent | App.tsx:119-124 | removing twice is removing once |
| ResumeDocument.RemoveSectionAbsent | App.tsx:119-124 | removing an id no section has leaves the document unchanged |
| ResumeDocument.RemoveSectionAt | App.tsx:119-124 | with unique ids, removing the id of the section at `k` drops exactly that section, keeps the others in order and shortens the list by one |
| ResumeDocument.FilterKeepsUniqueIds | App.tsx:121 | filtering sections keeps their ids unique |
| ResumeDocument.RemoveSectionKeepsWellFormed | App.tsx:119-124 | removal keeps the document well formed |
| ResumeDocument.AddItemKeepsWellFormed | SortableSectionList.tsx:38-49 | adding an item whose id no item of that section has, and handing the section to `handleUpdateSection`, keeps the document well formed |
| ResumeDocument.RemoveItemKeepsWellFormed | SortableSectionList.tsx:58-62 | removing an item by position, through `handleUpdateSection`, keeps the document well formed |
| ResumeDocument.TitleChangeKeepsWellFormed | SortableSectionList.tsx:64-67 | renaming a section, through `handleUpdateSection`, keeps the document well formed |
| ResumeDocument.MoveKeepsWellFormed | SortableSectionList.tsx:27-29 | a drag-and-drop move keeps the document well formed |
| ResumeDocument.SetTemplate | App.tsx:193-204 | selecting a template changes only the `template` field |
| PdfFileName.IsWhitespace | App.tsx:134 | the characters ECMAScript's `\s` matches: the WhiteSpace and LineTerminator code points |
| PdfFileName.CollapseWhitespace | App.tsx:134 | `replace(/\s+/g, '-')`, never longer than its input; described by CollapseLeavesNoWhitespace, CollapseWithoutWhitespace, RunBecomesOneHyphen, CollapseCons, CollapseAppend and CollapseJoinedWords |
| PdfFileName.Slug | App.tsx:134 | the full name with runs collapsed and then lower-cased: no whitespace and no capital letter; SlugIdempotent states that it is idempotent |
| PdfFileName.LowerChar | App.tsx:134 | `toLowerCase` on one character: a capital letter becomes its small letter 32 code points further on, any other character is unchanged, and the result is never upper case |
| PdfFileName.ToLower | App.tsx:134 | lower-casing keeps the length and where whitespace is, and leaves no upper-case letter |
| PdfFileName.LeadingWhitespace | App.tsx:134 | the length of the maximal whitespace run at the start of a string |
| PdfFileName.CollapseLeavesNoWhitespace | App.tsx:134 | `replace(/\s+/g, '-')` leaves no whitespace |
| PdfFileName.CollapseWithoutWhitespace | App.tsx:134 | a string without whitespace is left unchanged by the replacement |
| PdfFileName.RunBecomesOneHyphen | App.tsx:134 | a maximal whitespace run becomes exactly one `-` |
| PdfFileName.CollapseAppend | App.tsx:134 | when the first part ends without whitespace, the replacement distributes over concatenation |
| PdfFileName.ToLowerAppend | App.tsx:134 | lower-casing distributes over concatenation |
| PdfFileName.LowerThenCollapse | App.tsx:134 | replacing runs and lower-casing commute |
| PdfFileName.SlugIdempotent | App.tsx:134 | the slug of a slug is the slug itself |
| PdfFileName.WordThenSpace | App.tsx:134 | a word followed by one space becomes the word followed by `-` |
| PdfFileName.CollapseJoinedWords | App.tsx:134 | words joined by single spaces become the same words joined by `-` |
| PdfFileName.FileName | App.tsx:134 | the name is `curriculo-` + slug + `.pdf`, contains no whitespace and has no upper-case letter |
| PdfFileName.FileNameOfWords | App.tsx:134 | for a name made of words separated by single spaces, the file name is the lower-cased words joined by `-` |
| PdfFileName.FileNameOfThreeWords | App.tsx:134 | the three-word case of `FileNameOfWords` |
| PdfFileNameExample.ExampleFileName | App.tsx:134 | "Max K. Silva" gives "curriculo-max-k.-silva.pdf" |
| Preview.Contacts | ResumePreview.tsx:77-80 | the address, phone, email and LinkedIn lines, each present only for a non-empty field, with the classic bullet before all but the address; described by ContactsShowNonEmptyFields, ContactsInFieldOrder and LineKinds |
| Preview.Label | ResumePreview.tsx:29 | `item.description \|\| item.title`: the text of a skills item; described by SkillLabels |
| Preview.ModernEntry | ResumePreview.tsx:41-45 | a modern entry: the title always, date, subtitle and description only when non-empty; described by EntryFields |
| Preview.PlainEntry | ResumePreview.tsx:166-170 | a minimal or classic entry: all four elements, each empty when its field is absent; described by EntryFields |
| Preview.ViewOf | ResumePreview.tsx:23-50 | one section drawn in a region: its id, its title as heading, labels for skills and entries for every other type, styled by region; described by FlowBodyFollowsType, SkillLabels and EntryFields |
| Preview.Render | ResumePreview.tsx:53-239 | the page of the document's template; described by TemplateSelectsLayout, FlowKeepsDocumentOrder, MinimalPartition, EachSectionOnce, ViewSource, HeaderOfPage, ContactLinesOfPage and SummaryShownIffNonEmpty |
| Preview.ContactsShowNonEmptyFields | ResumePreview.tsx:77-80 | a contact line of a kind appears exactly when its field is non-empty |
| Preview.ContactsInFieldOrder | ResumePreview.tsx:77-80 | every contact line shows its own field, and the lines come in the order address, phone, email, LinkedIn |
| Preview.LineKinds | ResumePreview.tsx:77-80 | one field gives one line of its kind when non-empty and none otherwise |
| Preview.TemplateSelectsLayout | ResumePreview.tsx:53-239 | the page has the layout of the document's template and no other |
| Preview.FlowKeepsDocumentOrder | ResumePreview.tsx:98-105 | modern and classic draw one view per section, in document order, including sections with no items, each headed by the section title |
| Preview.FlowBodyFollowsType | ResumePreview.tsx:206-235 | in modern and classic a section is drawn as labels exactly when it is a skills section: chips in modern, the dotted grid in classic; every other type is drawn as entries (stacked in modern, date column in classic) |
| Preview.IdsPartition | ResumePreview.tsx:138-175 | the ids of the skills and non-skills sections together are the ids of the document, with multiplicity |
| Preview.MinimalPartition | ResumePreview.tsx:138-175 | the minimal sidebar holds exactly the skills sections and the main column exactly the others, each in document order; together they are a partition of the document's sections |
| Preview.ViewsAppend | ResumePreview.tsx:98-105 | drawing the sections of a concatenation is concatenating the drawings |
| Preview.MinimalColumnsKeepOrder | ResumePreview.tsx:138-175 | each minimal column, cut at any point of the document, is the column of the first part followed by the column of the rest |
| Preview.EverySectionRendered | ResumePreview.tsx:53-239 | in every template the page draws as many views as there are sections, and every section's id is among them |
| Preview.EachSectionOnce | ResumePreview.tsx:53-239 | in every template each section is drawn exactly once: the view ids are the section ids, counted with multiplicity |
| Preview.MinimalShowsSection | ResumePreview.tsx:138-175 | in minimal every section is drawn, either in the sidebar or in the main column |
| Preview.SummaryShownIffNonEmpty | ResumePreview.tsx:86-95 | the summary block appears exactly when the summary is non-empty, under the template's heading ("Sobre Mim", "Perfil", "Resumo") |
| Preview.ContactLinesOfPage | ResumePreview.tsx:77-80 | the page's contact lines are those of the personal information (with the bullet in classic), appearing exactly for non-empty fields, in field order |
| Preview.HeaderOfPage | ResumePreview.tsx:61-68 | modern writes "Seu Nome" for an empty name and the others write the name as it is; the job title appears exactly when non-empty; the photo appears only in modern and minimal, and only with a non-empty URL |
| Preview.ViewSource | ResumePreview.tsx:53-239 | every view on the page is the view of a section of the document for its region; the sidebar draws only skills sections and the main column only the others |
| Preview.MinimalRegions | ResumePreview.tsx:138-175 | the minimal page's views are the sidebar of skills sections followed by the main column of the others |
| Preview.MinimalViewSource | ResumePreview.tsx:138-175 | each minimal view comes from a section of the kind its column takes |
| Preview.ColumnSource | ResumePreview.tsx:138-175 | the `j`-th view of the two columns is drawn from a section that is a skills section exactly when `j` falls in the sidebar |
| Preview.SkillLabels | ResumePreview.tsx:29 | a skills section shows one label per item: the description when it is non-empty, otherwise the title, never both |
| Preview.EntryFields | ResumePreview.tsx:41-45 | an entry list shows one entry per item in order; modern always shows the title and shows date, subtitle and description only when non-empty, while minimal and classic show all four |
| EditorSession.Editor.constructor | App.tsx:75-79 | the app starts on the home screen with `INITIAL_DATA`, no download running and the invariant established |
| EditorSession.Editor.ChangePersonalInfo | App.tsx:82-87 | the document becomes `ChangePersonalInfo` of the old one; view and flag unchanged |
| EditorSession.Editor.UpdateSection | App.tsx:101-106 | the document becomes `UpdateSection` of the old one; view and flag unchanged |
| EditorSession.Editor.AddSection | App.tsx:108-117 | the document becomes `AddSection` of the old one with the given id; view and flag unchanged |
| EditorSession.Editor.RemoveSection | App.tsx:119-124 | the document becomes `RemoveSection` of the old one; view and flag unchanged |
| EditorSession.Editor.DropSection | SortableSectionList.tsx:24-32 | a cancelled drop leaves the document unchanged; otherwise the sections become the move of the dragged section to the drop index |
| EditorSession.Editor.AddItem | SortableSectionList.tsx:38-49 | only section `k` changes, becoming `AddItemToSection`'s section; the invariant is kept |
| EditorSession.Editor.EditItem | SortableSectionList.tsx:51-56 | only the named field of item `i` of section `k` changes; the other sections, items and fields are unchanged and the invariant is kept |
| EditorSession.Editor.RemoveItem | SortableSectionList.tsx:58-62 | only section `k` changes, becoming `RemoveItem`'s section; the invariant is kept |
| EditorSession.Editor.RenameSection | SortableSectionList.tsx:64-67 | only the title of section `k` changes; the invariant is kept |
| EditorSession.Editor.SelectTemplate | App.tsx:193-204 | only the template changes |
| EditorSession.Editor.ChooseTemplateCard | App.tsx:142-145 | the template is selected and the editor opens |
| EditorSession.Editor.GoHome | App.tsx:185 | the home screen is shown and nothing else changes |
| EditorSession.Editor.ToggleView | App.tsx:207-213 | the switch moves between editor and preview and nothing else changes |
| EditorSession.Editor.StartDownload | App.tsx:126-132 | a press while a download runs does nothing; otherwise the flag is raised, the preview is shown, the current view is kept for the pending callback, and the file name is that of the document at the moment of the press |
| EditorSession.Editor.FinishDownload | App.tsx:135-136 | runs only while a callback is pending; the flag drops, nothing is pending any more and the view from before the download comes back (never the home screen) |
| EditorSession.Editor.Download | App.tsx:126-138 | a whole download with no other event in between leaves the document and the view as they were, with the flag down, and uses a file name without whitespace |
| ResumeScenario.NewSectionDraggedToTop | App.tsx:108-117 | from `INITIAL_DATA`, adding a section, adding an item to it and dragging it to the top keeps the document well formed, and the modern page then draws six sections, one each, with "Nova Seção" first |

## Left out

- PDF generation (pdfService.ts) is not part of this model. It is a DOM lookup plus calls into html2canvas and jsPDF, and its only arithmetic is a floating-point aspect ratio. `Download` returns the file name it would pass.
- index.tsx only mounts the React tree and is not part of this model.
- Content scaling is not modelled because it is floating point turned into CSS strings. This covers `scaleStyle` (ResumePreview.tsx:15-20) and the slider (App.tsx:240-246). `contentScale` is carried as a `real`; no operation of the model changes it.
- The one-second `setTimeout` and the asynchronous wait for the PDF are not modelled (App.tsx:133-137). The download is split into `StartDownload` and `FinishDownload`, and any other event may happen in between.
- The user can still switch views or go home while a download runs, because only the download button is disabled. So "the view is the preview during a download" holds right after `StartDownload`, not as an invariant. `FinishDownload` then restores the remembered view whatever happened in between, as the source does.
- Photo upload through `URL.createObjectURL` (App.tsx:89-95) is a browser call. A photo URL is an opaque optional string, set through `ChangePersonalInfo` with the `PhotoUrl` field.
- Ids from `Date.now()` (App.tsx:110, SortableSectionList.tsx:41) are not modelled. They are parameters, and freshness is a precondition only where a lemma needs unique ids.
- Markup, CSS classes, icons, `TemplateCard`, the Button component and the drag-and-drop library's gestures are not modelled. The library appears only as the `(source, destination)` pair that `DragEnd` receives.
- `primaryColor` has no setter in the editor. It is carried and drawn as the modern accent, and nothing changes it.
- `Section.isVisible` is carried but never read by the preview, as in the source, so hidden sections are drawn too.
- PdfFileName.LowerChar: lower-cases ASCII and Latin-1 upper-case letters only. Full Unicode case mapping (which can change a string's length) is not modelled. The whitespace set is ECMAScript's `\s` in full.
- EditorSession.Editor.UpdateSection: requires the update to keep the section's id and to have distinct item ids. Every section the list's handlers send to `handleUpdateSection` (SortableSectionList.tsx:48, 55, 61, 66) meets this, and the invariant depends on it.
- EditorSession.Editor.AddSection: requires `newId` to be a new section id. The source relies on `Date.now()` producing one.
- EditorSession.Editor.AddItem: requires `itemId` to be new within the section, for the same reason.
- EditorSession.Editor.EditItem: requires the field not to be the id, because the item forms never edit it (SortableSectionList.tsx:143-177).
- EditorSession.Editor.ChangePersonalInfo: the field is one of the eight personal-information fields. The source takes any key string, and only the photo is ever set to `null` (App.tsx:266), which becomes the requirement `value.None? ==> field == PhotoUrl`.
- SectionList.UpdateItem: requires the item index to be in range, as the editor only offers existing items. An out-of-range index in JavaScript would extend the array with holes, and that is not modelled.
- SectionList.DragEnd: requires in-range source and destination indices, which the drag library guarantees.
- Properties of types.ts that hold by construction of the datatypes:
  - exactly one template;
  - exactly one section type;
  - an id on every item, with optional display fields;
  - `linkedin` may be absent and `photoUrl` may be null;
  - one template, colour and scale per document.

  No lemma restates them.
- SectionList.ToggleTwiceRestores: requires that no section, or `id` itself, is open. With another section open, two presses leave nothing open instead (`ToggleTwiceFromOther`).
