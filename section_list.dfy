/** The section editor list (SortableSectionList.tsx): drag-and-drop reordering, the
    expand/collapse toggle and the item handlers that hand an updated section back to
    the document through `onUpdateSection`. */
module SectionList {
  import opened ResumeTypes
  import opened Seqs

  /** What a handler passes to `onUpdateSection`: the id to replace and its new section. */
  datatype SectionUpdate = SectionUpdate(id: string, section: Section)

  /** `keyof SectionItem`. */
  datatype ItemField = Id | Title | Subtitle | Date | Description

  function FieldOf(item: SectionItem, field: ItemField): Option<string> {
    match field
    case Id => Some(item.id)
    case Title => item.title
    case Subtitle => item.subtitle
    case Date => item.date
    case Description => item.description
  }

  /** `{ ...item, [field]: value }`: the named field becomes `value` and no other field changes. */
  function WithField(item: SectionItem, field: ItemField, value: string): (r: SectionItem)
    ensures FieldOf(r, field) == Some(value)
    ensures forall f :: f != field ==> FieldOf(r, f) == FieldOf(item, f)
  {
    match field
    case Id => item.(id := value)
    case Title => item.(title := Some(value))
    case Subtitle => item.(subtitle := Some(value))
    case Date => item.(date := Some(value))
    case Description => item.(description := Some(value))
  }

  /** `handleDragEnd` (SortableSectionList.tsx:24-32). The drag library reports the source
      index and, unless the drop was cancelled, a destination index; both lie within the
      list. A cancelled drop reports nothing. Otherwise the sections are copied into a
      fresh array (the caller's list is a value and stays as it was), the dragged section
      is spliced out and spliced back in at the destination, and the copy is reported. */
  method DragEnd(sections: seq<Section>, source: nat, destination: Option<nat>)
    returns (reordered: Option<seq<Section>>)
    requires source < |sections|
    requires destination.Some? ==> destination.value < |sections|
    ensures destination.None? <==> reordered.None?
    ensures destination.Some? ==> reordered == Some(Move(sections, source, destination.value))
  {
    if destination.None? {
      return None;
    }
    var to := destination.value;
    var items := new Section[|sections|](i requires 0 <= i < |sections| => sections[i]);
    assert items[..] == sections;
    var moved := items[source];
    SpliceOut(items, source);
    SpliceIn(items, items.Length - 1, to, moved);
    assert items[..] == items[..items.Length];
    return Some(items[..]);
  }

  /** `handleAddItemToSection` (SortableSectionList.tsx:38-49): appends one item whose four
      display fields are empty strings; `newId` stands for `Date.now().toString()`. */
  function AddItemToSection(sections: seq<Section>, sectionIndex: nat, newId: string): (u: SectionUpdate)
    requires sectionIndex < |sections|
    ensures u.id == sections[sectionIndex].id
    ensures u.section == sections[sectionIndex].(items := u.section.items)
    ensures |u.section.items| == |sections[sectionIndex].items| + 1
    ensures u.section.items[..|sections[sectionIndex].items|] == sections[sectionIndex].items
    ensures var added := u.section.items[|sections[sectionIndex].items|];
      added.id == newId && forall f :: f != Id ==> FieldOf(added, f) == Some("")
  {
    var section := sections[sectionIndex];
    var newItem := SectionItem(newId, Some(""), Some(""), Some(""), Some(""));
    SectionUpdate(section.id, section.(items := section.items + [newItem]))
  }

  /** `handleUpdateItem` (SortableSectionList.tsx:51-56): the items are copied into a fresh
      array and the item at `itemIndex` is replaced by a copy with `field` set to `value`.
      The editor only offers indices of existing items. */
  method UpdateItem(sections: seq<Section>, sectionIndex: nat, itemIndex: nat, field: ItemField, value: string)
    returns (u: SectionUpdate)
    requires sectionIndex < |sections|
    requires itemIndex < |sections[sectionIndex].items|
    ensures u.id == sections[sectionIndex].id
    ensures u.section == sections[sectionIndex].(items := u.section.items)
    ensures |u.section.items| == |sections[sectionIndex].items|
    ensures forall k :: 0 <= k < |u.section.items| && k != itemIndex ==> u.section.items[k] == sections[sectionIndex].items[k]
    ensures FieldOf(u.section.items[itemIndex], field) == Some(value)
    ensures forall f :: f != field ==> FieldOf(u.section.items[itemIndex], f) == FieldOf(sections[sectionIndex].items[itemIndex], f)
    ensures field != Id && UniqueItemIds(sections[sectionIndex].items) ==> UniqueItemIds(u.section.items)
  {
    var section := sections[sectionIndex];
    var newItems := new SectionItem[|section.items|](k requires 0 <= k < |section.items| => section.items[k]);
    newItems[itemIndex] := WithField(newItems[itemIndex], field, value);
    u := SectionUpdate(section.id, section.(items := newItems[..]));
  }

  /** `filter((_, idx) => idx !== itemIndex)`: every element except the one at `index`. */
  function WithoutIndex<T>(s: seq<T>, index: int): (r: seq<T>)
    ensures 0 <= index < |s| ==> r == s[..index] + s[index + 1..]
    ensures !(0 <= index < |s|) ==> r == s
  {
    if s == [] then [] else (if index == 0 then [] else [s[0]]) + WithoutIndex(s[1..], index - 1)
  }

  /** `handleRemoveItem` (SortableSectionList.tsx:58-62): drops the item at `itemIndex`,
      keeping the others in order; an index that names no item removes nothing. */
  function RemoveItem(sections: seq<Section>, sectionIndex: nat, itemIndex: int): (u: SectionUpdate)
    requires sectionIndex < |sections|
    ensures u.id == sections[sectionIndex].id
    ensures u.section == sections[sectionIndex].(items := u.section.items)
    ensures var items := sections[sectionIndex].items;
      if 0 <= itemIndex < |items|
      then |u.section.items| == |items| - 1 && u.section.items == RemoveAt(items, itemIndex)
      else u.section.items == items
  {
    var section := sections[sectionIndex];
    SectionUpdate(section.id, section.(items := WithoutIndex(section.items, itemIndex)))
  }

  /** `handleTitleChange` (SortableSectionList.tsx:64-67): only the title changes. */
  function TitleChange(sections: seq<Section>, sectionIndex: nat, newTitle: string): (u: SectionUpdate)
    requires sectionIndex < |sections|
    ensures u.id == sections[sectionIndex].id
    ensures u.section.title == newTitle
    ensures u.section.(title := sections[sectionIndex].title) == sections[sectionIndex]
    ensures UniqueItemIds(sections[sectionIndex].items) ==> UniqueItemIds(u.section.items)
  {
    var section := sections[sectionIndex];
    SectionUpdate(section.id, section.(title := newTitle))
  }

  /** The next value of `expandedSection` when the edit button of section `id` is pressed. */
  function Toggled(expanded: Option<string>, id: string): Option<string> {
    if expanded == Some(id) then None else Some(id)
  }

  /** Pressing the button flips whether section `id` is open. */
  lemma ToggleFlips(expanded: Option<string>, id: string)
    ensures (Toggled(expanded, id) == Some(id)) <==> (expanded != Some(id))
  {
  }

  /** From the collapsed state, or with `id` itself open, pressing twice restores the state. */
  lemma ToggleTwiceRestores(expanded: Option<string>, id: string)
    requires expanded == None || expanded == Some(id)
    ensures Toggled(Toggled(expanded, id), id) == expanded
  {
  }

  /** With another section open, pressing twice collapses everything instead: the first
      press opens `id` in place of the other one. */
  lemma ToggleTwiceFromOther(other: string, id: string)
    requires other != id
    ensures Toggled(Some(other), id) == Some(id)
    ensures Toggled(Toggled(Some(other), id), id) == None
  {
  }

  /** The component state of the list: at most one section open for editing. */
  class ExpandState {
    var expanded: Option<string>

    constructor ()
      ensures expanded == None
    {
      expanded := None;
    }

    /** `toggleExpand` (SortableSectionList.tsx:34-36). */
    method ToggleExpand(id: string)
      modifies this
      ensures expanded == Toggled(old(expanded), id)
      ensures expanded == None <==> old(expanded) == Some(id)
    {
      expanded := Toggled(expanded, id);
    }
  }
}
