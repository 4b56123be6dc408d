/**
 * The in-memory tab collection of the current plugin version: an ordered list
 * of `{ id, type }` records that the plugin changes in place.
 */
module NoteTabs {
  import opened Common
  import opened TabList
  import Lists

  class NoteTabs {
    /** The tab records in display order. */
    var tabs: seq<Tab>

    /** Starts from the tab array read from the settings. */
    constructor (noteTabs: seq<Tab>)
      ensures tabs == noteTabs
    {
      tabs := noteTabs;
    }

    /** All note tabs. */
    function All(): (r: seq<Tab>)
      reads this
      ensures r == tabs
    {
      tabs
    }

    /** Number of tabs. */
    function Length(): (r: nat)
      reads this
      ensures r == |tabs|
    {
      |tabs|
    }

    /** Index of the first Temporary tab, or -1. */
    function IndexOfTemp(): (r: int)
      reads this
      ensures -1 <= r < |tabs|
      ensures r >= 0 ==> tabs[r].kind == Temporary && forall j :: 0 <= j < r ==> tabs[j].kind != Temporary
      ensures r == -1 <==> forall j :: 0 <= j < |tabs| ==> tabs[j].kind != Temporary
    {
      TabList.IndexOfTemp(tabs)
    }

    /** Inserts the tab at the index, unless the index is negative or there is no tab. */
    method InsertAtIndex(index: int, tab: Option<Tab>)
      modifies this
      ensures index < 0 || tab.None? ==> tabs == old(tabs)
      ensures index >= 0 && tab.Some? ==> tabs == Lists.InsertClamped(old(tabs), index, tab.value)
    {
      if index < 0 || tab.None? {
        return;
      }
      tabs := Lists.InsertClamped(tabs, index, tab.value);
    }

    /** The tab at the index, or nothing when the index is out of range. */
    function Get(index: int): (r: Option<Tab>)
      reads this
      ensures r.Some? <==> 0 <= index < |tabs|
      ensures r.Some? ==> r.value == tabs[index]
    {
      if index < 0 || index >= |tabs| then None else Some(tabs[index])
    }

    /** Index of the first tab of the note, or -1. */
    function IndexOf(noteId: NoteId): (r: int)
      reads this
      ensures -1 <= r < |tabs|
      ensures r >= 0 ==> tabs[r].id == noteId && forall j :: 0 <= j < r ==> tabs[j].id != noteId
      ensures r == -1 <==> !HasId(tabs, noteId)
    {
      IndexOfId(tabs, noteId)
    }

    /** Whether the note has a tab: `find` returns a record. */
    function HasTab(noteId: NoteId): (r: bool)
      reads this
      ensures r <==> IndexOf(noteId) >= 0
      ensures r <==> HasId(tabs, noteId)
    {
      Lists.Find(tabs, (t: Tab) => t.id == noteId).Some?
    }

    /**
     * Adds the note as a new tab: at the end, or, with a truthy target id,
     * before the target's tab (nothing is added when the target is unknown).
     * A missing id or type adds nothing.
     */
    method Add(noteId: Option<NoteId>, noteType: Option<TabType>, targetId: Option<NoteId>)
      modifies this
      ensures noteId.None? || noteType.None? ==> tabs == old(tabs)
      ensures noteId.Some? && noteType.Some? && !Truthy(targetId) ==>
        tabs == old(tabs) + [Tab(noteId.value, noteType.value)]
      ensures noteId.Some? && noteType.Some? && Truthy(targetId) ==>
        tabs == InsertedBefore(old(tabs), Tab(noteId.value, noteType.value), targetId.value)
    {
      if noteId.None? || noteType.None? {
        return;
      }
      var newTab := Tab(noteId.value, noteType.value);
      if Truthy(targetId) {
        InsertAtIndex(IndexOf(targetId.value), Some(newTab));
      } else {
        tabs := tabs + [newTab];
      }
    }

    /** Moves the tab at the source index to the target index; out-of-range indices do nothing. */
    method MoveWithIndex(sourceIdx: int, targetIdx: int)
      modifies this
      ensures tabs == MovedWithIndex(old(tabs), sourceIdx, targetIdx)
    {
      if sourceIdx < 0 || sourceIdx >= |tabs| {
        return;
      }
      if targetIdx < 0 || targetIdx >= |tabs| {
        return;
      }
      var tab := tabs[sourceIdx];
      Delete(Get(sourceIdx).value.id);
      InsertAtIndex(if targetIdx == 0 then 0 else targetIdx, Some(tab));
    }

    /**
     * Moves the source note's tab to the index of the target note's tab, or
     * to the last index when the target id is not truthy.
     */
    method MoveWithId(sourceId: NoteId, targetId: Option<NoteId>)
      modifies this
      ensures tabs == MovedWithIndex(old(tabs), IndexOfId(old(tabs), sourceId),
                                     if Truthy(targetId) then IndexOfId(old(tabs), targetId.value) else |old(tabs)| - 1)
    {
      var targetIdx := if Truthy(targetId) then IndexOf(targetId.value) else Length() - 1;
      MoveWithIndex(IndexOf(sourceId), targetIdx);
    }

    /** Sets the type of the note's tab; no tab, no change. */
    method ChangeType(noteId: NoteId, newType: TabType)
      modifies this
      ensures tabs == TypeChanged(old(tabs), noteId, newType)
    {
      var index := IndexOf(noteId);
      if index >= 0 {
        tabs := tabs[index := tabs[index].(kind := newType)];
      }
    }

    /** Gives the temporary tab the note's id; a missing id or no temporary tab changes nothing. */
    method ReplaceTemp(noteId: Option<NoteId>)
      modifies this
      ensures noteId.None? ==> tabs == old(tabs)
      ensures noteId.Some? ==> tabs == TempReplaced(old(tabs), noteId.value)
    {
      if noteId.None? {
        return;
      }
      var tempIdx := IndexOfTemp();
      if tempIdx >= 0 {
        tabs := tabs[tempIdx := tabs[tempIdx].(id := noteId.value)];
      }
    }

    /** Removes the note's first tab; an unknown note changes nothing. */
    method Delete(noteId: NoteId)
      modifies this
      ensures tabs == Deleted(old(tabs), noteId)
    {
      var index := IndexOf(noteId);
      if index >= 0 {
        tabs := Lists.RemoveAt(tabs, index);
      }
    }

    /** Empties the tab list. */
    method ClearAll()
      modifies this
      ensures tabs == []
    {
      tabs := [];
    }
  }

  /**
   * `moveWithId(source)` without a target moves the source tab to the last
   * position (ids unique); an unknown source id changes nothing.
   */
  lemma MoveWithIdToEnd(tabs: seq<Tab>, sourceId: NoteId)
    requires UniqueIds(tabs)
    ensures !HasId(tabs, sourceId) ==> MovedWithIndex(tabs, IndexOfId(tabs, sourceId), |tabs| - 1) == tabs
    ensures HasId(tabs, sourceId) ==>
      var r := MovedWithIndex(tabs, IndexOfId(tabs, sourceId), |tabs| - 1);
      |r| == |tabs| && r[|r| - 1].id == sourceId && multiset(r) == multiset(tabs)
  {
    if HasId(tabs, sourceId) {
      MovedWithIndexPermutes(tabs, IndexOfId(tabs, sourceId), |tabs| - 1);
    }
  }

  /** `add(id, type)` with a fresh id and no target makes `hasTab(id)` hold and `indexOf(id)` the last index. */
  method AddThenFind(t: NoteTabs, id: NoteId, kind: TabType)
    requires !HasId(t.tabs, id)
    modifies t
    ensures t.HasTab(id) && t.IndexOf(id) == t.Length() - 1
  {
    AppendedIndexOf(t.tabs, Tab(id, kind));
    t.Add(Some(id), Some(kind), None);
  }
}
