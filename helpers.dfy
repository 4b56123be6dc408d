/**
 * src/helpers.ts: the older `NoteTabs`, which writes its list through to the
 * `noteTabs` setting after every change, and `LastActiveNoteQueue`.
 */
module Helpers {
  import opened Common
  import opened TabList
  import opened Host
  import opened Recent
  import Lists

  class NoteTabs {
    /** The tab records in display order. */
    var tabs: seq<Tab>
    /** The host settings the list is persisted to. */
    const settings: SettingStore

    constructor (settings: SettingStore)
      ensures tabs == [] && this.settings == settings
    {
      tabs := [];
      this.settings := settings;
    }

    /** The persisted `noteTabs` setting equals the in-memory list. */
    ghost predicate Stored()
      reads this, settings
    {
      NoteTabsSetting in settings.values && settings.values[NoteTabsSetting] == TabsValue(tabs)
    }

    /** Reads the `noteTabs` setting into the list. */
    method Read()
      requires NoteTabsSetting in settings.values && settings.values[NoteTabsSetting].TabsValue?
      modifies this
      ensures tabs == settings.values[NoteTabsSetting].tabs
      ensures Stored()
    {
      tabs := settings.values[NoteTabsSetting].tabs;
    }

    /** Writes the list back to the `noteTabs` setting. */
    method Store()
      modifies settings
      ensures settings.values == old(settings.values)[NoteTabsSetting := TabsValue(tabs)]
      ensures Stored()
    {
      settings.SetValue(NoteTabsSetting, TabsValue(tabs));
    }

    /** Inserts the tab at the index and stores; a negative index or no tab does nothing. */
    method InsertAtIndex(index: int, tab: Option<Tab>)
      modifies this, settings
      ensures index < 0 || tab.None? ==> tabs == old(tabs) && settings.values == old(settings.values)
      ensures index >= 0 && tab.Some? ==> tabs == Lists.InsertClamped(old(tabs), index, tab.value)
      ensures index >= 0 && tab.Some? ==> settings.values == old(settings.values)[NoteTabsSetting := TabsValue(tabs)]
      ensures old(Stored()) ==> Stored()
    {
      if index < 0 || tab.None? {
        return;
      }
      tabs := Lists.InsertClamped(tabs, index, tab.value);
      Store();
    }

    /**
     * Replaces the tab at the index and stores; a negative index or no tab
     * does nothing. An index past the end appends, as `splice` does.
     */
    method ReplaceAtIndex(index: int, tab: Option<Tab>)
      modifies this, settings
      ensures index < 0 || tab.None? ==> tabs == old(tabs) && settings.values == old(settings.values)
      ensures index >= 0 && tab.Some? ==> tabs == Lists.ReplaceClamped(old(tabs), index, tab.value)
      ensures index >= 0 && tab.Some? ==> settings.values == old(settings.values)[NoteTabsSetting := TabsValue(tabs)]
      ensures old(Stored()) ==> Stored()
    {
      if index < 0 || tab.None? {
        return;
      }
      tabs := Lists.ReplaceClamped(tabs, index, tab.value);
      Store();
    }

    /** Number of tabs. */
    function Length(): (r: nat)
      reads this
      ensures r == |tabs|
    {
      |tabs|
    }

    /** All tabs. */
    function GetAll(): (r: seq<Tab>)
      reads this
      ensures r == tabs
    {
      tabs
    }

    /** The tab at the index, or nothing when the index is out of range. */
    function Get(index: int): (r: Option<Tab>)
      reads this
      ensures r.Some? <==> 0 <= index < |tabs|
      ensures r.Some? ==> r.value == tabs[index]
    {
      if index < 0 || index >= |tabs| then None else Some(tabs[index])
    }

    /** Index of the note's first tab, or -1; nothing for a missing id. */
    method IndexOf(noteId: Option<NoteId>) returns (r: Option<int>)
      ensures noteId.None? <==> r.None?
      ensures noteId.Some? ==> r == Some(IndexOfId(tabs, noteId.value))
    {
      if noteId.None? {
        return None;
      }
      var i := 0;
      while i < |tabs|
        invariant 0 <= i <= |tabs|
        invariant forall j :: 0 <= j < i ==> tabs[j].id != noteId.value
      {
        if tabs[i].id == noteId.value {
          return Some(i);
        }
        i := i + 1;
      }
      return Some(-1);
    }

    /** Index of the first Temporary tab, or -1. */
    method IndexOfTemp() returns (r: int)
      ensures r == TabList.IndexOfTemp(tabs)
    {
      var i := 0;
      while i < |tabs|
        invariant 0 <= i <= |tabs|
        invariant forall j :: 0 <= j < i ==> tabs[j].kind != Temporary
      {
        if tabs[i].kind == Temporary {
          return i;
        }
        i := i + 1;
      }
      return -1;
    }

    /** Whether the note has a tab; nothing for a missing id. */
    method HasTab(noteId: Option<NoteId>) returns (r: Option<bool>)
      ensures noteId.None? <==> r.None?
      ensures noteId.Some? ==> r == Some(HasId(tabs, noteId.value))
    {
      if noteId.None? {
        return None;
      }
      var i := IndexOf(noteId);
      return Some(if i.value < 0 then false else true);
    }

    /** Appends the note as a tab and stores; a missing id does nothing. No duplicate check is made. */
    method Add(noteId: Option<NoteId>, noteType: TabType)
      modifies this, settings
      ensures noteId.None? ==> tabs == old(tabs) && settings.values == old(settings.values)
      ensures noteId.Some? ==> tabs == old(tabs) + [Tab(noteId.value, noteType)]
      ensures noteId.Some? ==> settings.values == old(settings.values)[NoteTabsSetting := TabsValue(tabs)]
      ensures old(Stored()) ==> Stored()
    {
      if noteId.None? {
        return;
      }
      tabs := tabs + [Tab(noteId.value, noteType)];
      Store();
    }

    /** The two steps of a move with both indices in range: delete the source tab by id, then insert it at the target. */
    method MoveInRange(sourceIdx: nat, targetIdx: nat)
      requires sourceIdx < |tabs| && targetIdx < |tabs|
      modifies this, settings
      ensures tabs == MovedWithIndex(old(tabs), sourceIdx, targetIdx)
      ensures settings.values == old(settings.values)[NoteTabsSetting := TabsValue(tabs)]
      ensures Stored()
    {
      ghost var stored := settings.values;
      var tab := tabs[sourceIdx];
      Delete(Some(Get(sourceIdx).value.id));
      ghost var deleted := tabs;
      InsertAtIndex(if targetIdx == 0 then 0 else targetIdx, Some(tab));
      WriteTwice(stored, NoteTabsSetting, TabsValue(deleted), TabsValue(tabs));
    }

    /** Moves the tab at the source index to the target index and stores; out-of-range indices do nothing. */
    method MoveWithIndex(sourceIdx: int, targetIdx: int)
      modifies this, settings
      ensures tabs == MovedWithIndex(old(tabs), sourceIdx, targetIdx)
      ensures 0 <= sourceIdx < |old(tabs)| && 0 <= targetIdx < |old(tabs)| ==>
        settings.values == old(settings.values)[NoteTabsSetting := TabsValue(tabs)]
      ensures !(0 <= sourceIdx < |old(tabs)| && 0 <= targetIdx < |old(tabs)|) ==>
        settings.values == old(settings.values)
      ensures old(Stored()) ==> Stored()
    {
      if sourceIdx < 0 || sourceIdx >= |tabs| {
        return;
      }
      if targetIdx < 0 || targetIdx >= |tabs| {
        return;
      }
      ghost var stored := settings.values;
      MoveInRange(sourceIdx, targetIdx);
      Store();
      WriteTwice(stored, NoteTabsSetting, TabsValue(tabs), TabsValue(tabs));
    }

    /** Moves the source note's tab to the index of the target note's tab; both ids are required. */
    method MoveWithId(sourceId: Option<NoteId>, targetId: Option<NoteId>)
      modifies this, settings
      ensures sourceId.None? || targetId.None? ==> tabs == old(tabs) && settings.values == old(settings.values)
      ensures sourceId.Some? && targetId.Some? ==>
        tabs == MovedWithIndex(old(tabs), IndexOfId(old(tabs), sourceId.value), IndexOfId(old(tabs), targetId.value))
      ensures sourceId.Some? && targetId.Some? && !(HasId(old(tabs), sourceId.value) && HasId(old(tabs), targetId.value)) ==>
        tabs == old(tabs) && settings.values == old(settings.values)
      ensures sourceId.Some? && targetId.Some? && HasId(old(tabs), sourceId.value) && HasId(old(tabs), targetId.value) ==>
        settings.values == old(settings.values)[NoteTabsSetting := TabsValue(tabs)]
      ensures old(Stored()) ==> Stored()
    {
      if targetId.None? || sourceId.None? {
        return;
      }
      var s := IndexOf(sourceId);
      var t := IndexOf(targetId);
      MoveWithIndex(s.value, t.value);
    }

    /** Sets the type of the note's tab and stores; a missing id or no tab does nothing. */
    method ChangeType(noteId: Option<NoteId>, newType: TabType)
      modifies this, settings
      ensures noteId.None? || !HasId(old(tabs), noteId.value) ==>
        tabs == old(tabs) && settings.values == old(settings.values)
      ensures noteId.Some? && HasId(old(tabs), noteId.value) ==>
        tabs == TypeChanged(old(tabs), noteId.value, newType) &&
        settings.values == old(settings.values)[NoteTabsSetting := TabsValue(tabs)]
      ensures old(Stored()) ==> Stored()
    {
      var has := HasTab(noteId);
      if has.None? || !has.value {
        return;
      }
      var index := IndexOf(noteId);
      tabs := tabs[index.value := tabs[index.value].(kind := newType)];
      Store();
    }

    /** Gives the temporary tab the note's id and stores; a missing id or no temporary tab does nothing. */
    method ReplaceTemp(noteId: Option<NoteId>)
      modifies this, settings
      ensures noteId.None? || TabList.IndexOfTemp(old(tabs)) < 0 ==>
        tabs == old(tabs) && settings.values == old(settings.values)
      ensures noteId.Some? && TabList.IndexOfTemp(old(tabs)) >= 0 ==>
        tabs == TempReplaced(old(tabs), noteId.value) &&
        settings.values == old(settings.values)[NoteTabsSetting := TabsValue(tabs)]
      ensures old(Stored()) ==> Stored()
    {
      if noteId.None? {
        return;
      }
      var tempIdx := IndexOfTemp();
      if tempIdx >= 0 {
        tabs := tabs[tempIdx := tabs[tempIdx].(id := noteId.value)];
        Store();
      }
    }

    /** Removes the note's first tab, if any, and stores in either case; a missing id does nothing. */
    method Delete(noteId: Option<NoteId>)
      modifies this, settings
      ensures noteId.None? ==> tabs == old(tabs) && settings.values == old(settings.values)
      ensures noteId.Some? ==> tabs == Deleted(old(tabs), noteId.value)
      ensures noteId.Some? ==> settings.values == old(settings.values)[NoteTabsSetting := TabsValue(tabs)]
      ensures old(Stored()) ==> Stored()
    {
      if noteId.None? {
        return;
      }
      var has := HasTab(noteId);
      if has.value {
        var index := IndexOf(noteId);
        tabs := Lists.RemoveAt(tabs, index.value);
      }
      Store();
    }

    /** Empties the list and stores. */
    method ClearAll()
      modifies this, settings
      ensures tabs == []
      ensures settings.values == old(settings.values)[NoteTabsSetting := TabsValue([])]
      ensures Stored()
    {
      tabs := [];
      Store();
    }
  }

  /** A fresh `NoteTabs` reading the persisted setting gets back exactly the stored list, in order. */
  method Reload(current: NoteTabs) returns (reloaded: NoteTabs)
    requires current.Stored()
    ensures reloaded.tabs == current.tabs
  {
    reloaded := new NoteTabs(current.settings);
    reloaded.Read();
  }

  /** Queue of the last active note ids: at most two, last active at index 0, current at index 1. */
  class LastActiveNoteQueue {
    var store: seq<NoteId>

    ghost predicate Valid()
      reads this
    {
      |store| <= 2
    }

    constructor ()
      ensures Valid() && store == []
    {
      store := [];
    }

    /** Pushes the id: when full, a repeat of the current id is ignored, otherwise the oldest is dropped. */
    method Push(id: NoteId)
      requires Valid()
      modifies this
      ensures Valid()
      ensures store == Pushed(old(store), id)
    {
      if |store| == 2 {
        if store[1] == id {
          return;
        }
        store := store[1..];
      }
      store := store + [id];
    }

    /** Removes and returns the oldest id; an empty queue returns nothing and stays empty. */
    method Pop() returns (r: Option<NoteId>)
      requires Valid()
      modifies this
      ensures Valid()
      ensures (r, store) == Shifted(old(store))
    {
      if store == [] {
        r := None;
      } else {
        r := Some(store[0]);
        store := store[1..];
      }
    }

    /** Number of stored ids. */
    function Length(): (r: nat)
      reads this
      requires Valid()
      ensures r == |store| && r <= 2
    {
      |store|
    }
  }
}
