/**
 * The list logic of the older entry point: the pinned-notes setting (an
 * array of `{id, title}` records), its linear-search helpers, the
 * `pinNote`, `unpinNote` and `clearTabs` command bodies, and the choice of
 * tabs that `updateTabsPanel` renders. The note the host reports as
 * selected and the ids the commands resolve are parameters.
 */
module PinnedNotes {
  import opened Common
  import opened Lists

  /** One entry of the `pinnedNotes` setting. */
  datatype PinnedNote = PinnedNote(id: string, title: string)

  /** The note the workspace reports as selected. */
  datatype Note = Note(id: string, title: string)

  /** The attribute names the search helpers are called with. */
  datatype Attr = IdAttr | TitleAttr

  /** `note[attr]`. */
  function AttrOf(note: PinnedNote, attr: Attr): string
  {
    match attr
    case IdAttr => note.id
    case TitleAttr => note.title
  }

  /** The index `getIndexWithAttr` finds: the first entry whose `attr` equals `value`, or -1. */
  function IndexWithAttr(notes: seq<PinnedNote>, attr: Attr, value: string): (r: int)
    ensures -1 <= r < |notes|
    ensures r >= 0 ==> AttrOf(notes[r], attr) == value && forall j :: 0 <= j < r ==> AttrOf(notes[j], attr) != value
    ensures r == -1 <==> forall j :: 0 <= j < |notes| ==> AttrOf(notes[j], attr) != value
  {
    FirstIndex(notes, (n: PinnedNote) => AttrOf(n, attr) == value)
  }

  /** Some entry has id `id`. */
  predicate HasNoteId(notes: seq<PinnedNote>, id: string)
  {
    exists k :: 0 <= k < |notes| && notes[k].id == id
  }

  /** No two entries share an id. */
  predicate UniqueNoteIds(notes: seq<PinnedNote>)
  {
    forall i, j :: 0 <= i < j < |notes| ==> notes[i].id != notes[j].id
  }

  /** `getIndexWithAttr(array, attr, value)`: a counting loop with early return. */
  method GetIndexWithAttr(notes: seq<PinnedNote>, attr: Attr, value: string) returns (r: int)
    ensures r == IndexWithAttr(notes, attr, value)
    ensures r >= 0 ==> AttrOf(notes[r], attr) == value && forall j :: 0 <= j < r ==> AttrOf(notes[j], attr) != value
    ensures r == -1 <==> forall j :: 0 <= j < |notes| ==> AttrOf(notes[j], attr) != value
  {
    var i := 0;
    while i < |notes|
      invariant 0 <= i <= |notes|
      invariant forall j :: 0 <= j < i ==> AttrOf(notes[j], attr) != value
    {
      if AttrOf(notes[i], attr) == value {
        return i;
      }
      i := i + 1;
    }
    return -1;
  }

  /** `getItemWithAttr(array, attr, value)`: the entry `getIndexWithAttr` would find; nothing stands for its -1. */
  method GetItemWithAttr(notes: seq<PinnedNote>, attr: Attr, value: string) returns (r: Option<PinnedNote>)
    ensures r.None? <==> IndexWithAttr(notes, attr, value) == -1
    ensures r.Some? ==> r.value == notes[IndexWithAttr(notes, attr, value)]
    ensures r.Some? ==> AttrOf(r.value, attr) == value
  {
    var i := 0;
    while i < |notes|
      invariant 0 <= i <= |notes|
      invariant forall j :: 0 <= j < i ==> AttrOf(notes[j], attr) != value
    {
      if AttrOf(notes[i], attr) == value {
        return Some(notes[i]);
      }
      i := i + 1;
    }
    return None;
  }

  // ---------------------------------------------------------------------
  // The commands' list updates

  /** `pinNote`'s update: the pinned list unchanged if the id is already pinned, otherwise with `{id, title}` pushed. */
  function Pinned(notes: seq<PinnedNote>, id: string, title: string): seq<PinnedNote>
  {
    if IndexWithAttr(notes, IdAttr, id) != -1 then notes else notes + [PinnedNote(id, title)]
  }

  /** `unpinNote`'s update: the entry found by id spliced out, or the list unchanged. */
  function Unpinned(notes: seq<PinnedNote>, id: string): seq<PinnedNote>
  {
    var i := IndexWithAttr(notes, IdAttr, id);
    if i == -1 then notes else RemoveAt(notes, i)
  }

  /** Pinning an already pinned note changes nothing; pinning a new one appends it after the untouched entries. */
  lemma PinnedSpec(notes: seq<PinnedNote>, id: string, title: string)
    ensures HasNoteId(notes, id) ==> Pinned(notes, id, title) == notes
    ensures !HasNoteId(notes, id) ==> Pinned(notes, id, title) == notes + [PinnedNote(id, title)]
    ensures HasNoteId(Pinned(notes, id, title), id)
  {
    var r := Pinned(notes, id, title);
    if !HasNoteId(notes, id) {
      assert r[|notes|].id == id;
    } else {
      var k :| 0 <= k < |notes| && notes[k].id == id;
      assert AttrOf(notes[k], IdAttr) == id;
    }
  }

  /** Unpinning an absent id changes nothing; otherwise exactly the first entry with the id goes and the rest keep their order. */
  lemma UnpinnedSpec(notes: seq<PinnedNote>, id: string)
    ensures !HasNoteId(notes, id) ==> Unpinned(notes, id) == notes
    ensures HasNoteId(notes, id) ==>
      exists i :: 0 <= i < |notes| && notes[i].id == id && (forall j :: 0 <= j < i ==> notes[j].id != id) &&
        Unpinned(notes, id) == notes[..i] + notes[i + 1..]
  {
    var i := IndexWithAttr(notes, IdAttr, id);
    if HasNoteId(notes, id) {
      var k :| 0 <= k < |notes| && notes[k].id == id;
      assert AttrOf(notes[k], IdAttr) == id;
      assert i >= 0;
      assert forall j :: 0 <= j < i ==> notes[j].id != id by {
        forall j | 0 <= j < i ensures notes[j].id != id {
          assert AttrOf(notes[j], IdAttr) != id;
        }
      }
    }
  }

  /** Pinning keeps the ids unique. */
  lemma PinKeepsUnique(notes: seq<PinnedNote>, id: string, title: string)
    requires UniqueNoteIds(notes)
    ensures UniqueNoteIds(Pinned(notes, id, title))
  {
    PinnedSpec(notes, id, title);
    if !HasNoteId(notes, id) {
      var r := notes + [PinnedNote(id, title)];
      forall i, j | 0 <= i < j < |r| ensures r[i].id != r[j].id {
        if j == |notes| {
          assert r[i] == notes[i];
        }
      }
    }
  }

  /** Unpinning keeps the ids unique, and the unpinned id is then no longer in the list. */
  lemma UnpinKeepsUnique(notes: seq<PinnedNote>, id: string)
    requires UniqueNoteIds(notes)
    ensures UniqueNoteIds(Unpinned(notes, id))
    ensures !HasNoteId(Unpinned(notes, id), id)
  {
    var i := IndexWithAttr(notes, IdAttr, id);
    if i != -1 {
      var r := RemoveAt(notes, i);
      forall a, b | 0 <= a < b < |r| ensures r[a].id != r[b].id {
        var a' := if a < i then a else a + 1;
        var b' := if b < i then b else b + 1;
        assert r[a] == notes[a'] && r[b] == notes[b'];
      }
    }
  }

  /** Unpinning a note just pinned restores the list it was pinned to. */
  lemma UnpinAfterPin(notes: seq<PinnedNote>, id: string, title: string)
    requires !HasNoteId(notes, id)
    ensures Unpinned(Pinned(notes, id, title), id) == notes
  {
    PinnedSpec(notes, id, title);
    var p := notes + [PinnedNote(id, title)];
    var i := IndexWithAttr(p, IdAttr, id);
    assert AttrOf(p[|notes|], IdAttr) == id;
    assert i == |notes|;
    assert p[..|notes|] == notes;
  }

  /** Pinning twice with the same id is pinning once. */
  lemma PinIdempotent(notes: seq<PinnedNote>, id: string, title: string, title': string)
    ensures Pinned(Pinned(notes, id, title), id, title') == Pinned(notes, id, title)
  {
    PinnedSpec(notes, id, title);
    PinnedSpec(Pinned(notes, id, title), id, title');
  }

  /** The `pinnedNotes` setting, which the commands read, update and write back. */
  class PinnedNotesStore {
    var notes: seq<PinnedNote>

    constructor ()
      ensures notes == []
    {
      notes := [];
    }

    /**
     * `pinNote` once the id and title are resolved (nothing stands for
     * null): returns without a change when either is missing or the id is
     * already pinned, otherwise pushes the note.
     */
    method PinNote(noteId: Option<string>, noteTitle: Option<string>)
      modifies this
      ensures noteId.None? || noteTitle.None? ==> notes == old(notes)
      ensures noteId.Some? && noteTitle.Some? ==> notes == Pinned(old(notes), noteId.value, noteTitle.value)
    {
      if noteId.None? {
        return;
      }
      if noteTitle.None? {
        return;
      }
      var note := GetIndexWithAttr(notes, IdAttr, noteId.value);
      if note != -1 {
        return;
      }
      notes := notes + [PinnedNote(noteId.value, noteTitle.value)];
    }

    /** `unpinNote` once the id is resolved: splices out the entry with that id, if any. */
    method UnpinNote(noteId: Option<string>)
      modifies this
      ensures noteId.None? ==> notes == old(notes)
      ensures noteId.Some? ==> notes == Unpinned(old(notes), noteId.value)
    {
      if noteId.None? {
        return;
      }
      var index := GetIndexWithAttr(notes, IdAttr, noteId.value);
      if index == -1 {
        return;
      }
      notes := RemoveAt(notes, index);
    }

    /** `clearTabs`: stores an empty list. */
    method ClearTabs()
      modifies this
      ensures notes == []
    {
      notes := [];
    }
  }

  // ---------------------------------------------------------------------
  // The tabs `updateTabsPanel` renders

  /** One rendered tab: the note's id and title, the `active` class, and whether it is the unpinned "new" tab. */
  datatype PanelTab = PanelTab(id: string, title: string, active: bool, isNew: bool)

  /** The tabs to render: one per pinned note in order, active when it is the selected note, then the selected note as a "new" tab when no pinned note is it. */
  function ShownTabs(pinned: seq<PinnedNote>, selected: Note): seq<PanelTab>
  {
    seq(|pinned|, k requires 0 <= k < |pinned| => PanelTab(pinned[k].id, pinned[k].title, pinned[k].id == selected.id, false))
    + (if HasNoteId(pinned, selected.id) then [] else [PanelTab(selected.id, selected.title, true, true)])
  }

  /**
   * The loop of `updateTabsPanel` that builds the tabs. Without a selected
   * note, reading its id fails, which is modelled as no result.
   */
  method TabsToShow(pinned: seq<PinnedNote>, selected: Option<Note>) returns (r: Option<seq<PanelTab>>)
    ensures r.None? <==> selected.None?
    ensures r.Some? ==> r.value == ShownTabs(pinned, selected.value)
  {
    if selected.None? {
      return None;
    }
    var note := selected.value;
    var tabs: seq<PanelTab> := [];
    var selectedNoteIsNew := true;
    var i := 0;
    while i < |pinned|
      invariant 0 <= i <= |pinned| && |tabs| == i
      invariant forall k :: 0 <= k < i ==>
        tabs[k] == PanelTab(pinned[k].id, pinned[k].title, pinned[k].id == note.id, false)
      invariant selectedNoteIsNew <==> forall k :: 0 <= k < i ==> pinned[k].id != note.id
    {
      var active := false;
      if pinned[i].id == note.id {
        selectedNoteIsNew := false;
        active := true;
      }
      tabs := tabs + [PanelTab(pinned[i].id, pinned[i].title, active, false)];
      i := i + 1;
    }
    if selectedNoteIsNew {
      tabs := tabs + [PanelTab(note.id, note.title, true, true)];
    }
    return Some(tabs);
  }

  /**
   * The rendered tabs: one per pinned note, in order, active exactly when
   * its id is the selected id, followed by a "new" tab exactly when no
   * pinned note is the selected one.
   */
  lemma ShownTabsSpec(pinned: seq<PinnedNote>, selected: Note)
    ensures var t := ShownTabs(pinned, selected);
      && |t| == |pinned| + (if HasNoteId(pinned, selected.id) then 0 else 1)
      && (forall k :: 0 <= k < |pinned| ==>
            t[k].id == pinned[k].id && t[k].title == pinned[k].title && !t[k].isNew &&
            (t[k].active <==> pinned[k].id == selected.id))
      && (!HasNoteId(pinned, selected.id) ==> t[|pinned|] == PanelTab(selected.id, selected.title, true, true))
  {
  }

  /** With unique pinned ids exactly one rendered tab is active. */
  lemma ExactlyOneActive(pinned: seq<PinnedNote>, selected: Note)
    requires UniqueNoteIds(pinned)
    ensures var t := ShownTabs(pinned, selected);
      exists a :: 0 <= a < |t| && t[a].active && forall b :: 0 <= b < |t| && t[b].active ==> b == a
  {
    var t := ShownTabs(pinned, selected);
    if HasNoteId(pinned, selected.id) {
      var a :| 0 <= a < |pinned| && pinned[a].id == selected.id;
      assert t[a].active;
      forall b | 0 <= b < |t| && t[b].active ensures b == a {
        assert pinned[b].id == selected.id;
      }
    } else {
      var a := |pinned|;
      assert t[a].active;
      forall b | 0 <= b < |t| && t[b].active ensures b == a {
      }
    }
  }
}
