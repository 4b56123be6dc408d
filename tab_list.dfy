/**
 * Tab records and the list operations both `NoteTabs` classes perform on
 * them, stated once as functions on `seq<Tab>`, with the properties the
 * plugin relies on proved as lemmas.
 */
module TabList {
  import opened Common
  import Lists

  /** Note identifiers are opaque strings owned by the note application. */
  type NoteId = string

  /** `NoteTabType`: Temporary = 1, Open = 2 (unused), Pinned = 3. */
  datatype TabType = Temporary | Open | Pinned

  /** One tab record `{ id, type }`; the record's `type` field is called `kind` here. */
  datatype Tab = Tab(id: NoteId, kind: TabType)

  /** True when some record has the id. */
  predicate HasId(tabs: seq<Tab>, id: NoteId)
  {
    exists i :: 0 <= i < |tabs| && tabs[i].id == id
  }

  /** No two records share an id. */
  predicate UniqueIds(tabs: seq<Tab>)
  {
    forall i, j :: 0 <= i < j < |tabs| ==> tabs[i].id != tabs[j].id
  }

  /** At most one record is Temporary. */
  predicate AtMostOneTemp(tabs: seq<Tab>)
  {
    forall i, j :: 0 <= i < j < |tabs| && tabs[i].kind == Temporary ==> tabs[j].kind != Temporary
  }

  /** `tabs.findIndex(x => x.id === id)`. */
  function IndexOfId(tabs: seq<Tab>, id: NoteId): (r: int)
    ensures -1 <= r < |tabs|
    ensures r >= 0 ==> tabs[r].id == id && forall j :: 0 <= j < r ==> tabs[j].id != id
    ensures r == -1 <==> !HasId(tabs, id)
  {
    Lists.FirstIndex(tabs, (t: Tab) => t.id == id)
  }

  /** `tabs.findIndex(x => x.type === NoteTabType.Temporary)`. */
  function IndexOfTemp(tabs: seq<Tab>): (r: int)
    ensures -1 <= r < |tabs|
    ensures r >= 0 ==> tabs[r].kind == Temporary && forall j :: 0 <= j < r ==> tabs[j].kind != Temporary
    ensures r == -1 <==> forall j :: 0 <= j < |tabs| ==> tabs[j].kind != Temporary
  {
    Lists.FirstIndex(tabs, (t: Tab) => t.kind == Temporary)
  }

  /** Removal of the first record with the id, if there is one. */
  function Deleted(tabs: seq<Tab>, id: NoteId): seq<Tab>
  {
    var i := IndexOfId(tabs, id);
    if i >= 0 then Lists.RemoveAt(tabs, i) else tabs
  }

  /** Insertion of `tab` at the index of the first record with id `target`, if there is one. */
  function InsertedBefore(tabs: seq<Tab>, tab: Tab, target: NoteId): seq<Tab>
  {
    var i := IndexOfId(tabs, target);
    if i >= 0 then Lists.InsertAt(tabs, i, tab) else tabs
  }

  /** The type of the first record with the id set to `t`, if there is one. */
  function TypeChanged(tabs: seq<Tab>, id: NoteId, t: TabType): seq<Tab>
  {
    var i := IndexOfId(tabs, id);
    if i >= 0 then tabs[i := tabs[i].(kind := t)] else tabs
  }

  /** The id of the first Temporary record set to `id`, if there is one. */
  function TempReplaced(tabs: seq<Tab>, id: NoteId): seq<Tab>
  {
    var i := IndexOfTemp(tabs);
    if i >= 0 then tabs[i := tabs[i].(id := id)] else tabs
  }

  /**
   * `moveWithIndex(s, t)` as the plugin writes it: with both indices in range,
   * delete the first record that has the id of the record at `s`, then insert
   * the record taken from `s` at `t`.
   */
  function MovedWithIndex(tabs: seq<Tab>, s: int, t: int): seq<Tab>
  {
    if s < 0 || s >= |tabs| || t < 0 || t >= |tabs| then tabs
    else Lists.InsertClamped(Deleted(tabs, tabs[s].id), t, tabs[s])
  }

  // ---------------------------------------------------------------------
  // Lookup

  /** With unique ids, the record at `i` is the first one with its id. */
  lemma UniqueIndexOf(tabs: seq<Tab>, i: nat)
    requires UniqueIds(tabs) && i < |tabs|
    ensures IndexOfId(tabs, tabs[i].id) == i
  {
  }

  /** Appending a record with a fresh id makes it findable at the last index. */
  lemma AppendedIndexOf(tabs: seq<Tab>, tab: Tab)
    requires !HasId(tabs, tab.id)
    ensures HasId(tabs + [tab], tab.id)
    ensures IndexOfId(tabs + [tab], tab.id) == |tabs|
  {
    var r := tabs + [tab];
    assert r[|tabs|].id == tab.id;
  }

  /** Appending keeps every earlier record and keeps ids unique when the id is fresh. */
  lemma AppendedUnique(tabs: seq<Tab>, tab: Tab)
    requires UniqueIds(tabs) && !HasId(tabs, tab.id)
    ensures UniqueIds(tabs + [tab])
  {
    var r := tabs + [tab];
    forall i, j | 0 <= i < j < |r|
      ensures r[i].id != r[j].id
    {
      if j == |tabs| {
        assert r[i] == tabs[i];
      }
    }
  }

  /** Appending keeps at most one temporary tab when the new one is not temporary or none was. */
  lemma AppendedTemps(tabs: seq<Tab>, tab: Tab)
    requires AtMostOneTemp(tabs) && (tab.kind != Temporary || IndexOfTemp(tabs) == -1)
    ensures AtMostOneTemp(tabs + [tab])
  {
    var r := tabs + [tab];
    forall a, b | 0 <= a < b < |r| && r[a].kind == Temporary
      ensures r[b].kind != Temporary
    {
      assert r[a] == tabs[a];
      if b < |tabs| {
        assert r[b] == tabs[b];
      }
    }
  }

  // ---------------------------------------------------------------------
  // Delete

  /**
   * Deleting removes exactly the first record with the id and keeps the
   * others in order; an absent id changes nothing.
   */
  lemma DeletedSpec(tabs: seq<Tab>, id: NoteId)
    ensures !HasId(tabs, id) ==> Deleted(tabs, id) == tabs
    ensures HasId(tabs, id) ==>
      var i := IndexOfId(tabs, id);
      |Deleted(tabs, id)| == |tabs| - 1 &&
      Deleted(tabs, id) == tabs[..i] + tabs[i + 1..]
  {
    if HasId(tabs, id) {
      var i := IndexOfId(tabs, id);
      var r := Deleted(tabs, id);
      assert r == Lists.RemoveAt(tabs, i);
      assert |r| == |tabs[..i] + tabs[i + 1..]|;
      forall k | 0 <= k < |r|
        ensures r[k] == (tabs[..i] + tabs[i + 1..])[k]
      {
        if k < i {
          assert (tabs[..i] + tabs[i + 1..])[k] == tabs[k];
        } else {
          assert (tabs[..i] + tabs[i + 1..])[k] == tabs[i + 1..][k - i];
        }
      }
    }
  }

  /** Keeping a subsequence in order keeps the ids unique and the temporaries at most one. */
  lemma RemoveAtKeepsInvariants(tabs: seq<Tab>, i: nat)
    requires i < |tabs|
    ensures UniqueIds(tabs) ==> UniqueIds(Lists.RemoveAt(tabs, i))
    ensures AtMostOneTemp(tabs) ==> AtMostOneTemp(Lists.RemoveAt(tabs, i))
  {
    var r := Lists.RemoveAt(tabs, i);
    forall a, b | 0 <= a < b < |r|
      ensures r[a] == tabs[if a < i then a else a + 1]
      ensures r[b] == tabs[if b < i then b else b + 1]
    {
    }
  }

  /** With unique ids, deleting a note removes every trace of it and keeps both invariants. */
  lemma DeletedUnique(tabs: seq<Tab>, id: NoteId)
    requires UniqueIds(tabs)
    ensures UniqueIds(Deleted(tabs, id))
    ensures AtMostOneTemp(tabs) ==> AtMostOneTemp(Deleted(tabs, id))
    ensures !HasId(Deleted(tabs, id), id)
  {
    var i := IndexOfId(tabs, id);
    if i >= 0 {
      RemoveAtKeepsInvariants(tabs, i);
      var r := Deleted(tabs, id);
      forall k | 0 <= k < |r|
        ensures r[k].id != id
      {
        var src := if k < i then k else k + 1;
        assert r[k] == tabs[src];
      }
    }
  }

  // ---------------------------------------------------------------------
  // Insert before a target

  /**
   * Inserting before a found target puts the new record at the target's old
   * index and shifts the target and everything after it one place right;
   * an unknown target changes nothing.
   */
  lemma InsertedBeforeSpec(tabs: seq<Tab>, tab: Tab, target: NoteId)
    ensures !HasId(tabs, target) ==> InsertedBefore(tabs, tab, target) == tabs
    ensures HasId(tabs, target) ==>
      var i := IndexOfId(tabs, target);
      var r := InsertedBefore(tabs, tab, target);
      |r| == |tabs| + 1 && r[i] == tab && r[i + 1] == tabs[i] &&
      r[..i] == tabs[..i] && r[i + 1..] == tabs[i..]
    ensures HasId(tabs, target) && tab.id != target ==>
      IndexOfId(InsertedBefore(tabs, tab, target), target) == IndexOfId(tabs, target) + 1
  {
    if HasId(tabs, target) {
      var i := IndexOfId(tabs, target);
      var r := InsertedBefore(tabs, tab, target);
      assert r[..i] == tabs[..i];
      assert r[i + 1..] == tabs[i..];
      if tab.id != target {
        assert r[i + 1].id == target;
      }
    }
  }
  /**
   * Inserting before a target keeps unique ids when the new id is fresh, and
   * keeps at most one temporary tab when the new tab is not temporary or none was.
   */
  lemma InsertedBeforeKeepsInvariants(tabs: seq<Tab>, tab: Tab, target: NoteId)
    ensures UniqueIds(tabs) && !HasId(tabs, tab.id) ==> UniqueIds(InsertedBefore(tabs, tab, target))
    ensures AtMostOneTemp(tabs) && (tab.kind != Temporary || IndexOfTemp(tabs) == -1) ==>
      AtMostOneTemp(InsertedBefore(tabs, tab, target))
  {
    var i := IndexOfId(tabs, target);
    if i >= 0 {
      var r := InsertedBefore(tabs, tab, target);
      forall a, b | 0 <= a < b < |r|
        ensures UniqueIds(tabs) && !HasId(tabs, tab.id) ==> r[a].id != r[b].id
        ensures AtMostOneTemp(tabs) && (tab.kind != Temporary || IndexOfTemp(tabs) == -1) && r[a].kind == Temporary ==>
          r[b].kind != Temporary
      {
        var sa := if a < i then a else a - 1;
        var sb := if b < i then b else b - 1;
        if a != i {
          assert r[a] == tabs[sa];
        }
        if b != i {
          assert r[b] == tabs[sb];
        }
      }
    }
  }


  // ---------------------------------------------------------------------
  // Move

  /**
   * `moveWithIndex` is a list move exactly when the record at the source
   * index is the first one carrying its id, which every list with unique
   * ids satisfies.
   */
  lemma MovedWithIndexIsMove(tabs: seq<Tab>, s: nat, t: nat)
    requires s < |tabs| && t < |tabs|
    requires IndexOfId(tabs, tabs[s].id) == s
    ensures MovedWithIndex(tabs, s, t) == Lists.Move(tabs, s, t)
  {
  }

  /** Out-of-range indices make `moveWithIndex` a no-op. */
  lemma MovedWithIndexOutOfRange(tabs: seq<Tab>, s: int, t: int)
    requires !(0 <= s < |tabs|) || !(0 <= t < |tabs|)
    ensures MovedWithIndex(tabs, s, t) == tabs
  {
  }

  /** A list move keeps ids unique. */
  lemma MoveUnique(tabs: seq<Tab>, s: nat, t: nat)
    requires s < |tabs| && t < |tabs| && UniqueIds(tabs)
    ensures UniqueIds(Lists.Move(tabs, s, t))
  {
    var r := Lists.Move(tabs, s, t);
    forall a, b | 0 <= a < b < |r|
      ensures r[a].id != r[b].id
    {
      Lists.MoveAt(tabs, s, t, a);
      Lists.MoveAt(tabs, s, t, b);
      Lists.MoveSourceInjective(|tabs|, s, t, a, b);
    }
  }
  /** A move keeps at most one temporary tab. */
  lemma MoveTemps(tabs: seq<Tab>, s: nat, t: nat)
    requires s < |tabs| && t < |tabs| && AtMostOneTemp(tabs)
    ensures AtMostOneTemp(Lists.Move(tabs, s, t))
  {
    var r := Lists.Move(tabs, s, t);
    forall a, b | 0 <= a < b < |r| && r[a].kind == Temporary
      ensures r[b].kind != Temporary
    {
      Lists.MoveAt(tabs, s, t, a);
      Lists.MoveAt(tabs, s, t, b);
      Lists.MoveSourceInjective(|tabs|, s, t, a, b);
    }
  }


  /**
   * With unique ids, `moveWithIndex` keeps the length, the multiset of
   * records and the uniqueness of ids, and lands the moved record at `t`.
   */
  lemma MovedWithIndexPermutes(tabs: seq<Tab>, s: nat, t: nat)
    requires s < |tabs| && t < |tabs| && UniqueIds(tabs)
    ensures |MovedWithIndex(tabs, s, t)| == |tabs|
    ensures MovedWithIndex(tabs, s, t)[t] == tabs[s]
    ensures multiset(MovedWithIndex(tabs, s, t)) == multiset(tabs)
    ensures UniqueIds(MovedWithIndex(tabs, s, t))
    ensures AtMostOneTemp(tabs) ==> AtMostOneTemp(MovedWithIndex(tabs, s, t))
  {
    UniqueIndexOf(tabs, s);
    MovedWithIndexIsMove(tabs, s, t);
    MoveUnique(tabs, s, t);
    if AtMostOneTemp(tabs) {
      MoveTemps(tabs, s, t);
    }
  }

  /** With unique ids, moving from `i` to `j` and back from `j` to `i` restores the exact order. */
  lemma MovedWithIndexInverse(tabs: seq<Tab>, i: nat, j: nat)
    requires i < |tabs| && j < |tabs| && UniqueIds(tabs)
    ensures MovedWithIndex(MovedWithIndex(tabs, i, j), j, i) == tabs
  {
    MovedWithIndexPermutes(tabs, i, j);
    var m := MovedWithIndex(tabs, i, j);
    UniqueIndexOf(m, j);
    MovedWithIndexIsMove(tabs, i, j);
    MovedWithIndexIsMove(m, j, i);
    Lists.MoveInverse(tabs, i, j);
  }

  /**
   * Without unique ids `moveWithIndex` is not a list move: moving the second
   * of two records with the same id to the front deletes the first record
   * and duplicates the moved one.
   */
  lemma MovedWithIndexDuplicateIds()
    ensures MovedWithIndex([Tab("a", Temporary), Tab("a", Pinned)], 1, 0)
         == [Tab("a", Pinned), Tab("a", Pinned)]
  {
    var tabs := [Tab("a", Temporary), Tab("a", Pinned)];
    assert IndexOfId(tabs, "a") == 0;
    assert Deleted(tabs, "a") == [Tab("a", Pinned)];
  }

  // ---------------------------------------------------------------------
  // Change type, replace temporary

  /**
   * Changing the type touches only the `kind` of the first record with the
   * id; ids, length and all other records stay as they were.
   */
  lemma TypeChangedSpec(tabs: seq<Tab>, id: NoteId, t: TabType)
    ensures |TypeChanged(tabs, id, t)| == |tabs|
    ensures !HasId(tabs, id) ==> TypeChanged(tabs, id, t) == tabs
    ensures forall k :: 0 <= k < |tabs| ==> TypeChanged(tabs, id, t)[k].id == tabs[k].id
    ensures forall k :: 0 <= k < |tabs| && k != IndexOfId(tabs, id) ==> TypeChanged(tabs, id, t)[k] == tabs[k]
    ensures HasId(tabs, id) ==> TypeChanged(tabs, id, t)[IndexOfId(tabs, id)] == Tab(id, t)
    ensures UniqueIds(tabs) ==> UniqueIds(TypeChanged(tabs, id, t))
  {
    var r := TypeChanged(tabs, id, t);
    assert forall k :: 0 <= k < |tabs| ==> r[k].id == tabs[k].id;
  }

  /** Pinning a tab (or any change to a non-temporary type) keeps at most one temporary. */
  lemma TypeChangedTemps(tabs: seq<Tab>, id: NoteId, t: TabType)
    requires AtMostOneTemp(tabs) && t != Temporary
    ensures AtMostOneTemp(TypeChanged(tabs, id, t))
  {
    var r := TypeChanged(tabs, id, t);
    assert forall k :: 0 <= k < |tabs| && r[k].kind == Temporary ==> tabs[k].kind == Temporary;
  }

  /**
   * Replacing the temporary tab changes only the id of the first Temporary
   * record and keeps every type, so at most one temporary stays at most one.
   */
  lemma TempReplacedSpec(tabs: seq<Tab>, id: NoteId)
    ensures |TempReplaced(tabs, id)| == |tabs|
    ensures IndexOfTemp(tabs) < 0 ==> TempReplaced(tabs, id) == tabs
    ensures forall k :: 0 <= k < |tabs| ==> TempReplaced(tabs, id)[k].kind == tabs[k].kind
    ensures forall k :: 0 <= k < |tabs| && k != IndexOfTemp(tabs) ==> TempReplaced(tabs, id)[k] == tabs[k]
    ensures IndexOfTemp(tabs) >= 0 ==> TempReplaced(tabs, id)[IndexOfTemp(tabs)] == Tab(id, Temporary)
    ensures AtMostOneTemp(tabs) ==> AtMostOneTemp(TempReplaced(tabs, id))
  {
    var r := TempReplaced(tabs, id);
    assert forall k :: 0 <= k < |tabs| ==> r[k].kind == tabs[k].kind;
  }

  /** The temporary tab's new id keeps ids unique only when no other tab has it. */
  lemma TempReplacedUnique(tabs: seq<Tab>, id: NoteId)
    requires UniqueIds(tabs) && !HasId(tabs, id)
    ensures UniqueIds(TempReplaced(tabs, id))
  {
    var i := IndexOfTemp(tabs);
    var r := TempReplaced(tabs, id);
    forall a, b | 0 <= a < b < |r|
      ensures r[a].id != r[b].id
    {
      if a == i {
        assert r[b] == tabs[b];
      } else if b == i {
        assert r[a] == tabs[a];
      }
    }
  }
}
