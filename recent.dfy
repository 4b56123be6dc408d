/**
 * The last-active-note queue shared by `LastActiveNoteQueue` and
 * `LastActiveNote`: at most two note ids, the last active one at index 0 and
 * the current one at index 1.
 */
module Recent {
  import opened Common
  import opened TabList

  /** The store after pushing `id`: when full, keep it if `id` is already current, else drop the oldest. */
  function Pushed(store: seq<NoteId>, id: NoteId): (r: seq<NoteId>)
    ensures |r| > 0 && r[|r| - 1] == id
    ensures |store| <= 2 ==> |r| <= 2
    ensures |store| < 2 ==> r == store + [id]
    ensures |store| == 2 && store[1] == id ==> r == store
    ensures |store| == 2 && store[1] != id ==> r == [store[1], id]
  {
    if |store| == 2 then
      if store[1] == id then store else store[1..] + [id]
    else store + [id]
  }

  /** `store.shift()`: the oldest id and the rest, or nothing and the same (empty) store. */
  function Shifted(store: seq<NoteId>): (r: (Option<NoteId>, seq<NoteId>))
    ensures store == [] ==> r == (None, [])
    ensures store != [] ==> r.0 == Some(store[0]) && [store[0]] + r.1 == store
  {
    if store == [] then (None, []) else (Some(store[0]), store[1..])
  }

  /** The store after pushing every id of `ids` in order. */
  function PushedAll(store: seq<NoteId>, ids: seq<NoteId>): seq<NoteId>
    decreases |ids|
  {
    if ids == [] then store else PushedAll(Pushed(store, ids[0]), ids[1..])
  }

  /** No sequence of pushes grows the store past two entries, and the last id pushed is current. */
  lemma {:induction false} PushedAllBounded(store: seq<NoteId>, ids: seq<NoteId>)
    requires |store| <= 2
    ensures |PushedAll(store, ids)| <= 2
    ensures ids != [] ==> |PushedAll(store, ids)| > 0 && PushedAll(store, ids)[|PushedAll(store, ids)| - 1] == ids[|ids| - 1]
    decreases |ids|
  {
    if ids != [] {
      PushedAllBounded(Pushed(store, ids[0]), ids[1..]);
      if ids[1..] == [] {
        assert PushedAll(Pushed(store, ids[0]), ids[1..]) == Pushed(store, ids[0]);
      } else {
        assert ids[1..][|ids[1..]| - 1] == ids[|ids| - 1];
      }
    }
  }

  /** After activating `a` and then a different `b`, the queue is exactly `[a, b]`, whatever it held before. */
  lemma PushedTwo(store: seq<NoteId>, a: NoteId, b: NoteId)
    requires |store| <= 2 && a != b
    ensures Pushed(Pushed(store, a), b) == [a, b]
  {
  }

  /** Below two entries a repeated id is appended again: deduplication happens only when full. */
  lemma PushedRepeatWhenNotFull(a: NoteId)
    ensures Pushed(Pushed([], a), a) == [a, a]
    ensures Pushed([a, a], a) == [a, a]
  {
  }
}
