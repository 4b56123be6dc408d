/** `LastActiveNote`: the queue of src/lastActiveNote.ts, pushed by a property setter and shifted by its getter. */
module LastActive {
  import opened Common
  import opened TabList
  import opened Recent

  class LastActiveNote {
    /** The stored note ids, oldest first. */
    var store: seq<NoteId>

    ghost predicate Valid()
      reads this
    {
      |store| <= 2
    }

    constructor ()
      ensures Valid() && store == []
    {
      store := [];
    }

    /** The `id` getter: removes and returns the oldest entry; an empty store stays empty. */
    method GetId() returns (r: Option<NoteId>)
      requires Valid()
      modifies this
      ensures Valid()
      ensures (r, store) == Shifted(old(store))
    {
      if store == [] {
        r := None;
      } else {
        r := Some(store[0]);
        store := store[1..];
      }
    }

    /** The `id` setter: pushes the id, keeping at most two entries. */
    method SetId(id: NoteId)
      requires Valid()
      modifies this
      ensures Valid()
      ensures store == Pushed(old(store), id)
    {
      if |store| == 2 {
        if store[1] == id {
          return;
        }
        store := store[1..];
      }
      store := store + [id];
    }

    /** Number of stored ids. */
    function Length(): (r: nat)
      reads this
      requires Valid()
      ensures r == |store| && r <= 2
    {
      |store|
    }
  }
}
