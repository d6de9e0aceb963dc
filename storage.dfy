/** The on-device key-value storage, reduced to its one slot, `'favorites'`.
    The slot holds nothing or a serialized array of records; serialization is
    taken as the identity. Whether a read or a write fails is decided by the
    environment and passed in as a parameter. */
module Storage {
  import opened Favorites

  /** The outcome of `getItem('favorites')` followed by `JSON.parse`. */
  datatype ReadResult = Read(value: Option<seq<Fav>>) | ReadFailed

  class FavoritesSlot {
    var stored: Option<seq<Fav>>

    constructor (initial: Option<seq<Fav>>)
      ensures stored == initial
    {
      stored := initial;
    }

    /** `getItem`: yields the slot as it is, or fails; never changes it. */
    method GetItem(fault: bool) returns (r: ReadResult)
      ensures fault ==> r == ReadFailed
      ensures !fault ==> r == Read(stored)
    {
      if fault {
        r := ReadFailed;
      } else {
        r := Read(stored);
      }
    }

    /** `setItem`: replaces the slot with `favs`, or fails and leaves it. */
    method SetItem(favs: seq<Fav>, fault: bool) returns (ok: bool)
      modifies this
      ensures ok == !fault
      ensures stored == if ok then Some(favs) else old(stored)
    {
      ok := !fault;
      if ok {
        stored := Some(favs);
      }
    }
  }
}
