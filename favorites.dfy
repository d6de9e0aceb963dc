/** The records of the on-device favorites list and the two list operations the
    screens apply to it: the membership test (`some`) and the removal of every
    record of one place (`filter`). */
module Favorites {

  datatype Option<+T> = None | Some(value: T)

  /** A place identifier as assigned by the remote catalog. */
  type Id = int

  /** The rating stored in a record: the place's polarity, or the text 'N/A'. */
  datatype Rating = Num(n: int) | NA

  /** The summary cached with a favorite. A missing category is `None`. */
  datatype PlaceData = PlaceData(name: string, address: string, category: Option<string>, polarity: Rating)

  /** One element of the stored array: `{id, placeData}`. */
  datatype Fav = Fav(id: Id, placeData: PlaceData)

  /** `favs.some(fav => fav.id === id)`. */
  predicate HasId(favs: seq<Fav>, id: Id): (b: bool)
    ensures b <==> exists f :: f in favs && f.id == id
  {
    exists i | 0 <= i < |favs| :: favs[i].id == id
  }

  /** `favs.filter(fav => fav.id !== id)`. */
  function Without(favs: seq<Fav>, id: Id): (r: seq<Fav>)
    ensures |r| <= |favs|
    ensures forall k :: 0 <= k < |r| ==> r[k].id != id
    ensures forall k :: 0 <= k < |r| ==> r[k] in favs
    ensures forall f :: f in favs && f.id != id ==> f in r
  {
    if favs == [] then []
    else if favs[0].id == id then Without(favs[1..], id)
    else [favs[0]] + Without(favs[1..], id)
  }

  /** Number of records in `favs` that carry `id`. */
  function CountId(favs: seq<Fav>, id: Id): nat
  {
    if favs == [] then 0
    else (if favs[0].id == id then 1 else 0) + CountId(favs[1..], id)
  }

  /** The list a screen works on when the slot may be absent:
      `storedFavorites ? JSON.parse(storedFavorites) : []`. */
  function ListOf(stored: Option<seq<Fav>>): (r: seq<Fav>)
    ensures stored.None? ==> r == []
    ensures stored.Some? ==> r == stored.value
  {
    match stored
    case None => []
    case Some(favs) => favs
  }

  lemma {:induction false} CountIdPositive(favs: seq<Fav>, id: Id)
    ensures CountId(favs, id) > 0 <==> HasId(favs, id)
  {
    if favs != [] {
      CountIdPositive(favs[1..], id);
      if HasId(favs[1..], id) {
        var i :| 0 <= i < |favs[1..]| && favs[1..][i].id == id;
        assert favs[i + 1].id == id;
      }
      if HasId(favs, id) && favs[0].id != id {
        var i :| 0 <= i < |favs| && favs[i].id == id;
        assert favs[1..][i - 1].id == id;
      }
    }
  }

  lemma {:induction false} CountIdAppend(a: seq<Fav>, b: seq<Fav>, id: Id)
    ensures CountId(a + b, id) == CountId(a, id) + CountId(b, id)
  {
    if a != [] {
      assert (a + b)[1..] == a[1..] + b;
      CountIdAppend(a[1..], b, id);
    } else {
      assert a + b == b;
    }
  }

  /** Filtering distributes over concatenation, so it keeps the relative order
      of the records it keeps. */
  lemma {:induction false} WithoutAppend(a: seq<Fav>, b: seq<Fav>, id: Id)
    ensures Without(a + b, id) == Without(a, id) + Without(b, id)
  {
    if a == [] {
      assert a + b == b;
    } else {
      assert (a + b)[1..] == a[1..] + b;
      WithoutAppend(a[1..], b, id);
    }
  }

  /** Removing an id that no record carries leaves the list as it was. */
  lemma {:induction false} WithoutAbsent(favs: seq<Fav>, id: Id)
    requires !HasId(favs, id)
    ensures Without(favs, id) == favs
  {
    if favs != [] {
      assert favs[0].id != id;
      assert !HasId(favs[1..], id);
      WithoutAbsent(favs[1..], id);
      assert favs == [favs[0]] + favs[1..];
    }
  }

  /** Removing twice is removing once. */
  lemma WithoutIdempotent(favs: seq<Fav>, id: Id)
    ensures Without(Without(favs, id), id) == Without(favs, id)
  {
    WithoutAbsent(Without(favs, id), id);
  }

  /** After the removal, exactly the other ids are still present. */
  lemma HasIdWithout(favs: seq<Fav>, x: Id, y: Id)
    ensures HasId(Without(favs, x), y) <==> HasId(favs, y) && y != x
  {
  }

  /** The removal keeps every record of another id exactly as often as it
      occurs, and drops every record of `id`. */
  lemma {:induction false} WithoutCounts(favs: seq<Fav>, id: Id, f: Fav)
    ensures multiset(Without(favs, id))[f] == if f.id == id then 0 else multiset(favs)[f]
  {
    if favs != [] {
      WithoutCounts(favs[1..], id, f);
      assert favs == [favs[0]] + favs[1..];
      assert multiset(favs) == multiset([favs[0]]) + multiset(favs[1..]);
    }
  }

  /** The filtered list is as long as the records of other ids. */
  lemma {:induction false} WithoutLength(favs: seq<Fav>, id: Id)
    ensures |Without(favs, id)| == |favs| - CountId(favs, id)
  {
    if favs != [] {
      WithoutLength(favs[1..], id);
    }
  }

  /** Position of the record `favs[i]` in the filtered list: the number of
      records before it that carry another id. */
  function KeptBefore(favs: seq<Fav>, id: Id, i: nat): int
    requires i <= |favs|
  {
    i - CountId(favs[..i], id)
  }

  /** A kept record lands at position `KeptBefore(favs, id, i)`. */
  lemma WithoutPosition(favs: seq<Fav>, id: Id, i: nat)
    requires i < |favs| && favs[i].id != id
    ensures 0 <= KeptBefore(favs, id, i) < |Without(favs, id)|
    ensures Without(favs, id)[KeptBefore(favs, id, i)] == favs[i]
  {
    assert favs == favs[..i] + ([favs[i]] + favs[i + 1..]);
    WithoutLength(favs[..i], id);
    WithoutAppend(favs[..i], [favs[i]] + favs[i + 1..], id);
    assert ([favs[i]] + favs[i + 1..])[1..] == favs[i + 1..];
  }

  /** The removal keeps the relative order of the remaining records. */
  lemma WithoutKeepsOrder(favs: seq<Fav>, id: Id, i: nat, j: nat)
    requires i < j < |favs| && favs[i].id != id && favs[j].id != id
    ensures 0 <= KeptBefore(favs, id, i) < KeptBefore(favs, id, j) < |Without(favs, id)|
    ensures Without(favs, id)[KeptBefore(favs, id, i)] == favs[i]
    ensures Without(favs, id)[KeptBefore(favs, id, j)] == favs[j]
  {
    WithoutPosition(favs, id, i);
    WithoutPosition(favs, id, j);
    assert favs[..j] == favs[..i] + ([favs[i]] + favs[i + 1..j]);
    WithoutLength(favs[..i], id);
    WithoutLength(favs[..j], id);
    WithoutAppend(favs[..i], [favs[i]] + favs[i + 1..j], id);
    assert ([favs[i]] + favs[i + 1..j])[1..] == favs[i + 1..j];
  }

  /** Appending a record and then removing its id restores a list that did
      not hold that id. */
  lemma AppendThenWithout(favs: seq<Fav>, rec: Fav)
    requires !HasId(favs, rec.id)
    ensures Without(favs + [rec], rec.id) == favs
  {
    WithoutAppend(favs, [rec], rec.id);
    WithoutAbsent(favs, rec.id);
    assert [rec][1..] == [];
  }

  /** Appending does no de-duplication: the id occurs once more than before. */
  lemma AppendCounts(favs: seq<Fav>, rec: Fav)
    ensures CountId(favs + [rec], rec.id) == CountId(favs, rec.id) + 1
    ensures HasId(favs + [rec], rec.id)
  {
    CountIdAppend(favs, [rec], rec.id);
    assert [rec][1..] == [];
    assert (favs + [rec])[|favs|] == rec;
  }
}
