/** Sequences of screen operations over the one shared storage slot, each
    operation taken as one atomic step. */
module Scenarios {
  import opened Favorites
  import opened Storage
  import opened SpecificPlace
  import opened MisFavs

  /** Starting unflagged, with no record of the place stored, two successful
      toggles give back the stored list and the flag; an absent slot comes
      back as the empty list. With a null place both toggles fail and nothing
      changes. */
  method ToggleTwice(screen: PlaceScreen)
    requires !screen.isFavorite && !HasId(ListOf(screen.storage.stored), screen.placeId)
    modifies screen, screen.storage
    ensures !screen.isFavorite
    ensures screen.storage.stored ==
              if screen.place.Some? then Some(ListOf(old(screen.storage.stored))) else old(screen.storage.stored)
  {
    ghost var before := ListOf(screen.storage.stored);
    screen.ToggleFavorite(false, false);
    screen.ToggleFavorite(false, false);
    if screen.place.Some? {
      AppendThenWithout(before, NewRecord(screen.placeId, screen.place.value));
    }
  }

  /** A failed membership check leaves the flag false while the place is
      stored; the next toggle then appends a second record of the same id. */
  method DuplicateAfterFailedCheck(placeId: Id, place: PlaceDetail) returns (after: Option<seq<Fav>>)
    ensures after.Some? && CountId(after.value, placeId) == 2
  {
    var rec := NewRecord(placeId, place);
    var slot := new FavoritesSlot(Some([rec]));
    var screen := new PlaceScreen(placeId, Some(place), slot);
    screen.CheckIfFavorite(true);
    screen.ToggleFavorite(false, false);
    after := slot.stored;
    AppendCounts([rec], rec);
    assert CountId([rec], placeId) == 1 by {
      assert [rec][1..] == [];
    }
  }

  /** The favorites screen writes back its own copy of the list: a record
      that the place screen added after that copy was loaded is lost when the
      user removes another record shown on the favorites screen, while the
      place screen still shows the added place as a favorite. */
  method StaleRemoveLosesAddition(placeId: Id, place: PlaceDetail, otherRec: Fav) returns (after: Option<seq<Fav>>, flag: bool)
    requires otherRec.id != placeId
    ensures after == Some([])
    ensures flag && !HasId(after.value, placeId)
  {
    var slot := new FavoritesSlot(Some([otherRec]));
    var list := new FavoritesScreen(slot);
    list.LoadFavorites(false);
    assert list.favorites == [otherRec];
    var detail := new PlaceScreen(placeId, Some(place), slot);
    detail.CheckIfFavorite(false);
    assert !HasId([otherRec], placeId);
    assert !detail.isFavorite && slot.stored == Some([otherRec]);
    detail.ToggleFavorite(false, false);
    assert [otherRec] + [NewRecord(placeId, place)] == [otherRec, NewRecord(placeId, place)];
    assert slot.stored == Some([otherRec, NewRecord(placeId, place)]);
    list.RemoveFavorite(otherRec.id, false);
    assert [otherRec][1..] == [];
    after, flag := slot.stored, detail.isFavorite;
  }

  /** Storing 'N/A' for a zero or missing polarity never changes the colour
      the favorites screen gives the record: both fall in the low band. */
  lemma NewRecordColor(placeId: Id, place: PlaceDetail)
    ensures GetRatingColor(NewRecord(placeId, place).placeData.polarity) ==
              match place.polarity
              case Missing => LowColors
              case Score(v) => GetRatingColor(Num(v))
  {
  }
}
