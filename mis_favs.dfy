/** The favorites screen: it loads the stored list into memory, removes a
    record from its in-memory copy and writes that copy back, and picks an icon
    per category and a colour pair per rating. */
module MisFavs {
  import opened Favorites
  import opened Storage

  const LoadError: string := "Failed to load favorites"

  /** State of the favorites screen. */
  class FavoritesScreen {
    /** The storage shared with every other screen. */
    const storage: FavoritesSlot
    /** The in-memory copy of the list that the screen renders. */
    var favorites: seq<Fav>
    var loading: bool
    var error: Option<string>
    var refreshing: bool

    constructor (storage: FavoritesSlot)
      ensures this.storage == storage
      ensures favorites == [] && loading && error == None && !refreshing
    {
      this.storage := storage;
      favorites := [];
      loading := true;
      error := None;
      refreshing := false;
    }

    /** `loadFavorites`: an absent slot loads as the empty list; a failed
        read keeps the old in-memory list and sets the error; either way the
        loading and refreshing indicators end. */
    method LoadFavorites(readFault: bool)
      modifies this
      ensures !loading && !refreshing
      ensures !readFault ==> favorites == ListOf(storage.stored) && error == None
      ensures readFault ==> favorites == old(favorites) && error == Some(LoadError)
    {
      var r := storage.GetItem(readFault);
      match r {
        case Read(value) =>
          favorites := ListOf(value);
          error := None;
        case ReadFailed =>
          error := Some(LoadError);
      }
      loading := false;
      refreshing := false;
    }

    /** `onRefresh`: raises the refreshing indicator, then reloads. */
    method OnRefresh(readFault: bool)
      modifies this
      ensures !loading && !refreshing
      ensures !readFault ==> favorites == ListOf(storage.stored) && error == None
      ensures readFault ==> favorites == old(favorites) && error == Some(LoadError)
    {
      refreshing := true;
      LoadFavorites(readFault);
    }

    /** `removeFavorite`: filters the in-memory copy, which may be stale,
        and overwrites the slot with it; the copy is replaced only once the
        write succeeds. */
    method RemoveFavorite(id: Id, writeFault: bool)
      modifies this`favorites, storage
      ensures writeFault ==> favorites == old(favorites) && storage.stored == old(storage.stored)
      ensures !writeFault ==> favorites == Without(old(favorites), id)
      ensures !writeFault ==> storage.stored == Some(favorites)
    {
      var newFavorites := Without(favorites, id);
      var ok := storage.SetItem(newFavorites, writeFault);
      if ok {
        favorites := newFavorites;
      }
    }
  }

  /** `String.prototype.toLowerCase` on one character, as far as it can
      affect a comparison with a lower-case ASCII word: the ASCII capitals,
      and the Kelvin sign, whose lower case is the ASCII letter k. */
  function LowerChar(c: char): (r: char)
    ensures 'A' <= c <= 'Z' ==> r as int == c as int + 32
    ensures c == '\U{212A}' ==> r == 'k'
    ensures !('A' <= c <= 'Z') && c != '\U{212A}' ==> r == c
  {
    if 'A' <= c <= 'Z' then (c as int + 32) as char
    else if c == '\U{212A}' then 'k'
    else c
  }

  function LowerCase(s: string): (r: string)
    ensures |r| == |s|
    ensures forall i :: 0 <= i < |s| ==> r[i] == LowerChar(s[i])
  {
    if s == [] then [] else [LowerChar(s[0])] + LowerCase(s[1..])
  }

  const DefaultIcon: string := "location-outline"

  /** The switch of `getCategoryIcon`, keyed by lower-case category. */
  const CategoryIcons: map<string, string> := map[
    "restaurant" := "restaurant-outline",
    "cafe" := "cafe-outline",
    "bar" := "wine-outline",
    "hotel" := "bed-outline",
    "park" := "leaf-outline",
    "museum" := "easel-outline"
  ]

  /** `getCategoryIcon(category)`, with `category?.toLowerCase()`: a missing
      category and every unknown one get the default icon. */
  function GetCategoryIcon(category: Option<string>): (r: string)
    ensures category.None? ==> r == DefaultIcon
    ensures category.Some? && LowerCase(category.value) in CategoryIcons ==>
              r == CategoryIcons[LowerCase(category.value)]
    ensures r == DefaultIcon <==> category.None? || LowerCase(category.value) !in CategoryIcons
  {
    match category
    case None => DefaultIcon
    case Some(c) =>
      var key := LowerCase(c);
      if key in CategoryIcons then CategoryIcons[key] else DefaultIcon
  }

  /** A word of lower-case ASCII letters is its own lower case. */
  lemma LowerCaseOfLower(s: string)
    requires forall i :: 0 <= i < |s| ==> 'a' <= s[i] <= 'z'
    ensures LowerCase(s) == s
  {
  }

  /** Lower-casing is idempotent. */
  lemma LowerCaseIdempotent(s: string)
    ensures LowerCase(LowerCase(s)) == LowerCase(s)
  {
  }

  /** Matching ignores case: two spellings with the same lower case get the
      same icon. */
  lemma CategoryIconIgnoresCase(a: string, b: string)
    requires LowerCase(a) == LowerCase(b)
    ensures GetCategoryIcon(Some(a)) == GetCategoryIcon(Some(b))
  {
  }

  /** An upper-case spelling of a known category gets its icon. */
  lemma UpperCaseRestaurant()
    ensures GetCategoryIcon(Some("RESTAURANT")) == "restaurant-outline"
  {
    assert LowerCase("RESTAURANT") == "restaurant";
  }

  /** The Kelvin sign lower-cases to k, so it spells the park category. */
  lemma KelvinSignPark()
    ensures GetCategoryIcon(Some("PAR\U{212A}")) == "leaf-outline"
  {
    assert LowerCase("PAR\U{212A}") == "park";
  }

  /** Only exact names match; anything else gets the default. */
  lemma PluralIsUnknown()
    ensures GetCategoryIcon(Some("Museums")) == DefaultIcon
  {
    assert LowerCase("Museums") == "museums";
  }

  /** The three gradients of `getRatingColor`. */
  const HighColors: (string, string) := ("#00b09b", "#96c93d")
  const MediumColors: (string, string) := ("#FFA500", "#FFC04D")
  const LowColors: (string, string) := ("#FF512F", "#F09819")

  /** `getRatingColor(rating)`: 8 and above is high, 6 and 7 medium, the rest
      low. 'N/A' compares false against both thresholds, so it is low. */
  function GetRatingColor(rating: Rating): (r: (string, string))
    ensures r == HighColors <==> rating.Num? && rating.n >= 8
    ensures r == MediumColors <==> rating.Num? && 6 <= rating.n < 8
    ensures r == LowColors <==> rating.NA? || rating.n < 6
  {
    match rating
    case NA => LowColors
    case Num(n) => if n >= 8 then HighColors else if n >= 6 then MediumColors else LowColors
  }

  /** Rank of a colour pair: low 0, medium 1, high 2. */
  function Band(colors: (string, string)): nat
  {
    if colors == HighColors then 2 else if colors == MediumColors then 1 else 0
  }

  /** A higher rating never gets a lower band. */
  lemma RatingColorMonotone(a: int, b: int)
    requires a <= b
    ensures Band(GetRatingColor(Num(a))) <= Band(GetRatingColor(Num(b)))
  {
  }
}
