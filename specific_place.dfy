/** The place-detail screen: whether the shown place is a favorite, the toggle
    that adds or removes it in storage, the record it adds, and the language
    flag shown beside each review. */
module SpecificPlace {
  import opened Favorites
  import opened Storage

  /** `place.polarity` of the fetched detail record: absent (undefined or
      null) or a number. */
  datatype Polarity = Missing | Score(value: int)

  /** The part of the fetched detail record that a favorite copies. */
  datatype PlaceDetail = PlaceDetail(name: string, address: string, category: Option<string>, polarity: Polarity)

  /** `place.polarity || 'N/A'`: every falsy polarity, the number 0 included,
      becomes 'N/A'. */
  function RatingOf(p: Polarity): (r: Rating)
    ensures r == NA <==> p == Missing || p == Score(0)
    ensures r.Num? ==> p == Score(r.n) && r.n != 0
  {
    match p
    case Missing => NA
    case Score(v) => if v == 0 then NA else Num(v)
  }

  /** The record `toggleFavorite` appends for `placeId` and the fetched place. */
  function NewRecord(placeId: Id, place: PlaceDetail): (r: Fav)
    ensures r.id == placeId
    ensures r.placeData.name == place.name && r.placeData.address == place.address
    ensures r.placeData.category == place.category
    ensures r.placeData.polarity == RatingOf(place.polarity)
  {
    Fav(placeId, PlaceData(place.name, place.address, place.category, RatingOf(place.polarity)))
  }

  /** Two places that differ only in a polarity that `||` treats as falsy
      yield the same record: 0 and a missing polarity are indistinguishable
      once stored. */
  lemma ZeroPolarityIsLost(placeId: Id, place: PlaceDetail)
    requires place.polarity == Score(0)
    ensures NewRecord(placeId, place) == NewRecord(placeId, place.(polarity := Missing))
    ensures NewRecord(placeId, place).placeData.polarity == NA
  {
  }

  const Globe: string := "\U{1F310}"

  /** The seven language codes the flag table knows. */
  const Languages: set<string> := {"en", "es", "ca", "fr", "it", "de", "lt"}

  /** The flag table of `getLanguageEmoji`, as its own properties. */
  const LanguageFlags: map<string, string> := map[
    "en" := "\U{1F1EC}\U{1F1E7}",
    "es" := "\U{1F1EA}\U{1F1F8}",
    "ca" := "\U{1F3F4}",
    "fr" := "\U{1F1EB}\U{1F1F7}",
    "it" := "\U{1F1EE}\U{1F1F9}",
    "de" := "\U{1F1E9}\U{1F1EA}",
    "lt" := "\U{1F1F1}\U{1F1F9}"
  ]

  /** The flag of a review's language, the globe for any other code. */
  function GetLanguageEmoji(lang: string): (r: string)
    ensures r != Globe <==> lang in Languages
    ensures lang in Languages ==> r == LanguageFlags[lang]
    ensures |r| > 0
  {
    if lang in LanguageFlags then LanguageFlags[lang] else Globe
  }

  /** What a property lookup on a plain object literal yields in the source's
      language: an own property, a member inherited from the object
      prototype, or nothing. */
  datatype Lookup = Own(text: string) | Inherited(name: string) | Undefined

  /** The names every plain object inherits from the object prototype; each
      of them is a function or an object, hence truthy. */
  const ObjectPrototypeNames: set<string> := {
    "constructor", "hasOwnProperty", "isPrototypeOf", "propertyIsEnumerable",
    "toLocaleString", "toString", "valueOf", "__proto__",
    "__defineGetter__", "__defineSetter__", "__lookupGetter__", "__lookupSetter__"
  }

  function FlagsLookup(lang: string): (r: Lookup)
    ensures r.Own? <==> lang in LanguageFlags
    ensures r.Own? ==> r.text == LanguageFlags[lang]
    ensures r.Inherited? ==> r.name == lang
    ensures r.Undefined? <==> lang !in LanguageFlags && lang !in ObjectPrototypeNames
  {
    if lang in LanguageFlags then Own(LanguageFlags[lang])
    else if lang in ObjectPrototypeNames then Inherited(lang)
    else Undefined
  }

  /** `flags[lang] || '🌐'` as written: an inherited member is truthy, so it is
      returned instead of the globe. */
  function GetLanguageEmojiAsWritten(lang: string): (r: Lookup)
    ensures !r.Undefined?
    ensures r.Inherited? <==> lang in ObjectPrototypeNames
    ensures r.Inherited? ==> r.name == lang
    ensures lang in LanguageFlags ==> r == Own(LanguageFlags[lang])
    ensures lang !in LanguageFlags && lang !in ObjectPrototypeNames ==> r == Own(Globe)
  {
    match FlagsLookup(lang)
    case Own(t) => Own(t)
    case Inherited(n) => Inherited(n)
    case Undefined => Own(Globe)
  }

  /** The two agree on every code except the inherited names. */
  lemma AsWrittenAgreesOutsidePrototype(lang: string)
    ensures lang !in ObjectPrototypeNames ==> GetLanguageEmojiAsWritten(lang) == Own(GetLanguageEmoji(lang))
    ensures lang in ObjectPrototypeNames ==> GetLanguageEmojiAsWritten(lang) != Own(GetLanguageEmoji(lang))
  {
  }

  /** A review whose language is "constructor" gets a function, not a flag. */
  lemma ConstructorIsNotAFlag()
    ensures GetLanguageEmojiAsWritten("constructor") == Inherited("constructor")
    ensures GetLanguageEmoji("constructor") == Globe
  {
  }

  /** State of one place-detail screen that the favorites logic touches. */
  class PlaceScreen {
    const placeId: Id
    /** The fetched detail record, `None` while it is null. */
    const place: Option<PlaceDetail>
    /** The storage shared with every other screen. */
    const storage: FavoritesSlot
    var isFavorite: bool

    constructor (placeId: Id, place: Option<PlaceDetail>, storage: FavoritesSlot)
      ensures this.placeId == placeId && this.place == place && this.storage == storage
      ensures !isFavorite
    {
      this.placeId := placeId;
      this.place := place;
      this.storage := storage;
      isFavorite := false;
    }

    /** `checkIfFavorite`: a stored list sets the flag by membership; an
        absent slot or a failed read leaves the flag alone. */
    method CheckIfFavorite(readFault: bool)
      modifies this
      ensures readFault || storage.stored.None? ==> isFavorite == old(isFavorite)
      ensures !readFault && storage.stored.Some? ==> (isFavorite <==> HasId(storage.stored.value, placeId))
    {
      var r := storage.GetItem(readFault);
      if r.Read? && r.value.Some? {
        isFavorite := HasId(r.value.value, placeId);
      }
    }

    /** `toggleFavorite`: the decision to remove or add is taken from the
        cached flag, not from the stored list; an absent slot counts as the
        empty list; the flag flips only once the write succeeds. With a null
        place the add branch fails before anything is written. */
    method ToggleFavorite(readFault: bool, writeFault: bool)
      modifies this, storage
      ensures readFault || writeFault || (!old(isFavorite) && place.None?) ==>
                storage.stored == old(storage.stored) && isFavorite == old(isFavorite)
      ensures !readFault && !writeFault && old(isFavorite) ==>
                storage.stored == Some(Without(ListOf(old(storage.stored)), placeId)) && !isFavorite
      ensures !readFault && !writeFault && !old(isFavorite) && place.Some? ==>
                storage.stored == Some(ListOf(old(storage.stored)) + [NewRecord(placeId, place.value)]) && isFavorite
      ensures !readFault && !writeFault && (old(isFavorite) || place.Some?) ==>
                storage.stored.Some? && (isFavorite <==> HasId(storage.stored.value, placeId))
    {
      var r := storage.GetItem(readFault);
      if r.ReadFailed? {
        return;
      }
      var favorites := ListOf(r.value);
      if isFavorite {
        favorites := Without(favorites, placeId);
        HasIdWithout(ListOf(r.value), placeId, placeId);
      } else {
        if place.None? {
          return;
        }
        AppendCounts(favorites, NewRecord(placeId, place.value));
        favorites := favorites + [NewRecord(placeId, place.value)];
      }
      var ok := storage.SetItem(favorites, writeFault);
      if ok {
        isFavorite := !isFavorite;
      }
    }
  }
}
