# Favorites list of the place-catalog app, in Dafny

The app lets a user browse places from a remote catalog and keep a personal
list of favorites on the device. The list lives in one slot of the device's
key-value storage, `'favorites'`. The slot is either empty or holds a
serialized array of `{id, placeData}` records. Two screens work on it:

- the place-detail screen (`src/views/specificPlace.js`) keeps an
  `isFavorite` flag. It sets the flag from the stored list. It toggles the
  place in and out of the list, and it builds the record it adds from the
  fetched place.
- the favorites screen (`src/views/misFavs.js`) loads the list into memory.
  It removes a record from that copy and writes the copy back. It also picks
  an icon per category and a colour gradient per rating.

The model has five modules:

- `Favorites` (`favorites.dfy`): the records. It also holds the two list
  operations the screens use, `HasId` (`some`) and `Without` (`filter`). Beside
  them are lemmas on order, counts, idempotence and the add-then-remove round
  trip.
- `Storage` (`storage.dfy`): the slot, a class `FavoritesSlot` whose field
  `stored: Option<seq<Fav>>` is the slot's content.
- `SpecificPlace` (`specific_place.dfy`): the class `PlaceScreen`, the record
  builder and the language flags.
- `MisFavs` (`mis_favs.dfy`): the class `FavoritesScreen`, the category icons
  and the rating colours.
- `Scenarios` (`scenarios.dfy`): runs of several operations over one shared
  slot.

Serialization (`JSON.stringify` and `JSON.parse`) is taken as the identity.
Each asynchronous operation is one atomic step. Whether a storage read or
write fails is a boolean parameter (`readFault`, `writeFault`) chosen by the
environment. The fetched place is a constructor parameter of `PlaceScreen`:
`None` stands for a null response.

The model follows the code, including where it departs from the
store contract one would expect. The code keeps no uniqueness by id and does
no upsert. It stores no timestamp and has no typed store errors. The
add-or-remove choice comes from the cached flag, so a stale flag appends a
duplicate (`Scenarios.DuplicateAfterFailedCheck`). The favorites screen writes
back its possibly stale copy, which can drop a record added meanwhile
(`Scenarios.StaleRemoveLosesAddition`).

Every stored value is the text of a JSON array and is never empty, so a present
slot is truthy, even one holding `[]`. That is why `checkIfFavorite` and
`toggleFavorite` test the slot for truthiness while `loadFavorites` tests it
against `null`, and yet the three agree. The model writes all three as
`Some`/`None`.

## Model

| member | source | states |
|---|---|---|
| `Favorites.HasId` | src/views/specificPlace.js:48 | the membership test holds iff some record carries the id; `Favorites.CountIdPositive` ties it to the occurrence count |
| `Favorites.ListOf` | src/views/misFavs.js:27-31 | an absent slot reads as the empty list, a stored list as itself (the same default is taken at src/views/specificPlace.js:58) |
| `Favorites.Without` | src/views/specificPlace.js:61 | the filtered list is no longer than the input; none of its records carries the id; it holds only records of the input; it keeps every input record of another id |
| `Favorites.WithoutAppend` | src/views/specificPlace.js:61 | filtering distributes over concatenation, so the kept records stay in their order |
| `Favorites.WithoutLength` | src/views/misFavs.js:45 | the filtered list is as long as the input minus the records that carry the id |
| `Favorites.WithoutKeepsOrder` | src/views/specificPlace.js:61 | two kept records at positions i < j land at increasing positions of the result, each holding its record |
| `Favorites.WithoutPosition` | src/views/misFavs.js:45 | a kept record `favs[i]` is found in the result at position i minus the number of records of the id before it |
| `Favorites.WithoutCounts` | src/views/misFavs.js:45 | each record of another id occurs in the result exactly as often as in the input; records of the id occur zero times |
| `Favorites.WithoutAbsent` | src/views/misFavs.js:45 | removing an id no record carries returns the list unchanged |
| `Favorites.WithoutIdempotent` | src/views/misFavs.js:45 | removing twice equals removing once |
| `Favorites.HasIdWithout` | src/views/specificPlace.js:60-61 | after removing x, the id y is present iff it was present before and y differs from x |
| `Favorites.CountIdPositive` | src/views/specificPlace.js:48 | the membership test holds iff the id occurs at least once |
| `Favorites.AppendCounts` | src/views/specificPlace.js:64-72 | appending a record raises the count of its id by exactly one (no de-duplication) and makes the id present |
| `Favorites.AppendThenWithout` | src/views/specificPlace.js:60-72 | appending a record of an id the list lacks and then filtering that id gives back the list |
| `Storage.FavoritesSlot.GetItem` | src/views/specificPlace.js:45 | a read yields the slot's content, or fails; it never changes the slot |
| `Storage.FavoritesSlot.SetItem` | src/views/specificPlace.js:76 | a write that succeeds replaces the slot with the list; one that fails leaves the slot as it was |
| `SpecificPlace.RatingOf` | src/views/specificPlace.js:70 | the stored rating is 'N/A' exactly when the polarity is missing or 0; otherwise it is the polarity |
| `SpecificPlace.NewRecord` | src/views/specificPlace.js:64-72 | the new record carries the place id and copies name, address and category; its rating follows `RatingOf` |
| `SpecificPlace.ZeroPolarityIsLost` | src/views/specificPlace.js:70 | a polarity of 0 gives the same record as a missing polarity, rated 'N/A' |
| `SpecificPlace.GetLanguageEmoji` | src/views/specificPlace.js:109-120 | the result is a flag other than the globe exactly for the seven codes en, es, ca, fr, it, de, lt, and the table's flag for each |
| `SpecificPlace.FlagsLookup` | src/views/specificPlace.js:119 | an own property, carrying the table's flag, exactly for the seven codes; an inherited member, carrying its name, for the object-prototype names; undefined exactly for names that are neither |
| `SpecificPlace.GetLanguageEmojiAsWritten` | src/views/specificPlace.js:119 | the lookup as written never falls to undefined; it returns the table's flag for the seven codes, an inherited member exactly for the object-prototype names, and the globe for every other code |
| `SpecificPlace.AsWrittenAgreesOutsidePrototype` | src/views/specificPlace.js:110-119 | the as-written lookup and `GetLanguageEmoji` agree on every code outside the object-prototype names and differ on each of those |
| `SpecificPlace.ConstructorIsNotAFlag` | src/views/specificPlace.js:119 | for the language "constructor" the code returns an inherited member, where the globe is intended |
| `SpecificPlace.PlaceScreen.constructor` | src/views/specificPlace.js:17-24 | a new screen starts with the flag false |
| `SpecificPlace.PlaceScreen.CheckIfFavorite` | src/views/specificPlace.js:43-53 | with a stored list the flag becomes true iff some record has the place id; with an absent slot or a failed read the flag keeps its value |
| `SpecificPlace.PlaceScreen.ToggleFavorite` | src/views/specificPlace.js:55-82 | with the flag set, the write is the stored list (absent as empty) without the id's records; unset, it is the stored list plus one new record; the flag flips only on a successful write; a failed read, a failed write or a null place on the add branch change nothing; after success the flag equals membership in the written list |
| `MisFavs.FavoritesScreen.constructor` | src/views/misFavs.js:18-22 | a new screen has an empty list, is loading, has no error and is not refreshing |
| `MisFavs.FavoritesScreen.LoadFavorites` | src/views/misFavs.js:24-41 | a read sets the in-memory list to the stored list (absent as empty) and clears the error; a failed read sets the error and keeps the list; both end loading and refreshing |
| `MisFavs.FavoritesScreen.OnRefresh` | src/views/misFavs.js:61-64 | a refresh ends in the same state as a load, with refreshing off |
| `MisFavs.FavoritesScreen.RemoveFavorite` | src/views/misFavs.js:43-53 | a successful write stores the in-memory list without the id's records, and the in-memory list then equals what was stored; a failed write changes neither |
| `MisFavs.LowerChar` | src/views/misFavs.js:68 | capitals A-Z map to their lower-case letter, the Kelvin sign to k, every other character to itself |
| `MisFavs.LowerCase` | src/views/misFavs.js:68 | the result has the input's length and lower-cases each character |
| `MisFavs.LowerCaseOfLower` | src/views/misFavs.js:69-80 | a lower-case ASCII word is its own lower case, so the six names match themselves |
| `MisFavs.LowerCaseIdempotent` | src/views/misFavs.js:68 | lower-casing twice equals lower-casing once |
| `MisFavs.GetCategoryIcon` | src/views/misFavs.js:67-84 | a category whose lower case is one of restaurant, cafe, bar, hotel, park, museum gets that icon; any other category, and a missing one, gets 'location-outline', and only those do |
| `MisFavs.CategoryIconIgnoresCase` | src/views/misFavs.js:68 | two categories with the same lower case get the same icon |
| `MisFavs.UpperCaseRestaurant` | src/views/misFavs.js:68-70 | "RESTAURANT" gets the restaurant icon |
| `MisFavs.KelvinSignPark` | src/views/misFavs.js:68-78 | "PAR" followed by the Kelvin sign lower-cases to "park" and gets the park icon |
| `MisFavs.PluralIsUnknown` | src/views/misFavs.js:79-82 | "Museums" is not a known category and gets the default icon |
| `MisFavs.GetRatingColor` | src/views/misFavs.js:87-91 | high pair iff the rating is a number of at least 8; medium iff a number from 6 up to below 8; low iff 'N/A' or below 6 |
| `MisFavs.RatingColorMonotone` | src/views/misFavs.js:87-91 | a higher rating never gets a lower band |
| `Scenarios.ToggleTwice` | src/views/specificPlace.js:55-82 | from flag false and no record of the place, two successful toggles restore the flag and the stored list (an absent slot comes back as the empty list); with a null place nothing changes |
| `Scenarios.DuplicateAfterFailedCheck` | src/views/specificPlace.js:43-72 | after a failed membership check over a list that holds the place, a toggle leaves two records of that id |
| `Scenarios.StaleRemoveLosesAddition` | src/views/misFavs.js:43-47 | with one other record stored and shown, removing that record on a favorites screen loaded before the place screen's addition wipes the added record too, while the place screen's flag stays true |
| `Scenarios.NewRecordColor` | src/views/misFavs.js:114 | storing 'N/A' for a missing or zero polarity gives the same colour as the raw polarity would: the low band |

## Findings

| source | as written | input that shows it | evidently intended | confidence | as-written member | corrected member |
|---|---|---|---|---|---|---|
| src/views/specificPlace.js:119 | `flags[lang] \|\| '🌐'` looks the code up on a plain object literal, so names inherited from the object prototype are found and, being functions or objects, are truthy | a review whose language is `constructor` (or `toString`, `__proto__`, ...) gets a function or an object instead of a flag | the globe for every code outside the seven | not executed; real only if the catalog ever sends such a language string | `SpecificPlace.GetLanguageEmojiAsWritten` (shown by `SpecificPlace.ConstructorIsNotAFlag`) | `SpecificPlace.GetLanguageEmoji` |

## Left out

- Rendering, styles, alert pop-ups, `console.error` logging in the catch
  blocks and navigation are left out. They hold no state the list depends
  on. The success alert of `toggleFavorite` is shown
  before the write, so a failed write shows both "Success" and "Error".
- Network fetches of the place and its reviews are left out. They are remote
  I/O. The fetched place enters as a parameter of `PlaceScreen`'s
  constructor. So `setup`, which fetches and then checks the flag, is not
  modelled as one step.
- The storage engine and JSON serialization are left out. The slot is
  `Option<seq<Fav>>` and parse/stringify is the identity. A read that fails
  and a stored text that does not parse are the same `readFault` case.
- Concurrency is left out: two toggles in flight, or two screens writing
  between another's read and write. Each operation is one atomic step. The
  stale-copy effect of `removeFavorite` is modelled across steps
  (`Scenarios.StaleRemoveLosesAddition`).
- `src/database/db.js` is not part of this model. It wraps an SQL engine
  that is not shown, and no screen uses it.
- Review date formatting is left out, because it depends on the locale.
- Navigation from a favorite is left out. It passes `place.place_id`
  (src/views/misFavs.js:103), which the record builder never sets, so that
  navigation receives an undefined id.
- Ids and polarities are integers. Non-integer polarities, `NaN` and ids
  whose JavaScript types differ under `===` are not modelled.
- The shape of the fetched place is limited. Name and address are strings,
  and the category is a string or missing. Other shapes are not modelled;
  for example, a non-string category would make `toLowerCase` throw.
- `MisFavs.LowerChar`: models only ASCII capitals and the Kelvin sign, not
  the full Unicode lower-case mapping. Every other character is left as is.
  No other character lower-cases to an ASCII letter, so this does not change
  whether a category equals one of the six ASCII names, which is the only
  use of the lower case.
- `MisFavs.LowerCase`: keeps the length of the string (`|r| == |s|`), whereas
  JavaScript's lower case can grow it: U+0130 lower-cases to two characters.
  As with `MisFavs.LowerChar`, no such expansion yields one of the six names.
- Uniqueness by id, upsert on add, a saved-at timestamp and typed store
  errors are left out, because the code implements none of them.
