/** The Favorite document (models/Favorite.ts): a place a user saved, and the
    unique (user, placeId) index. */
module FavoriteModel {
  import opened Common
  import opened ItineraryModel

  datatype Favorite = Favorite(
    id: Id,
    user: Id,
    name: string,
    address: string,
    lat: Coord,
    lng: Coord,
    placeId: Option<string>,
    notes: Option<string>,
    createdAt: Millis)

  /** A favourite as handed to `Favorite.create`. `lat` and `lng` keep the
      difference between an absent and a null value. */
  datatype FavoriteInput = FavoriteInput(
    user: Option<Id>,
    name: Option<string>,
    address: Option<string>,
    lat: Json<Coord>,
    lng: Json<Coord>,
    placeId: Option<string>,
    notes: Option<string>)

  const MaxNotes: nat := 500

  /** A required number: both undefined and null fail. */
  function RequiredNumber(path: string, v: Json<Coord>): (e: seq<FieldError>)
    ensures e == [] <==> v.Value?
  {
    if !v.Value? then [FieldError(path, RequiredMessage(path))] else []
  }

  /** The schema's rules, field by field. */
  predicate Acceptable(f: FavoriteInput)
  {
    && f.user.Some?
    && f.name.Some? && !AllSpace(f.name.value)
    && f.address.Some? && !AllSpace(f.address.value)
    && f.lat.Value? && f.lng.Value?
    && (f.notes.Some? ==> |f.notes.value| <= MaxNotes)
  }

  function FavoriteErrors(f: FavoriteInput): (e: seq<FieldError>)
    ensures e == [] <==> Acceptable(f)
  {
    Required("user", f.user, RequiredMessage("user"))
    + RequiredTrimmed("name", f.name, "Please provide a name")
    + RequiredTrimmed("address", f.address, RequiredMessage("address"))
    + RequiredNumber("lat", f.lat)
    + RequiredNumber("lng", f.lng)
    + MaxLength("notes", f.notes, MaxNotes, "Notes cannot exceed 500 characters")
  }

  /** What every stored favourite satisfies. */
  predicate SchemaValid(f: Favorite)
  {
    && f.name != "" && Trimmed(f.name)
    && f.address != "" && Trimmed(f.address)
    && (f.notes.Some? ==> |f.notes.value| <= MaxNotes)
  }

  /** Casts `f` into a favourite created at `now`, or lists the failing
      paths: name and address trimmed and not blank, both coordinates
      present (null counts as missing), notes at most 500 characters. */
  function BuildFavorite(id: Id, f: FavoriteInput, now: Millis): (r: Result<Favorite, seq<FieldError>>)
    ensures r.Success? <==> Acceptable(f)
    ensures r.Failure? ==> r.error != [] && r.error == FavoriteErrors(f)
    ensures r.Success? ==> SchemaValid(r.value)
    ensures r.Success? ==>
      && r.value.id == id && r.value.user == f.user.value
      && r.value.name == Trim(f.name.value) && r.value.address == Trim(f.address.value)
      && r.value.lat == f.lat.v && r.value.lng == f.lng.v
      && r.value.placeId == f.placeId && r.value.notes == f.notes
      && r.value.createdAt == now
  {
    if !Acceptable(f) then Failure(FavoriteErrors(f))
    else
      TrimFilled(f.name.value);
      TrimFilled(f.address.value);
      Success(Favorite(id, f.user.value, Trim(f.name.value), Trim(f.address.value),
                       f.lat.v, f.lng.v, f.placeId, f.notes, now))
  }

  // ---------------------------------------------------------------------
  // The unique (user, placeId) index
  // ---------------------------------------------------------------------

  /** No two stored favourites share the key (user, placeId). */
  predicate UniqueUserPlace(favs: map<Id, Favorite>)
  {
    forall a, b :: a in favs && b in favs && a != b ==>
      favs[a].user != favs[b].user || favs[a].placeId != favs[b].placeId
  }

  /** Whether a stored favourite already holds the key of `f`. */
  predicate KeyTaken(favs: map<Id, Favorite>, f: Favorite)
  {
    exists k :: k in favs && favs[k].user == f.user && favs[k].placeId == f.placeId
  }

  /** Every favourite is stored under its own id and passed the schema. */
  predicate AllStored(favs: map<Id, Favorite>)
  {
    forall k :: k in favs ==> favs[k].id == k && SchemaValid(favs[k])
  }

  lemma InsertKeepsAllStored(favs: map<Id, Favorite>, f: Favorite)
    requires AllStored(favs) && SchemaValid(f)
    ensures AllStored(favs[f.id := f])
  {
  }

  /** An insert the index lets through keeps the index unique. */
  lemma InsertKeepsUniqueUserPlace(favs: map<Id, Favorite>, f: Favorite)
    requires UniqueUserPlace(favs)
    requires f.id !in favs && !KeyTaken(favs, f)
    ensures UniqueUserPlace(favs[f.id := f])
  {
  }

  /** Another user's favourites never block an insert: the key holds the
      user, so only the caller's own favourites can collide. */
  lemma OtherUsersDoNotCollide(favs: map<Id, Favorite>, f: Favorite)
    ensures KeyTaken(favs, f) <==> KeyTaken(map k | k in favs && favs[k].user == f.user :: favs[k], f)
  {
    var mine := map k | k in favs && favs[k].user == f.user :: favs[k];
    if KeyTaken(favs, f) {
      var k :| k in favs && favs[k].user == f.user && favs[k].placeId == f.placeId;
      assert k in mine;
    }
  }
}
