/** The favourites collection endpoint (app/api/favorites/route.ts): `GET`
    lists the caller's saved places newest first, `POST` saves one, turning
    a duplicate-key refusal into a 400. */
module FavoritesRoute {
  import opened Common
  import opened ItineraryModel
  import opened FavoriteModel
  import opened Store

  /** The caller's favourites, `{user: u}`. */
  function OwnFavorites(favs: map<Id, Favorite>, u: Id): (r: map<Id, Favorite>)
    ensures forall k :: k in r <==> k in favs && favs[k].user == u
    ensures forall k :: k in r ==> r[k] == favs[k]
  {
    map k | k in favs && favs[k].user == u :: favs[k]
  }

  /** `GET /api/favorites`: 401 without a caller; otherwise exactly the
      caller's favourites, each once, newest first. */
  ghost function ListFavorites(favs: map<Id, Favorite>, session: Option<SessionUser>): (r: Response<seq<Favorite>>)
    requires forall k :: k in favs ==> favs[k].id == k
    ensures CallerId(session).None? ==> r == Err(401, "Unauthorized")
    ensures CallerId(session).Some? ==> r.Ok? && r.status == 200
    ensures r.Ok? ==>
      var u := CallerId(session).value;
      && |r.value| == |OwnFavorites(favs, u)|
      && (forall i :: 0 <= i < |r.value| ==> r.value[i].id in favs && favs[r.value[i].id] == r.value[i])
      && (forall i :: 0 <= i < |r.value| ==> r.value[i].user == u)
      && (forall k :: k in favs && favs[k].user == u ==> favs[k] in r.value)
    ensures r.Ok? ==> forall i, j :: 0 <= i < j < |r.value| ==>
      r.value[i].id != r.value[j].id && r.value[i].createdAt >= r.value[j].createdAt
  {
    var caller := CallerId(session);
    if caller.None? then Err(401, "Unauthorized")
    else
      var mine := OwnFavorites(favs, caller.value);
      var stamp := (x: Favorite) => x.createdAt;
      var key := (x: Favorite) => x.id;
      NewestFirstComplete(mine, stamp, key);
      NewestFirstOrdered(mine, stamp, key);
      Ok(200, NewestFirst(mine, stamp))
  }

  /** The fields `POST /api/favorites` reads from the request body. */
  datatype FavoriteBody = FavoriteBody(
    name: Option<string>,
    address: Option<string>,
    lat: Json<Coord>,
    lng: Json<Coord>,
    placeId: Option<string>,
    notes: Option<string>)

  /** The handler's guard: a truthy name and address, and coordinates that
      are not `undefined`. A coordinate of 0, or null, gets through. */
  predicate HasRequiredFields(b: FavoriteBody)
  {
    Truthy(b.name) && Truthy(b.address) && !b.lat.Undefined? && !b.lng.Undefined?
  }

  function CreateInput(b: FavoriteBody, caller: Id): (r: FavoriteInput)
    ensures r.user == Some(caller)
    ensures r.name == b.name && r.address == b.address && r.lat == b.lat && r.lng == b.lng
    ensures r.placeId == b.placeId && r.notes == b.notes
  {
    FavoriteInput(Some(caller), b.name, b.address, b.lat, b.lng, b.placeId, b.notes)
  }

  const AlreadySaved := "This location is already in your favorites"

  /** The handler's `catch`: a duplicate-key error (code 11000) is the
      caller's mistake, 400; anything else is a 500 with its message. */
  function CreateError(e: DbError): (r: Response<Favorite>)
    ensures r.Err?
    ensures r.status == 400 <==> ErrorCode(e) == Some(11000)
    ensures r.status == 400 ==> r.error == AlreadySaved
    ensures r.status != 400 ==> r.status == 500 && r.error == ErrorMessage(e)
  {
    if ErrorCode(e) == Some(11000) then Err(400, AlreadySaved) else Err(500, ErrorMessage(e))
  }

  /** `POST /api/favorites`: 401 without a caller, 400 when the guard fails,
      then `Favorite.create`: 500 when the schema refuses, 400 when the
      (user, placeId) index (or the id) is taken, else 201 with the stored
      favourite. A refused request stores nothing. */
  method PostFavorite(db: Db, session: Option<SessionUser>, body: FavoriteBody, newId: Id, now: Millis)
    returns (r: Response<Favorite>)
    requires db.Valid()
    modifies db`favorites
    ensures db.Valid()
    ensures CallerId(session).None? ==> r == Err(401, "Unauthorized")
    ensures CallerId(session).Some? && !HasRequiredFields(body) ==> r == Err(400, "Missing required fields")
    ensures CallerId(session).Some? && HasRequiredFields(body) ==>
      var input := CreateInput(body, CallerId(session).value);
      && (!FavoriteModel.Acceptable(input) ==> r == Err(500, ValidationMessage("Favorite", FavoriteErrors(input))))
      && (FavoriteModel.Acceptable(input) ==>
            var f := BuildFavorite(newId, input, now).value;
            && (newId in old(db.favorites) || KeyTaken(old(db.favorites), f) ==> r == Err(400, AlreadySaved))
            && (newId !in old(db.favorites) && !KeyTaken(old(db.favorites), f) ==>
                  r == Ok(201, f) && db.favorites == old(db.favorites)[newId := f]))
    ensures r.Ok? ==> r.status == 201 && r.value.user == CallerId(session).value
    ensures r.Err? ==> db.favorites == old(db.favorites)
  {
    var caller := CallerId(session);
    if caller.None? {
      return Err(401, "Unauthorized");
    }
    if !HasRequiredFields(body) {
      return Err(400, "Missing required fields");
    }
    var created := db.CreateFavorite(CreateInput(body, caller.value), newId, now);
    if created.Failure? {
      return CreateError(created.error);
    }
    r := Ok(201, created.value);
  }

  /** A place on the equator or the prime meridian (a coordinate of 0)
      passes the guard: only an absent coordinate is refused there. */
  lemma ZeroCoordinateAccepted(b: FavoriteBody, caller: Id)
    requires Truthy(b.name) && Truthy(b.address)
    requires b.lat == Value(0.0) && b.lng == Value(0.0)
    ensures HasRequiredFields(b)
    ensures FavoriteModel.Acceptable(CreateInput(b, caller)) <==>
      !AllSpace(b.name.value) && !AllSpace(b.address.value) && (b.notes.Some? ==> |b.notes.value| <= MaxNotes)
  {
  }

  /** A null coordinate passes the guard but not the schema's `required`,
      so it comes back as a 500, not a 400. */
  lemma NullCoordinateIsServerError(b: FavoriteBody, caller: Id)
    requires HasRequiredFields(b) && b.lat.Null?
    ensures !FavoriteModel.Acceptable(CreateInput(b, caller))
    ensures FieldError("lat", RequiredMessage("lat")) in FavoriteErrors(CreateInput(b, caller))
  {
    var input := CreateInput(b, caller);
    var pre := Required("user", input.user, RequiredMessage("user"))
      + RequiredTrimmed("name", input.name, "Please provide a name")
      + RequiredTrimmed("address", input.address, RequiredMessage("address"));
    var post := RequiredNumber("lng", input.lng)
      + MaxLength("notes", input.notes, MaxNotes, "Notes cannot exceed 500 characters");
    assert FavoriteErrors(input) == pre + RequiredNumber("lat", input.lat) + post;
    assert FavoriteErrors(input)[|pre|] == FieldError("lat", RequiredMessage("lat"));
  }
}
