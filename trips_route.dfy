/** The trips collection endpoint (app/api/trips/route.ts): `GET` lists the
    caller's trips newest first, `POST` creates a trip with the caller as
    its sole admin participant. */
module TripsRoute {
  import opened Common
  import opened TripModel
  import opened Store

  /** The filter `{$or: [{createdBy: u}, {'participants.user': u}]}`. */
  predicate IsMember(t: Trip, u: Id)
  {
    t.createdBy == u || exists k :: 0 <= k < |t.participants| && t.participants[k].user == u
  }

  /** The stored trips the filter keeps. */
  function MemberTrips(trips: map<Id, Trip>, u: Id): (r: map<Id, Trip>)
    ensures forall k :: k in r <==> k in trips && IsMember(trips[k], u)
    ensures forall k :: k in r ==> r[k] == trips[k]
  {
    map k | k in trips && IsMember(trips[k], u) :: trips[k]
  }

  /** `GET /api/trips`: 401 without a caller; otherwise every stored trip the
      caller created or takes part in, each once, newest `createdAt` first. */
  ghost function ListTrips(trips: map<Id, Trip>, session: Option<SessionUser>): (r: Response<seq<Trip>>)
    requires forall k :: k in trips ==> trips[k].id == k
    ensures CallerId(session).None? ==> r == Err(401, "Unauthorized")
    ensures CallerId(session).Some? ==> r.Ok? && r.status == 200
    ensures r.Ok? ==>
      var u := CallerId(session).value;
      && |r.value| == |MemberTrips(trips, u)|
      && (forall i :: 0 <= i < |r.value| ==> r.value[i].id in trips && trips[r.value[i].id] == r.value[i])
      && (forall i :: 0 <= i < |r.value| ==> IsMember(r.value[i], u))
      && (forall k :: k in trips && IsMember(trips[k], u) ==> trips[k] in r.value)
    ensures r.Ok? ==> forall i, j :: 0 <= i < j < |r.value| ==>
      r.value[i].id != r.value[j].id && r.value[i].createdAt >= r.value[j].createdAt
  {
    var caller := CallerId(session);
    if caller.None? then Err(401, "Unauthorized")
    else
      var mine := MemberTrips(trips, caller.value);
      var stamp := (x: Trip) => x.createdAt;
      var key := (x: Trip) => x.id;
      NewestFirstComplete(mine, stamp, key);
      NewestFirstOrdered(mine, stamp, key);
      Ok(200, NewestFirst(mine, stamp))
  }

  /** The fields `POST /api/trips` reads from the request body. Dates are
      the instants `new Date(...)` makes of them; a date the body leaves out
      or leaves empty is `None`. */
  datatype TripBody = TripBody(
    title: Option<string>,
    description: Option<string>,
    destination: Option<string>,
    startDate: Option<Millis>,
    endDate: Option<Millis>,
    isPublic: Option<bool>)

  /** The handler's own guard `title && destination && startDate && endDate`. */
  predicate HasRequiredFields(b: TripBody)
  {
    Truthy(b.title) && Truthy(b.destination) && b.startDate.Some? && b.endDate.Some?
  }

  /** What the handler hands to `Trip.create`: the caller as creator and as
      the one admin participant joined at `now`, `isPublic || false`. */
  function CreateInput(b: TripBody, caller: Id, now: Millis): (r: TripInput)
    requires HasRequiredFields(b)
    ensures r.createdBy == Some(caller) && r.shareableLink.None?
    ensures r.participants == [ParticipantInput(Some(caller), Some("admin"), Some(now))]
    ensures r.isPublic == Some(b.isPublic == Some(true))
  {
    TripInput(b.title, b.description, b.destination, b.startDate, b.endDate, Some(caller),
              [ParticipantInput(Some(caller), Some("admin"), Some(now))],
              Some(b.isPublic == Some(true)), None)
  }

  /** Past the handler's guard, only the schema's own rules can still fail:
      a title or destination that is blank once trimmed, an over-long
      description, or an end date not after the start date. */
  lemma CreateInputAcceptable(b: TripBody, caller: Id, now: Millis)
    requires HasRequiredFields(b)
    ensures TripModel.Acceptable(CreateInput(b, caller, now)) <==>
      && !AllSpace(b.title.value) && !AllSpace(b.destination.value)
      && (b.description.Some? ==> |b.description.value| <= MaxDescription)
      && b.endDate.value > b.startDate.value
  {
    var input := CreateInput(b, caller, now);
    assert input.participants[0].user.Some? && ParticipantRole(input.participants[0].role).Some?;
  }

  /** The 500 reply of the handler's `catch`: `error.message`. */
  function ServerError(e: DbError): (r: Response<Trip>)
    ensures r.Err? && r.status == 500 && r.error == ErrorMessage(e)
  {
    Err(500, ErrorMessage(e))
  }

  /** `POST /api/trips`: 401 without a caller, 400 when the guard fails,
      500 with the store's message when `Trip.create` refuses, else 201
      with the stored trip: the cast input after the pre-save hook, so a
      public trip carries its `trip-<id>-<stamp>` link and a private one
      none. A refused request stores nothing. */
  method PostTrip(db: Db, session: Option<SessionUser>, body: TripBody, newId: Id, now: Millis)
    returns (r: Response<Trip>)
    requires db.Valid()
    modifies db`trips
    ensures db.Valid()
    ensures CallerId(session).None? ==> r == Err(401, "Unauthorized")
    ensures CallerId(session).Some? && !HasRequiredFields(body) ==> r == Err(400, "Missing required fields")
    ensures CallerId(session).Some? && HasRequiredFields(body) ==>
      var input := CreateInput(body, CallerId(session).value, now);
      && (!TripModel.Acceptable(input) ==> r == Err(500, ValidationMessage("Trip", TripErrors(input))))
      && (r.Ok? <==> TripModel.Acceptable(input) && newId !in old(db.trips))
    ensures r.Ok? ==>
      && r.status == 201
      && r.value.id == newId
      && r.value.createdBy == CallerId(session).value
      && r.value.participants == [Participant(CallerId(session).value, Admin, now)]
      && r.value.isPublic == (body.isPublic == Some(true))
      && r.value.title == Trim(body.title.value)
      && r.value.destination == Trim(body.destination.value)
      && r.value.startDate == body.startDate.value && r.value.endDate == body.endDate.value
      && db.trips == old(db.trips)[newId := r.value]
    ensures r.Ok? ==>
      && CallerId(session).Some? && HasRequiredFields(body)
      && var input := CreateInput(body, CallerId(session).value, now);
      && TripModel.Acceptable(input)
      && r.value == PreSave(CastTrip(newId, input, now), now)
      && r.value.description == body.description
      && r.value.createdAt == now
      && r.value.shareableLink == (if body.isPublic == Some(true) then Some(ShareableLink(newId, now)) else None)
    ensures r.Err? ==> db.trips == old(db.trips)
  {
    var caller := CallerId(session);
    if caller.None? {
      return Err(401, "Unauthorized");
    }
    if !HasRequiredFields(body) {
      return Err(400, "Missing required fields");
    }
    var input := CreateInput(body, caller.value, now);
    var created := db.CreateTrip(input, newId, now);
    if created.Failure? {
      return ServerError(created.error);
    }
    r := Ok(201, created.value);
  }

  /** A title of spaces is truthy, so it passes the handler's guard, but the
      schema trims it to nothing: the request fails with 500, not 400. */
  lemma BlankTitleIsServerError(b: TripBody, caller: Id, now: Millis)
    requires HasRequiredFields(b) && Trim(b.title.value) == ""
    ensures !TripModel.Acceptable(CreateInput(b, caller, now))
    ensures TripErrors(CreateInput(b, caller, now))[0] == FieldError("title", "Please provide a trip title")
  {
    TrimBlank(b.title.value);
  }

  /** An end date on or before the start date passes the guard and is
      refused by the schema's validator, again as a 500. */
  lemma EndBeforeStartIsServerError(b: TripBody, caller: Id, now: Millis)
    requires HasRequiredFields(b) && b.endDate.value <= b.startDate.value
    ensures !TripModel.Acceptable(CreateInput(b, caller, now))
    ensures FieldError("endDate", "End date must be after start date") in TripErrors(CreateInput(b, caller, now))
  {
    var input := CreateInput(b, caller, now);
    var pre := RequiredTrimmed("title", input.title, "Please provide a trip title")
      + MaxLength("description", input.description, MaxDescription, "Description cannot exceed 1000 characters")
      + RequiredTrimmed("destination", input.destination, "Please provide a destination")
      + Required("startDate", input.startDate, "Please provide a start date");
    var post := Required("createdBy", input.createdBy, RequiredMessage("createdBy"))
      + ParticipantsErrors(input.participants, 0);
    assert TripErrors(input) == pre + EndDateErrors(input.startDate, input.endDate) + post;
    assert TripErrors(input)[|pre|] == FieldError("endDate", "End date must be after start date");
  }

  /** A trip the caller has just stored shows up in the caller's list. */
  lemma CreatedTripIsListed(trips: map<Id, Trip>, t: Trip, session: Option<SessionUser>)
    requires forall k :: k in trips ==> trips[k].id == k
    requires CallerId(session) == Some(t.createdBy)
    ensures t in ListTrips(trips[t.id := t], session).value
  {
    var after := trips[t.id := t];
    assert t.id in after && IsMember(after[t.id], t.createdBy);
  }
}
