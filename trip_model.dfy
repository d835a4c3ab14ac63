/** The Trip document and its embedded Participant (models/Trip.ts): casting
    and defaults, the schema validators, and the pre-save hook that issues a
    shareable link. */
module TripModel {
  import opened Common

  datatype Role = Admin | Viewer

  function RoleName(r: Role): string
  {
    match r
    case Admin => "admin"
    case Viewer => "viewer"
  }

  /** The `enum: ['admin', 'viewer']` check on a role string. */
  function ParseRole(s: string): (r: Option<Role>)
    ensures r.Some? <==> s == "admin" || s == "viewer"
    ensures r.Some? ==> RoleName(r.value) == s
  {
    if s == "admin" then Some(Admin) else if s == "viewer" then Some(Viewer) else None
  }

  lemma ParseRoleName(r: Role)
    ensures ParseRole(RoleName(r)) == Some(r)
  {
  }

  datatype Participant = Participant(user: Id, role: Role, joinedAt: Millis)

  /** A stored trip. */
  datatype Trip = Trip(
    id: Id,
    title: string,
    description: Option<string>,
    destination: string,
    startDate: Millis,
    endDate: Millis,
    createdBy: Id,
    participants: seq<Participant>,
    isPublic: bool,
    shareableLink: Option<string>,
    createdAt: Millis)

  /** A participant as handed to the model, before casting and defaults. */
  datatype ParticipantInput = ParticipantInput(user: Option<Id>, role: Option<string>, joinedAt: Option<Millis>)

  /** A trip as handed to `Trip.create`, before casting and defaults. */
  datatype TripInput = TripInput(
    title: Option<string>,
    description: Option<string>,
    destination: Option<string>,
    startDate: Option<Millis>,
    endDate: Option<Millis>,
    createdBy: Option<Id>,
    participants: seq<ParticipantInput>,
    isPublic: Option<bool>,
    shareableLink: Option<string>)

  const MaxDescription: nat := 1000

  /** What every stored trip satisfies once the schema accepted it. */
  predicate SchemaValid(t: Trip)
  {
    && t.title != "" && Trimmed(t.title)
    && t.destination != "" && Trimmed(t.destination)
    && (t.description.Some? ==> |t.description.value| <= MaxDescription)
    && t.endDate > t.startDate
  }

  // ---------------------------------------------------------------------
  // Participant sub-document
  // ---------------------------------------------------------------------

  /** The role after the default: absent means `admin`. */
  function ParticipantRole(role: Option<string>): Option<Role>
  {
    if role.None? then Some(Admin) else ParseRole(role.value)
  }

  function ParticipantErrors(p: ParticipantInput, index: nat): (e: seq<FieldError>)
    ensures e == [] <==> p.user.Some? && ParticipantRole(p.role).Some?
  {
    var prefix := "participants." + NatToString(index) + ".";
    Required(prefix + "user", p.user, RequiredMessage("user"))
    + (if ParticipantRole(p.role).None? then [FieldError(prefix + "role", EnumMessage(p.role.value, "role"))] else [])
  }

  /** The errors of the participants from position `from` on. */
  function ParticipantsErrors(ps: seq<ParticipantInput>, from: nat): (e: seq<FieldError>)
    ensures e == [] <==> forall k :: 0 <= k < |ps| ==> ps[k].user.Some? && ParticipantRole(ps[k].role).Some?
    decreases |ps|
  {
    if ps == [] then []
    else ParticipantErrors(ps[0], from) + ParticipantsErrors(ps[1..], from + 1)
  }

  /** A participant after the defaults: role `admin`, joined at `now`. */
  function CastParticipant(p: ParticipantInput, now: Millis): (r: Participant)
    requires p.user.Some? && ParticipantRole(p.role).Some?
    ensures r.user == p.user.value
    ensures r.role == (if p.role.None? then Admin else ParseRole(p.role.value).value)
    ensures r.joinedAt == (if p.joinedAt.Some? then p.joinedAt.value else now)
  {
    Participant(p.user.value, ParticipantRole(p.role).value,
                if p.joinedAt.Some? then p.joinedAt.value else now)
  }

  /** Casts every participant, keeping their order. */
  function CastParticipants(ps: seq<ParticipantInput>, now: Millis): (r: seq<Participant>)
    requires forall k :: 0 <= k < |ps| ==> ps[k].user.Some? && ParticipantRole(ps[k].role).Some?
    ensures |r| == |ps|
    ensures forall k :: 0 <= k < |ps| ==> r[k] == CastParticipant(ps[k], now)
  {
    if ps == [] then [] else [CastParticipant(ps[0], now)] + CastParticipants(ps[1..], now)
  }

  // ---------------------------------------------------------------------
  // Trip document
  // ---------------------------------------------------------------------

  /** The `endDate` validator `value > this.startDate`. An absent end date
      fails `required` instead; an absent start date makes the comparison
      false, as `value > undefined` is in JavaScript. */
  function EndDateErrors(startDate: Option<Millis>, endDate: Option<Millis>): (e: seq<FieldError>)
    ensures e == [] <==> startDate.Some? && endDate.Some? && endDate.value > startDate.value
  {
    if endDate.None? then [FieldError("endDate", "Please provide an end date")]
    else if startDate.None? || !(endDate.value > startDate.value) then
      [FieldError("endDate", "End date must be after start date")]
    else []
  }

  /** The schema's errors, path by path in schema order. */
  function TripErrors(t: TripInput): seq<FieldError>
  {
    RequiredTrimmed("title", t.title, "Please provide a trip title")
    + MaxLength("description", t.description, MaxDescription, "Description cannot exceed 1000 characters")
    + RequiredTrimmed("destination", t.destination, "Please provide a destination")
    + Required("startDate", t.startDate, "Please provide a start date")
    + EndDateErrors(t.startDate, t.endDate)
    + Required("createdBy", t.createdBy, RequiredMessage("createdBy"))
    + ParticipantsErrors(t.participants, 0)
  }

  /** The rules of the schema, stated field by field. */
  predicate Acceptable(t: TripInput)
  {
    && t.title.Some? && !AllSpace(t.title.value)
    && (t.description.Some? ==> |t.description.value| <= MaxDescription)
    && t.destination.Some? && !AllSpace(t.destination.value)
    && t.startDate.Some? && t.endDate.Some? && t.endDate.value > t.startDate.value
    && t.createdBy.Some?
    && forall k :: 0 <= k < |t.participants| ==>
         t.participants[k].user.Some? && ParticipantRole(t.participants[k].role).Some?
  }

  lemma TripErrorsEmptyIff(t: TripInput)
    ensures TripErrors(t) == [] <==> Acceptable(t)
  {
  }

  /** The document `Trip.create` builds from an acceptable input: trimmed
      strings, the `isPublic` default `false`, the participants' defaults. */
  function CastTrip(id: Id, t: TripInput, now: Millis): (r: Trip)
    requires Acceptable(t)
    ensures SchemaValid(r)
    ensures
      && r.id == id
      && r.title == Trim(t.title.value)
      && r.destination == Trim(t.destination.value)
      && r.description == t.description
      && r.startDate == t.startDate.value
      && r.endDate == t.endDate.value
      && r.createdBy == t.createdBy.value
      && r.isPublic == (t.isPublic == Some(true))
      && r.shareableLink == t.shareableLink
      && r.createdAt == now
    ensures r.participants == CastParticipants(t.participants, now)
  {
    TrimFilled(t.title.value);
    TrimFilled(t.destination.value);
    Trip(
      id,
      Trim(t.title.value),
      t.description,
      Trim(t.destination.value),
      t.startDate.value,
      t.endDate.value,
      t.createdBy.value,
      CastParticipants(t.participants, now),
      if t.isPublic.Some? then t.isPublic.value else false,
      t.shareableLink,
      now)
  }

  /** Casts `t` into a trip with id `id` created at `now`, or reports every
      failing path: required fields, trimmed strings, the description cap,
      `endDate > startDate`, and the participants' `user` and `role`. */
  function BuildTrip(id: Id, t: TripInput, now: Millis): (r: Result<Trip, seq<FieldError>>)
    ensures r.Success? <==> Acceptable(t)
    ensures r.Failure? ==> r.error != [] && r.error == TripErrors(t)
    ensures r.Success? ==> r.value == CastTrip(id, t, now)
  {
    TripErrorsEmptyIff(t);
    if Acceptable(t) then Success(CastTrip(id, t, now)) else Failure(TripErrors(t))
  }

  // ---------------------------------------------------------------------
  // Pre-save hook
  // ---------------------------------------------------------------------

  /** The hook's guard `this.isPublic && !this.shareableLink`. */
  predicate NeedsLink(t: Trip)
  {
    t.isPublic && (t.shareableLink.None? || t.shareableLink.value == "")
  }

  function ShareableLink(id: Id, stamp: Millis): string
  {
    "trip-" + id + "-" + NatToString(stamp)
  }

  /** The pre-save hook, run with the clock reading `stamp`: a public trip
      without a link gets `trip-<id>-<stamp>`; nothing else changes, and a
      trip that is private or already has a link is left as it is. */
  function PreSave(t: Trip, stamp: Millis): (r: Trip)
    ensures r == t.(shareableLink := r.shareableLink)
    ensures NeedsLink(t) ==> r.shareableLink == Some(ShareableLink(t.id, stamp))
    ensures !NeedsLink(t) ==> r == t
    ensures !NeedsLink(r)
  {
    if NeedsLink(t) then t.(shareableLink := Some(ShareableLink(t.id, stamp))) else t
  }

  /** Once the hook has run, running it again (at any time) changes nothing:
      an existing link is never replaced. */
  lemma PreSaveIdempotent(t: Trip, stamp1: Millis, stamp2: Millis)
    ensures PreSave(PreSave(t, stamp1), stamp2) == PreSave(t, stamp1)
  {
  }

  /** The digits at the end of a link give back the clock reading it was
      made with. */
  lemma {:induction false} ShareableLinkStamp(id: Id, stamp: Millis)
    ensures var link := ShareableLink(id, stamp);
            var digits := link[|"trip-" + id + "-"|..];
            (forall k :: 0 <= k < |digits| ==> IsDigit(digits[k])) && DigitsValue(digits) == stamp
  {
    var link := ShareableLink(id, stamp);
    assert link[|"trip-" + id + "-"|..] == NatToString(stamp);
    NatToStringRoundTrip(stamp);
  }

  /** The hook keeps a trip schema-valid: it touches only the link. */
  lemma PreSaveKeepsValid(t: Trip, stamp: Millis)
    requires SchemaValid(t)
    ensures SchemaValid(PreSave(t, stamp))
  {
  }

  /** Every trip is stored under its own id and passed the schema. */
  predicate AllStored(trips: map<Id, Trip>)
  {
    forall k :: k in trips ==> trips[k].id == k && SchemaValid(trips[k])
  }

  lemma InsertKeepsAllStored(trips: map<Id, Trip>, t: Trip)
    requires AllStored(trips) && SchemaValid(t)
    ensures AllStored(trips[t.id := t])
  {
  }

  /** `trip.save()` on a trip the schema accepts: the pre-save hook, and
      the new state is stored. */
  function SaveTrip(t: Trip, now: Millis): (r: Trip)
    requires SchemaValid(t)
    ensures SchemaValid(r) && r.id == t.id && r.participants == t.participants
  {
    PreSave(t, now)
  }
}
