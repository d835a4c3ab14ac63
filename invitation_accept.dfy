/** Accepting an invitation (app/api/invitations/accept/route.ts): find the
    caller's pending, unexpired invitation by token, add the caller to its
    trip with the invitation's role, then mark the invitation accepted. */
module InvitationAccept {
  import opened Common
  import opened TripModel
  import opened InvitationModel
  import opened Store

  /** `trip.participants.push({user, role, joinedAt})`: one entry more, at
      the end; the earlier entries and every other field stay as they were. */
  function JoinTrip(t: Trip, user: Id, role: Role, now: Millis): (r: Trip)
    ensures r == t.(participants := r.participants)
    ensures |r.participants| == |t.participants| + 1
    ensures r.participants[..|t.participants|] == t.participants
    ensures r.participants[|t.participants|] == Participant(user, role, now)
  {
    t.(participants := t.participants + [Participant(user, role, now)])
  }

  /** Joining never checks who is already there: a caller who is a
      participant already ends up listed twice. */
  lemma JoinDoesNotDeduplicate(t: Trip, user: Id, role: Role, now: Millis, k: nat)
    requires k < |t.participants| && t.participants[k].user == user
    ensures var ps := JoinTrip(t, user, role, now).participants;
            k < |t.participants| < |ps| && ps[k].user == user && ps[|t.participants|].user == user
  {
    var ps := JoinTrip(t, user, role, now).participants;
    assert ps[k] == ps[..|t.participants|][k];
  }

  /** The caller's session email, when both id and email are truthy. */
  function CallerEmail(session: Option<SessionUser>): (r: Option<string>)
    ensures r.Some? <==> CallerId(session).Some? && Truthy(session.value.email)
    ensures r.Some? ==> r == session.value.email && r.value != ""
  {
    if CallerId(session).Some? && Truthy(session.value.email) then session.value.email else None
  }

  /** Whether the lookup `{token, email, status: 'pending', expiresAt > now}`
      finds an invitation, `key` being the cast filter value. */
  predicate HasPendingMatch(invs: map<Id, Invitation>, token: string, key: string, now: Millis)
  {
    exists id :: id in invs && PendingMatch(invs, id, token, key, now)
  }

  /** The handler past its guards: look up the pending, unexpired
      invitation holding `token` whose address is `key` (the cast filter
      value); 400 when there is none, 404 when its trip is gone, else the
      trip gains `caller` with the invitation's role (then runs its pre-save
      hook), the invitation becomes accepted, and the reply is 200 with the
      saved trip. Only that last case changes the store. */
  method Redeem(db: Db, caller: Id, token: string, key: string, now: Millis)
    returns (r: Response<Trip>)
    requires db.Valid()
    modifies db`trips, db`invitations
    ensures db.Valid()
    ensures !HasPendingMatch(old(db.invitations), token, key, now) ==> r == Err(400, "Invalid or expired invitation")
    ensures forall id :: id in old(db.invitations) && PendingMatch(old(db.invitations), id, token, key, now) ==>
      var inv := old(db.invitations)[id];
      && (inv.trip !in old(db.trips) ==> r == Err(404, "Trip not found"))
      && (inv.trip in old(db.trips) ==>
            var joined := SaveTrip(JoinTrip(old(db.trips)[inv.trip], caller, inv.role, now), now);
            && r == Ok(200, joined)
            && db.trips == old(db.trips)[inv.trip := joined]
            && db.invitations == old(db.invitations)[id := inv.(status := Accepted)])
    ensures r.Err? ==> db.trips == old(db.trips) && db.invitations == old(db.invitations)
    ensures r.Ok? ==> forall id, later :: id in db.invitations ==> !PendingMatch(db.invitations, id, token, key, later)
  {
    if !HasPendingMatch(db.invitations, token, key, now) {
      return Err(400, "Invalid or expired invitation");
    }
    var id :| id in db.invitations && PendingMatch(db.invitations, id, token, key, now);
    var inv := db.invitations[id];
    forall other | other in db.invitations && PendingMatch(db.invitations, other, token, key, now)
      ensures other == id
    {
      PendingMatchUnique(db.invitations, id, other, token, key, now);
    }
    if inv.trip !in db.trips {
      return Err(404, "Trip not found");
    }
    var trip := db.trips[inv.trip];
    var joined := SaveTrip(JoinTrip(trip, caller, inv.role, now), now);
    db.PutTrip(joined);
    db.PutInvitation(inv.(status := Accepted));
    r := Ok(200, joined);
  }

  /** `POST /api/invitations/accept`. The replies, in the order the handler
      checks: 401 without an id and an email; 400 without a token; then
      `Redeem` with the session email cast as the query casts it, so an
      address differing only in case or surrounding whitespace still finds
      its invitation. */
  method Accept(db: Db, session: Option<SessionUser>, token: Option<string>, now: Millis)
    returns (r: Response<Trip>)
    requires db.Valid()
    modifies db`trips, db`invitations
    ensures db.Valid()
    ensures CallerEmail(session).None? ==> r == Err(401, "Unauthorized")
    ensures CallerEmail(session).Some? && !Truthy(token) ==> r == Err(400, "Please provide an invitation token")
    ensures CallerEmail(session).Some? && Truthy(token) ==>
      var key := NormaliseEmail(CallerEmail(session).value);
      && (!HasPendingMatch(old(db.invitations), token.value, key, now) ==>
            r == Err(400, "Invalid or expired invitation"))
      && (forall id :: id in old(db.invitations) && PendingMatch(old(db.invitations), id, token.value, key, now) ==>
            var inv := old(db.invitations)[id];
            && (inv.trip !in old(db.trips) ==> r == Err(404, "Trip not found"))
            && (inv.trip in old(db.trips) ==>
                  var joined := SaveTrip(JoinTrip(old(db.trips)[inv.trip], CallerId(session).value, inv.role, now), now);
                  && r == Ok(200, joined)
                  && db.trips == old(db.trips)[inv.trip := joined]
                  && db.invitations == old(db.invitations)[id := inv.(status := Accepted)]))
    ensures r.Err? ==> db.trips == old(db.trips) && db.invitations == old(db.invitations)
    ensures r.Ok? ==> forall id, later :: id in db.invitations ==>
                        !PendingMatch(db.invitations, id, token.value, NormaliseEmail(CallerEmail(session).value), later)
  {
    var email := CallerEmail(session);
    if email.None? {
      return Err(401, "Unauthorized");
    }
    if !Truthy(token) {
      return Err(400, "Please provide an invitation token");
    }
    r := Redeem(db, CallerId(session).value, token.value, NormaliseEmail(email.value), now);
  }

  /** Replaying an accepted token, at any later time, is refused by the
      pending lookup: the second call answers 400 and changes nothing. */
  method AcceptTwice(db: Db, session: Option<SessionUser>, token: Option<string>, now: Millis, later: Millis)
    returns (first: Response<Trip>, second: Response<Trip>)
    requires db.Valid()
    modifies db`trips, db`invitations
    ensures db.Valid()
    ensures first.Ok? ==> second == Err(400, "Invalid or expired invitation")
  {
    first := Accept(db, session, token, now);
    second := Accept(db, session, token, later);
  }
}
