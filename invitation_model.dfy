/** The Invitation document (models/Invitation.ts): a token-bearing offer to
    join a trip with a role, normalised invitee email, a three-state status
    and a seven-day expiry by default. */
module InvitationModel {
  import opened Common
  import opened TripModel

  datatype Status = Pending | Accepted | Rejected

  function StatusName(s: Status): string
  {
    match s
    case Pending => "pending"
    case Accepted => "accepted"
    case Rejected => "rejected"
  }

  /** The `enum: ['pending', 'accepted', 'rejected']` check. */
  function ParseStatus(s: string): (r: Option<Status>)
    ensures r.Some? <==> s == "pending" || s == "accepted" || s == "rejected"
    ensures r.Some? ==> StatusName(r.value) == s
  {
    if s == "pending" then Some(Pending)
    else if s == "accepted" then Some(Accepted)
    else if s == "rejected" then Some(Rejected)
    else None
  }

  lemma ParseStatusName(s: Status)
    ensures ParseStatus(StatusName(s)) == Some(s)
  {
  }

  datatype Invitation = Invitation(
    id: Id,
    trip: Id,
    invitedBy: Id,
    email: string,
    role: Role,
    status: Status,
    token: string,
    expiresAt: Millis,
    createdAt: Millis)

  /** An invitation as handed to the model, before setters and defaults. */
  datatype InvitationInput = InvitationInput(
    trip: Option<Id>,
    invitedBy: Option<Id>,
    email: Option<string>,
    role: Option<string>,
    status: Option<string>,
    token: Option<string>,
    expiresAt: Option<Millis>)

  /** Seven days in milliseconds: 7 * 24 * 60 * 60 * 1000. */
  const Lifetime: nat := 604800000

  /** The `lowercase` and `trim` setters of `email`. */
  function NormaliseEmail(s: string): string
  {
    Trim(ToLower(s))
  }

  /** An address in normal form: trimmed, with no upper-case letter. */
  predicate IsNormalEmail(s: string)
  {
    Trimmed(s) && Lowered(s)
  }

  /** Normalising gives an address in normal form. */
  lemma NormalisedIsNormal(s: string)
    ensures IsNormalEmail(NormaliseEmail(s))
  {
    TrimIdempotent(ToLower(s));
    TrimLowerCommute(s);
    ToLowerLowered(Trim(s));
  }

  /** An address in normal form is its own normalisation. */
  lemma NormalIsFixed(s: string)
    requires IsNormalEmail(s)
    ensures NormaliseEmail(s) == s
  {
    ToLowerLowered(s);
    TrimStartOfTrimmed(s);
    TrimEndOfTrimmed(s);
  }

  /** The normalised address is empty exactly when the address is all
      whitespace, so the `required` check after the setters is a check
      for blankness. */
  lemma NormaliseBlank(s: string)
    ensures NormaliseEmail(s) == "" <==> AllSpace(s)
  {
    TrimLowerCommute(s);
    TrimBlank(s);
  }

  /** Normalising twice is normalising once. */
  lemma NormaliseEmailIdempotent(s: string)
    ensures NormaliseEmail(NormaliseEmail(s)) == NormaliseEmail(s)
  {
    NormalisedIsNormal(s);
    NormalIsFixed(NormaliseEmail(s));
  }

  /** The role after the default: absent means `viewer`. */
  function InvitationRole(role: Option<string>): Option<Role>
  {
    if role.None? then Some(Viewer) else ParseRole(role.value)
  }

  /** The status after the default: absent means `pending`. */
  function InvitationStatus(status: Option<string>): Option<Status>
  {
    if status.None? then Some(Pending) else ParseStatus(status.value)
  }

  function InvitationErrors(i: InvitationInput): seq<FieldError>
  {
    Required("trip", i.trip, RequiredMessage("trip"))
    + Required("invitedBy", i.invitedBy, RequiredMessage("invitedBy"))
    + RequiredTrimmed("email", i.email, RequiredMessage("email"))
    + (if InvitationRole(i.role).None? then [FieldError("role", EnumMessage(i.role.value, "role"))] else [])
    + (if InvitationStatus(i.status).None? then [FieldError("status", EnumMessage(i.status.value, "status"))] else [])
    + RequiredString("token", i.token, RequiredMessage("token"))
  }

  /** The schema's rules, stated field by field. */
  predicate Acceptable(i: InvitationInput)
  {
    && i.trip.Some? && i.invitedBy.Some?
    && i.email.Some? && !AllSpace(i.email.value)
    && InvitationRole(i.role).Some?
    && InvitationStatus(i.status).Some?
    && Truthy(i.token)
  }

  /** What every stored invitation satisfies. */
  predicate SchemaValid(inv: Invitation)
  {
    inv.email != "" && IsNormalEmail(inv.email) && inv.token != ""
  }

  /** Casts `i` into an invitation created at `now`, or lists the failing
      paths. The stored email is the lower-cased, trimmed address; role,
      status and expiry take the schema's defaults when absent. */
  function BuildInvitation(id: Id, i: InvitationInput, now: Millis): (r: Result<Invitation, seq<FieldError>>)
    ensures r.Success? <==> Acceptable(i)
    ensures r.Failure? ==> r.error != [] && r.error == InvitationErrors(i)
    ensures r.Success? ==> SchemaValid(r.value)
    ensures r.Success? ==>
      && r.value.id == id && r.value.trip == i.trip.value && r.value.invitedBy == i.invitedBy.value
      && r.value.email == NormaliseEmail(i.email.value)
      && r.value.role == (if i.role.None? then Viewer else ParseRole(i.role.value).value)
      && r.value.status == (if i.status.None? then Pending else ParseStatus(i.status.value).value)
      && r.value.token == i.token.value
      && r.value.expiresAt == (if i.expiresAt.None? then now + Lifetime else i.expiresAt.value)
      && r.value.createdAt == now
  {
    if !Acceptable(i) then Failure(InvitationErrors(i))
    else
      NormalisedIsNormal(i.email.value);
      NormaliseBlank(i.email.value);
      Success(Invitation(
        id, i.trip.value, i.invitedBy.value,
        NormaliseEmail(i.email.value),
        InvitationRole(i.role).value,
        InvitationStatus(i.status).value,
        i.token.value,
        if i.expiresAt.Some? then i.expiresAt.value else now + Lifetime,
        now))
  }

  /** No two stored invitations share a token (the `unique` index). */
  predicate UniqueTokens(invs: map<Id, Invitation>)
  {
    forall a, b :: a in invs && b in invs && a != b ==> invs[a].token != invs[b].token
  }

  /** Whether a stored invitation already holds `token`. */
  predicate TokenTaken(invs: map<Id, Invitation>, token: string)
  {
    exists k :: k in invs && invs[k].token == token
  }

  /** An insert the index lets through keeps tokens unique. */
  lemma InsertKeepsUniqueTokens(invs: map<Id, Invitation>, inv: Invitation)
    requires UniqueTokens(invs)
    requires inv.id !in invs && !TokenTaken(invs, inv.token)
    ensures UniqueTokens(invs[inv.id := inv])
  {
  }

  /** Rewriting a stored invitation without touching its token keeps
      tokens unique. */
  lemma ReplaceKeepsUniqueTokens(invs: map<Id, Invitation>, inv: Invitation)
    requires UniqueTokens(invs)
    requires inv.id in invs && invs[inv.id].token == inv.token
    ensures UniqueTokens(invs[inv.id := inv])
  {
  }

  /** Every invitation is stored under its own id and passed the schema. */
  predicate AllStored(invs: map<Id, Invitation>)
  {
    forall k :: k in invs ==> invs[k].id == k && SchemaValid(invs[k])
  }

  lemma InsertKeepsAllStored(invs: map<Id, Invitation>, inv: Invitation)
    requires AllStored(invs) && SchemaValid(inv)
    ensures AllStored(invs[inv.id := inv])
  {
  }

  /** The accept lookup `{token, email: key, status: 'pending', expiresAt > now}`.
      `key` is the filter value after the query has cast it: a string filter
      value on `email` goes through the path's `lowercase` and `trim`
      setters, so for a session email `e` it is `NormaliseEmail(e)`. */
  predicate PendingMatch(invs: map<Id, Invitation>, id: Id, token: string, key: string, now: Millis)
  {
    && id in invs
    && invs[id].token == token
    && invs[id].email == key
    && invs[id].status == Pending
    && invs[id].expiresAt > now
  }

  /** Since tokens are unique, the lookup matches at most one invitation. */
  lemma PendingMatchUnique(invs: map<Id, Invitation>, a: Id, b: Id, token: string, key: string, now: Millis)
    requires UniqueTokens(invs)
    requires PendingMatch(invs, a, token, key, now) && PendingMatch(invs, b, token, key, now)
    ensures a == b
  {
  }

  /** A session email that differs from the invited address only in letter
      case and surrounding whitespace finds the pending invitation. */
  lemma InvitedAddressMatches(invs: map<Id, Invitation>, id: Id, token: string, email: string, invited: string, now: Millis)
    requires id in invs && invs[id].email == NormaliseEmail(invited)
    requires invs[id].token == token && invs[id].status == Pending && invs[id].expiresAt > now
    requires ToLower(Trim(email)) == ToLower(Trim(invited))
    ensures PendingMatch(invs, id, token, NormaliseEmail(email), now)
  {
    TrimLowerCommute(email);
    TrimLowerCommute(invited);
  }

  /** Conversely, a match means the session email and the stored address
      agree once normalised; an address that normalises differently from
      every stored one never matches. */
  lemma MatchMeansSameAddress(invs: map<Id, Invitation>, id: Id, token: string, email: string, invited: string, now: Millis)
    requires id in invs && invs[id].email == NormaliseEmail(invited)
    requires PendingMatch(invs, id, token, NormaliseEmail(email), now)
    ensures ToLower(Trim(email)) == ToLower(Trim(invited))
  {
    TrimLowerCommute(email);
    TrimLowerCommute(invited);
  }
}
