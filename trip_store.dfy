/** The client's trip list (store/tripStore.ts): the trips the page shows
    and the one selected, replaced wholesale by each action. */
module ClientStore {
  import opened Common
  import opened TripModel

  /** A user as the API sends it once `populate` has filled it in. */
  datatype ClientUser = ClientUser(id: Id, name: string, email: string, image: Option<string>)

  datatype ClientParticipant = ClientParticipant(user: ClientUser, role: Role, joinedAt: string)

  /** A trip as the client holds it: dates are the ISO strings of the JSON. */
  datatype ClientTrip = ClientTrip(
    id: Id,
    title: string,
    description: Option<string>,
    destination: string,
    startDate: string,
    endDate: string,
    createdBy: ClientUser,
    participants: seq<ClientParticipant>,
    isPublic: bool,
    shareableLink: Option<string>,
    createdAt: string,
    updatedAt: string)

  /** `trips.map(t => t._id === id ? updated : t)`: every trip with that id
      is replaced, every other one stays where it was. */
  function ReplaceById(ts: seq<ClientTrip>, id: Id, updated: ClientTrip): (r: seq<ClientTrip>)
    ensures |r| == |ts|
    ensures forall i :: 0 <= i < |ts| && ts[i].id == id ==> r[i] == updated
    ensures forall i :: 0 <= i < |ts| && ts[i].id != id ==> r[i] == ts[i]
  {
    if ts == [] then []
    else [if ts[0].id == id then updated else ts[0]] + ReplaceById(ts[1..], id, updated)
  }

  /** `trips.filter(t => t._id !== id)`: no trip with that id is left. */
  function RemoveById(ts: seq<ClientTrip>, id: Id): (r: seq<ClientTrip>)
    ensures |r| <= |ts|
    ensures forall i :: 0 <= i < |r| ==> r[i].id != id
  {
    if ts == [] then []
    else
      var rest := RemoveById(ts[1..], id);
      if ts[0].id == id then rest else [ts[0]] + rest
  }

  /** Every other trip is kept as many times as it was there. */
  lemma {:induction false} RemoveByIdCounts(ts: seq<ClientTrip>, id: Id, t: ClientTrip)
    requires t.id != id
    ensures multiset(RemoveById(ts, id))[t] == multiset(ts)[t]
  {
    if ts != [] {
      assert ts == [ts[0]] + ts[1..];
      RemoveByIdCounts(ts[1..], id, t);
    }
  }

  /** Filtering a concatenation filters each part: the survivors keep their
      relative order. */
  lemma {:induction false} RemoveByIdAppend(a: seq<ClientTrip>, b: seq<ClientTrip>, id: Id)
    ensures RemoveById(a + b, id) == RemoveById(a, id) + RemoveById(b, id)
  {
    if a == [] {
      assert a + b == b;
    } else {
      assert (a + b)[0] == a[0] && (a + b)[1..] == a[1..] + b;
      RemoveByIdAppend(a[1..], b, id);
    }
  }

  /** A list without that id is left as it is. */
  lemma {:induction false} RemoveByIdAbsent(ts: seq<ClientTrip>, id: Id)
    requires forall i :: 0 <= i < |ts| ==> ts[i].id != id
    ensures RemoveById(ts, id) == ts
  {
    if ts != [] {
      RemoveByIdAbsent(ts[1..], id);
    }
  }

  /** Deleting a trip after updating it is deleting it: the update
      leaves no trace in the survivors. */
  lemma {:induction false} RemoveAfterReplace(ts: seq<ClientTrip>, id: Id, updated: ClientTrip)
    requires updated.id == id
    ensures RemoveById(ReplaceById(ts, id, updated), id) == RemoveById(ts, id)
  {
    if ts != [] {
      var r := ReplaceById(ts, id, updated);
      assert r[1..] == ReplaceById(ts[1..], id, updated);
      RemoveAfterReplace(ts[1..], id, updated);
    }
  }

  /** Updating twice with the same trip is updating once. */
  lemma ReplaceByIdIdempotent(ts: seq<ClientTrip>, id: Id, updated: ClientTrip)
    requires updated.id == id
    ensures ReplaceById(ReplaceById(ts, id, updated), id, updated) == ReplaceById(ts, id, updated)
  {
    var once := ReplaceById(ts, id, updated);
    var twice := ReplaceById(once, id, updated);
    assert forall i :: 0 <= i < |ts| ==> twice[i] == once[i];
  }

  class TripStore {
    var trips: seq<ClientTrip>
    var selectedTrip: Option<ClientTrip>

    /** The initial state: no trips, nothing selected. */
    constructor ()
      ensures trips == [] && selectedTrip == None
    {
      trips := [];
      selectedTrip := None;
    }

    /** `setTrips`: the list is replaced; the selection is kept. */
    method SetTrips(ts: seq<ClientTrip>)
      modifies this
      ensures trips == ts && selectedTrip == old(selectedTrip)
    {
      trips := ts;
    }

    /** `addTrip`: the new trip goes first, the others follow in order. */
    method AddTrip(t: ClientTrip)
      modifies this
      ensures trips == [t] + old(trips) && selectedTrip == old(selectedTrip)
      ensures |trips| == |old(trips)| + 1 && trips[1..] == old(trips)
    {
      trips := [t] + trips;
    }

    /** `updateTrip`: trips with that id are replaced in place; the
      selection is not touched, even when it is the trip updated. */
    method UpdateTrip(id: Id, updated: ClientTrip)
      modifies this
      ensures trips == ReplaceById(old(trips), id, updated) && selectedTrip == old(selectedTrip)
    {
      trips := ReplaceById(trips, id, updated);
    }

    /** `deleteTrip`: trips with that id go; the selection is cleared
        exactly when it has that id. */
    method DeleteTrip(id: Id)
      modifies this
      ensures trips == RemoveById(old(trips), id)
      ensures old(selectedTrip).Some? && old(selectedTrip).value.id == id ==> selectedTrip == None
      ensures !(old(selectedTrip).Some? && old(selectedTrip).value.id == id) ==> selectedTrip == old(selectedTrip)
    {
      trips := RemoveById(trips, id);
      if selectedTrip.Some? && selectedTrip.value.id == id {
        selectedTrip := None;
      }
    }

    /** `setSelectedTrip`: only the selection changes. */
    method SetSelectedTrip(t: Option<ClientTrip>)
      modifies this
      ensures selectedTrip == t && trips == old(trips)
    {
      selectedTrip := t;
    }
  }
}
