/** The trip page (components/TripDetail.tsx): who may invite, the days of
    the trip, and the day selected when the page opens. */
module TripDetail {
  import opened Common
  import opened TripModel
  import opened ClientStore

  /** A calendar day, counted in whole days from some fixed day. */
  type Day = int

  /** `participants.some(p => p.user._id === u && p.role === 'admin')`. */
  function SomeAdmin(ps: seq<ClientParticipant>, u: Id): (r: bool)
    ensures r <==> exists k :: 0 <= k < |ps| && ps[k].user.id == u && ps[k].role == Admin
  {
    if ps == [] then false
    else (ps[0].user.id == u && ps[0].role == Admin) || SomeAdmin(ps[1..], u)
  }

  /** `isAdmin`: the signed-in user created the trip, or takes part in it as
      an admin. Without a signed-in user nobody is admin. */
  function IsAdmin(trip: ClientTrip, caller: Option<Id>): (r: bool)
    ensures r <==> (caller.Some? &&
                    (trip.createdBy.id == caller.value ||
                     exists k :: 0 <= k < |trip.participants| &&
                       trip.participants[k].user.id == caller.value && trip.participants[k].role == Admin))
  {
    caller.Some? && (trip.createdBy.id == caller.value || SomeAdmin(trip.participants, caller.value))
  }

  /** A participant who only ever joined as a viewer, and did not create the
      trip, is not admin. */
  lemma ViewerIsNotAdmin(trip: ClientTrip, u: Id)
    requires trip.createdBy.id != u
    requires forall k :: 0 <= k < |trip.participants| && trip.participants[k].user.id == u ==>
               trip.participants[k].role == Viewer
    ensures !IsAdmin(trip, Some(u))
  {
  }

  /** `generateDateRange`: every day from `start` to `end`, both included,
      in ascending order; nothing when `start` is after `end`. */
  method DateRange(start: Day, end: Day) returns (dates: seq<Day>)
    ensures |dates| == (if start > end then 0 else end - start + 1)
    ensures forall i :: 0 <= i < |dates| ==> dates[i] == start + i
    ensures forall d :: d in dates <==> start <= d <= end
  {
    dates := [];
    var current := start;
    while current <= end
      invariant start <= current
      invariant start <= end ==> current <= end + 1
      invariant start > end ==> current == start
      invariant |dates| == current - start
      invariant forall i :: 0 <= i < |dates| ==> dates[i] == start + i
      decreases end - current
    {
      dates := dates + [current];
      current := current + 1;
    }
    forall d | start <= d <= end ensures d in dates {
      assert dates[d - start] == d;
    }
  }

  /** The day selected when the page opens: the first of `dates`, or none
      (the empty string) when there are no dates. */
  function InitialSelectedDate(dates: seq<Day>): (r: Option<Day>)
    ensures r.Some? <==> dates != []
    ensures r.Some? ==> r.value == dates[0] && r.value in dates
  {
    if |dates| > 0 then Some(dates[0]) else None
  }

  /** What the page opens on: the trip's first day, or nothing when its
      start is after its end. */
  method OpeningDay(start: Day, end: Day) returns (selected: Option<Day>)
    ensures selected == (if start <= end then Some(start) else None)
  {
    var dates := DateRange(start, end);
    selected := InitialSelectedDate(dates);
  }
}
