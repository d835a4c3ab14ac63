/** The day planner (components/ItineraryPlanner.tsx): picking the day's
    itinerary out of the fetched ones, adding an activity on the client,
    the save request, and the order activities are shown in. */
module ItineraryPlanner {
  import opened Common
  import opened ItineraryModel

  /** An itinerary as the client holds it; `date` is the JSON date string. */
  datatype ClientItinerary = ClientItinerary(id: string, trip: Id, date: string, activities: seq<Activity>)

  // ---------------------------------------------------------------------
  // Picking the day's itinerary (fetchItinerary)
  // ---------------------------------------------------------------------

  /** `s.split('T')[0]`: everything before the first `T`, or all of `s`. */
  function DatePrefix(s: string): (r: string)
    ensures |r| <= |s| && r == s[..|r|]
    ensures 'T' !in r
    ensures |r| < |s| ==> s[|r|] == 'T'
  {
    if s == [] || s[0] == 'T' then []
    else
      var r := [s[0]] + DatePrefix(s[1..]);
      assert s == [s[0]] + s[1..];
      r
  }

  /** Whether `it` is the itinerary of day `date`. */
  predicate OnDay(it: ClientItinerary, date: string)
  {
    DatePrefix(it.date) == date
  }

  /** The position of the first itinerary from `from` on that is on `date`. */
  function FindDayFrom(its: seq<ClientItinerary>, date: string, from: nat): (r: Option<nat>)
    requires from <= |its|
    ensures r.Some? ==> from <= r.value < |its| && OnDay(its[r.value], date)
    ensures r.Some? ==> forall k :: from <= k < r.value ==> !OnDay(its[k], date)
    ensures r.None? ==> forall k :: from <= k < |its| ==> !OnDay(its[k], date)
    decreases |its| - from
  {
    if from == |its| then None
    else if OnDay(its[from], date) then Some(from)
    else FindDayFrom(its, date, from + 1)
  }

  /** `itineraries.find(it => it.date.split('T')[0] === date) || null`: the
      first itinerary on that day, or none when no itinerary is. */
  function DayItinerary(its: seq<ClientItinerary>, date: string): (r: Option<ClientItinerary>)
    ensures r.None? <==> forall k :: 0 <= k < |its| ==> !OnDay(its[k], date)
    ensures r.Some? ==> exists i :: 0 <= i < |its| && its[i] == r.value && OnDay(r.value, date) &&
                                    forall k :: 0 <= k < i ==> !OnDay(its[k], date)
  {
    var i := FindDayFrom(its, date, 0);
    if i.Some? then Some(its[i.value]) else None
  }

  // ---------------------------------------------------------------------
  // Adding an activity (handleAddActivity)
  // ---------------------------------------------------------------------

  /** The add-activity form (`Partial<Activity>`); its `order` is never read. */
  datatype ActivityForm = ActivityForm(
    title: Option<string>,
    description: Option<string>,
    location: Location,
    startTime: Option<string>,
    endTime: Option<string>,
    notes: Option<string>)

  /** The form as it opens, and as it is reset after an add. */
  const BlankForm: ActivityForm :=
    ActivityForm(Some(""), Some(""), Location("", "", 0.0, 0.0, None), Some(""), Some(""), Some(""))

  /** The guard `newActivity.title && newActivity.startTime`. */
  predicate FormComplete(f: ActivityForm)
  {
    Truthy(f.title) && Truthy(f.startTime)
  }

  /** The number of activities already planned: 0 without an itinerary. */
  function ActivityCount(it: Option<ClientItinerary>): nat
  {
    if it.Some? then |it.value.activities| else 0
  }

  /** The activity the form describes, numbered after those already there. */
  function NewActivity(f: ActivityForm, it: Option<ClientItinerary>): (a: Activity)
    requires FormComplete(f)
    ensures a.order == ActivityCount(it)
    ensures a.title == f.title.value && a.startTime == f.startTime.value && a.location == f.location
    ensures a.description == f.description && a.endTime == f.endTime && a.notes == f.notes
  {
    Activity(f.title.value, f.description, f.location, f.startTime.value, f.endTime, f.notes, ActivityCount(it))
  }

  /** The itinerary after adding `a`: a new, unsaved one (empty id) for the
      trip and day holding just `a`, or the current one with `a` appended. */
  function WithActivity(it: Option<ClientItinerary>, tripId: Id, date: string, a: Activity): (r: ClientItinerary)
    ensures it.None? ==> r == ClientItinerary("", tripId, date, [a])
    ensures it.Some? ==> r == it.value.(activities := r.activities)
    ensures |r.activities| == ActivityCount(it) + 1 && r.activities[ActivityCount(it)] == a
    ensures it.Some? ==> r.activities[..ActivityCount(it)] == it.value.activities
  {
    if it.None? then ClientItinerary("", tripId, date, [a])
    else it.value.(activities := it.value.activities + [a])
  }

  /** Every activity's `order` is its position. */
  predicate Numbered(acts: seq<Activity>)
  {
    forall i :: 0 <= i < |acts| ==> acts[i].order == i
  }

  /** Adding keeps the numbering: starting from no itinerary and adding only
      through the form, the orders are 0, 1, ..., n - 1 in position order. */
  lemma AddKeepsNumbered(it: Option<ClientItinerary>, tripId: Id, date: string, f: ActivityForm)
    requires FormComplete(f)
    requires it.Some? ==> Numbered(it.value.activities)
    ensures Numbered(WithActivity(it, tripId, date, NewActivity(f, it)).activities)
  {
    var r := WithActivity(it, tripId, date, NewActivity(f, it));
    forall i | 0 <= i < |r.activities| ensures r.activities[i].order == i {
      if i < ActivityCount(it) {
        assert r.activities[i] == r.activities[..ActivityCount(it)][i];
      }
    }
  }

  /** The body of the save request. */
  datatype SaveBody = SaveBody(date: string, activities: seq<Activity>)

  /** `handleSaveItinerary`: nothing is sent without an itinerary; otherwise
      the planner's day and the activities as they stand. */
  function SaveRequest(it: Option<ClientItinerary>, date: string): (r: Option<SaveBody>)
    ensures r.None? <==> it.None?
    ensures r.Some? ==> r.value.date == date && r.value.activities == it.value.activities
  {
    if it.None? then None else Some(SaveBody(date, it.value.activities))
  }

  class Planner {
    const tripId: Id
    const date: string
    var itinerary: Option<ClientItinerary>
    var newActivity: ActivityForm
    var showAddModal: bool

    /** The planner as it mounts, before the fetch answers. */
    constructor (tripId: Id, date: string)
      ensures this.tripId == tripId && this.date == date
      ensures itinerary == None && newActivity == BlankForm && !showAddModal
    {
      this.tripId := tripId;
      this.date := date;
      itinerary := None;
      newActivity := BlankForm;
      showAddModal := false;
    }

    /** What the fetch sets: the day's itinerary among those fetched. */
    method Fetched(its: seq<ClientItinerary>)
      modifies this`itinerary
      ensures itinerary == DayItinerary(its, date)
    {
      itinerary := DayItinerary(its, date);
    }

    /** `handleAddActivity`. An incomplete form changes nothing. Otherwise
        the activity, numbered after those already there, goes at the end
        (in a new itinerary when there is none), the form is reset and the
        modal closes. */
    method AddActivity()
      modifies this`itinerary, this`newActivity, this`showAddModal
      ensures !FormComplete(old(newActivity)) ==>
        itinerary == old(itinerary) && newActivity == old(newActivity) && showAddModal == old(showAddModal)
      ensures FormComplete(old(newActivity)) ==>
        && itinerary == Some(WithActivity(old(itinerary), tripId, date, NewActivity(old(newActivity), old(itinerary))))
        && newActivity == BlankForm && !showAddModal
      ensures FormComplete(old(newActivity)) && (old(itinerary).Some? ==> Numbered(old(itinerary).value.activities)) ==>
        Numbered(itinerary.value.activities)
    {
      if !FormComplete(newActivity) {
        return;
      }
      if itinerary.None? || Numbered(itinerary.value.activities) {
        AddKeepsNumbered(itinerary, tripId, date, newActivity);
      }
      var activity := NewActivity(newActivity, itinerary);
      itinerary := Some(WithActivity(itinerary, tripId, date, activity));
      newActivity := BlankForm;
      showAddModal := false;
    }
  }

  // ---------------------------------------------------------------------
  // Display order (activities.sort((a, b) => a.order - b.order))
  // ---------------------------------------------------------------------

  predicate SortedByOrder(s: seq<Activity>)
  {
    forall i, j :: 0 <= i < j < |s| ==> s[i].order <= s[j].order
  }

  /** Puts `x` after every trailing activity of `s` whose order is larger,
      and so after all those with an order no larger than its own. */
  function InsertByOrder(x: Activity, s: seq<Activity>): (r: seq<Activity>)
    ensures |r| == |s| + 1
  {
    if s == [] || s[|s| - 1].order <= x.order then s + [x]
    else InsertByOrder(x, s[..|s| - 1]) + [s[|s| - 1]]
  }

  /** The stable sort by `order`, inserting the activities one by one. */
  function SortByOrder(s: seq<Activity>): (r: seq<Activity>)
    ensures |r| == |s|
  {
    if s == [] then [] else InsertByOrder(s[|s| - 1], SortByOrder(s[..|s| - 1]))
  }

  /** Where the inserted activity lands: after the activities whose order
      is no larger, before the trailing run whose order is larger. */
  lemma {:induction false} InsertSplit(x: Activity, s: seq<Activity>, j: nat)
    requires j <= |s|
    requires j == 0 || s[j - 1].order <= x.order
    requires forall k :: j <= k < |s| ==> s[k].order > x.order
    ensures InsertByOrder(x, s) == s[..j] + [x] + s[j..]
    decreases |s|
  {
    if |s| == j {
      assert s[..j] == s && s[j..] == [];
    } else {
      var init := s[..|s| - 1];
      InsertSplit(x, init, j);
      assert init[..j] == s[..j];
      assert init[j..] + [s[|s| - 1]] == s[j..];
    }
  }

  /** The activities of `s` whose order is `v`, in their order in `s`. */
  function WithOrder(s: seq<Activity>, v: int): (r: seq<Activity>)
    ensures forall k :: 0 <= k < |r| ==> r[k].order == v
  {
    if s == [] then []
    else WithOrder(s[..|s| - 1], v) + (if s[|s| - 1].order == v then [s[|s| - 1]] else [])
  }

  lemma {:induction false} WithOrderAppend(s: seq<Activity>, t: seq<Activity>, v: int)
    ensures WithOrder(s + t, v) == WithOrder(s, v) + WithOrder(t, v)
    decreases |t|
  {
    if t == [] {
      assert s + t == s;
    } else {
      assert (s + t)[..|s + t| - 1] == s + t[..|t| - 1];
      WithOrderAppend(s, t[..|t| - 1], v);
    }
  }

  /** Appending one activity adds it to its own order class only. */
  lemma WithOrderSnoc(s: seq<Activity>, y: Activity, v: int)
    ensures WithOrder(s + [y], v) == WithOrder(s, v) + (if y.order == v then [y] else [])
  {
    assert (s + [y])[..|s + [y]| - 1] == s;
  }

  /** Inserting adds `x` to its own order class, after the rest of it. */
  lemma {:induction false} InsertByOrderWithOrder(x: Activity, s: seq<Activity>, v: int)
    ensures WithOrder(InsertByOrder(x, s), v) == WithOrder(s, v) + (if x.order == v then [x] else [])
    decreases |s|
  {
    if s == [] || s[|s| - 1].order <= x.order {
      WithOrderSnoc(s, x, v);
    } else {
      var init := s[..|s| - 1];
      var last := s[|s| - 1];
      var ins := InsertByOrder(x, init);
      assert InsertByOrder(x, s) == ins + [last];
      InsertByOrderWithOrder(x, init, v);
      WithOrderSnoc(ins, last, v);
      assert init + [last] == s;
      WithOrderSnoc(init, last, v);
      var xs := if x.order == v then [x] else [];
      var ls := if last.order == v then [last] else [];
      assert xs == [] || ls == [];
      assert xs + ls == ls + xs;
    }
  }

  /** The sort is stable: within each order value, activities keep the
      order they were added in. */
  lemma {:induction false} SortByOrderStable(s: seq<Activity>, v: int)
    ensures WithOrder(SortByOrder(s), v) == WithOrder(s, v)
    decreases |s|
  {
    if s != [] {
      SortByOrderStable(s[..|s| - 1], v);
      InsertByOrderWithOrder(s[|s| - 1], SortByOrder(s[..|s| - 1]), v);
    }
  }

  /** Inserting adds exactly `x`. */
  lemma {:induction false} InsertByOrderMultiset(x: Activity, s: seq<Activity>)
    ensures multiset(InsertByOrder(x, s)) == multiset(s) + multiset{x}
    decreases |s|
  {
    if !(s == [] || s[|s| - 1].order <= x.order) {
      var init := s[..|s| - 1];
      InsertByOrderMultiset(x, init);
      assert s == init + [s[|s| - 1]];
    }
  }

  /** The sort only reorders: the same activities, as many times each. */
  lemma {:induction false} SortByOrderMultiset(s: seq<Activity>)
    ensures multiset(SortByOrder(s)) == multiset(s)
    decreases |s|
  {
    if s != [] {
      SortByOrderMultiset(s[..|s| - 1]);
      InsertByOrderMultiset(s[|s| - 1], SortByOrder(s[..|s| - 1]));
      assert s == s[..|s| - 1] + [s[|s| - 1]];
    }
  }

  /** Every activity of the insertion is `x` or one of `s`. */
  lemma {:induction false} InsertByOrderElements(x: Activity, s: seq<Activity>, k: nat)
    requires k < |s| + 1
    ensures InsertByOrder(x, s)[k] == x || InsertByOrder(x, s)[k] in s
    decreases |s|
  {
    InsertByOrderMultiset(x, s);
    assert InsertByOrder(x, s)[k] in multiset(InsertByOrder(x, s));
  }

  /** Inserting into a sorted list keeps it sorted. */
  lemma {:induction false} InsertByOrderSorted(x: Activity, s: seq<Activity>)
    requires SortedByOrder(s)
    ensures SortedByOrder(InsertByOrder(x, s))
    decreases |s|
  {
    if !(s == [] || s[|s| - 1].order <= x.order) {
      var init := s[..|s| - 1];
      var last := s[|s| - 1];
      InsertByOrderSorted(x, init);
      var ins := InsertByOrder(x, init);
      forall k | 0 <= k < |ins| ensures ins[k].order <= last.order {
        InsertByOrderElements(x, init, k);
      }
    }
  }

  /** The display order is ascending `order`. */
  lemma {:induction false} SortByOrderSorted(s: seq<Activity>)
    ensures SortedByOrder(SortByOrder(s))
    decreases |s|
  {
    if s != [] {
      SortByOrderSorted(s[..|s| - 1]);
      InsertByOrderSorted(s[|s| - 1], SortByOrder(s[..|s| - 1]));
    }
  }

  /** One insertion step: `a[i]` moves left past the activities of the
      prefix `a[..i]` whose order is larger. */
  method InsertStep(a: array<Activity>, i: nat)
    requires i < a.Length
    modifies a
    ensures a[..i + 1] == InsertByOrder(old(a[i]), old(a[..i]))
    ensures a[i + 1..] == old(a[i + 1..])
  {
    var x := a[i];
    ghost var sorted := a[..i];
    ghost var rest := a[i + 1..];
    var j := i;
    while j > 0 && a[j - 1].order > x.order
      invariant 0 <= j <= i
      invariant forall k :: 0 <= k < j ==> a[k] == sorted[k]
      invariant forall k :: j < k <= i ==> a[k] == sorted[k - 1]
      invariant forall k :: j <= k < i ==> sorted[k].order > x.order
      invariant a[i + 1..] == rest
      decreases j
    {
      a[j] := a[j - 1];
      j := j - 1;
    }
    a[j] := x;
    InsertSplit(x, sorted, j);
    ghost var goal := sorted[..j] + [x] + sorted[j..];
    assert forall k :: 0 <= k < j ==> goal[k] == sorted[k];
    assert forall k :: j < k <= i ==> goal[k] == sorted[k - 1];
    assert a[..i + 1] == goal;
  }

  /** The in-place sort the page applies before showing the activities: an
      insertion sort that moves each activity left past those with a larger
      order, which is the stable sort `SortByOrder`. */
  method SortForDisplay(a: array<Activity>)
    modifies a
    ensures a[..] == SortByOrder(old(a[..]))
  {
    ghost var s := a[..];
    var i := 0;
    while i < a.Length
      invariant 0 <= i <= a.Length
      invariant a[..i] == SortByOrder(s[..i])
      invariant a[i..] == s[i..]
    {
      InsertStep(a, i);
      assert s[..i + 1][..i] == s[..i];
      i := i + 1;
    }
    assert s[..a.Length] == s;
  }

  /** The activities as the page lists them: those of the itinerary, or
      none, sorted by `order`. */
  method Displayed(it: Option<ClientItinerary>) returns (shown: seq<Activity>)
    ensures shown == SortByOrder(if it.Some? then it.value.activities else [])
    ensures SortedByOrder(shown)
  {
    var acts := if it.Some? then it.value.activities else [];
    var a := new Activity[|acts|](i requires 0 <= i < |acts| => acts[i]);
    assert a[..] == acts;
    SortForDisplay(a);
    shown := a[..];
    SortByOrderSorted(acts);
  }
}
