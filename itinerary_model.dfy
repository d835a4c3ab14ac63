/** The Itinerary document (models/Itinerary.ts): the activities planned for
    one trip on one date, each with an embedded location, and the unique
    (trip, date) index. */
module ItineraryModel {
  import opened Common

  /** lat and lng are uninterpreted coordinates; nothing computes with them. */
  type Coord = real

  datatype Location = Location(name: string, address: string, lat: Coord, lng: Coord, placeId: Option<string>)

  datatype Activity = Activity(
    title: string,
    description: Option<string>,
    location: Location,
    startTime: string,
    endTime: Option<string>,
    notes: Option<string>,
    order: int)

  datatype Itinerary = Itinerary(id: Id, trip: Id, date: Millis, activities: seq<Activity>, createdAt: Millis)

  datatype LocationInput = LocationInput(
    name: Option<string>, address: Option<string>, lat: Option<Coord>, lng: Option<Coord>, placeId: Option<string>)

  datatype ActivityInput = ActivityInput(
    title: Option<string>,
    description: Option<string>,
    location: Option<LocationInput>,
    startTime: Option<string>,
    endTime: Option<string>,
    notes: Option<string>,
    order: Option<int>)

  datatype ItineraryInput = ItineraryInput(trip: Option<Id>, date: Option<Millis>, activities: seq<ActivityInput>)

  const MaxActivityDescription: nat := 500
  const MaxActivityNotes: nat := 1000

  // ---------------------------------------------------------------------
  // Location and activity sub-documents
  // ---------------------------------------------------------------------

  predicate LocationAcceptable(l: LocationInput)
  {
    && l.name.Some? && !AllSpace(l.name.value)
    && l.address.Some? && !AllSpace(l.address.value)
    && l.lat.Some? && l.lng.Some?
  }

  function LocationErrors(prefix: string, l: LocationInput): (e: seq<FieldError>)
    ensures e == [] <==> LocationAcceptable(l)
  {
    RequiredTrimmed(prefix + "name", l.name, RequiredMessage("name"))
    + RequiredTrimmed(prefix + "address", l.address, RequiredMessage("address"))
    + Required(prefix + "lat", l.lat, RequiredMessage("lat"))
    + Required(prefix + "lng", l.lng, RequiredMessage("lng"))
  }

  /** The activity rules: a title that is not blank once trimmed, a
      description of at most 500 characters, a complete location, a
      non-empty start time and notes of at most 1000 characters. The end
      time is free and `order` defaults to 0, so neither can fail. */
  predicate ActivityAcceptable(a: ActivityInput)
  {
    && a.title.Some? && !AllSpace(a.title.value)
    && (a.description.Some? ==> |a.description.value| <= MaxActivityDescription)
    && a.location.Some? && LocationAcceptable(a.location.value)
    && Truthy(a.startTime)
    && (a.notes.Some? ==> |a.notes.value| <= MaxActivityNotes)
  }

  function ActivityErrors(a: ActivityInput, index: nat): (e: seq<FieldError>)
    ensures e == [] <==> ActivityAcceptable(a)
  {
    var prefix := "activities." + NatToString(index) + ".";
    RequiredTrimmed(prefix + "title", a.title, "Please provide an activity title")
    + MaxLength(prefix + "description", a.description, MaxActivityDescription, "Description cannot exceed 500 characters")
    + (if a.location.None? then [FieldError(prefix + "location", RequiredMessage("location"))]
       else LocationErrors(prefix + "location.", a.location.value))
    + RequiredString(prefix + "startTime", a.startTime, RequiredMessage("startTime"))
    + MaxLength(prefix + "notes", a.notes, MaxActivityNotes, "Notes cannot exceed 1000 characters")
  }

  /** What every stored location and activity satisfies. */
  predicate LocationValid(l: Location)
  {
    l.name != "" && Trimmed(l.name) && l.address != "" && Trimmed(l.address)
  }

  predicate ActivityValid(a: Activity)
  {
    && a.title != "" && Trimmed(a.title)
    && (a.description.Some? ==> |a.description.value| <= MaxActivityDescription)
    && LocationValid(a.location)
    && a.startTime != ""
    && (a.notes.Some? ==> |a.notes.value| <= MaxActivityNotes)
  }

  /** Casts an acceptable activity: trimmed title, name and address, the
      rest as given, `order` 0 when absent. */
  function CastActivity(a: ActivityInput): (r: Activity)
    requires ActivityAcceptable(a)
    ensures ActivityValid(r)
    ensures r.title == Trim(a.title.value) && r.startTime == a.startTime.value
    ensures r.description == a.description && r.endTime == a.endTime && r.notes == a.notes
    ensures r.location.name == Trim(a.location.value.name.value)
    ensures r.location.address == Trim(a.location.value.address.value)
    ensures r.location.lat == a.location.value.lat.value && r.location.lng == a.location.value.lng.value
    ensures r.location.placeId == a.location.value.placeId
    ensures r.order == (if a.order.Some? then a.order.value else 0)
  {
    var l := a.location.value;
    TrimFilled(a.title.value);
    TrimFilled(l.name.value);
    TrimFilled(l.address.value);
    Activity(
      Trim(a.title.value),
      a.description,
      Location(Trim(l.name.value), Trim(l.address.value), l.lat.value, l.lng.value, l.placeId),
      a.startTime.value,
      a.endTime,
      a.notes,
      if a.order.Some? then a.order.value else 0)
  }

  /** An activity stays valid whatever its end time: the end time is not
      checked, nor compared with the start time. */
  lemma EndTimeUnchecked(a: Activity, endTime: Option<string>)
    ensures ActivityValid(a.(endTime := endTime)) == ActivityValid(a)
  {
  }

  // ---------------------------------------------------------------------
  // Itinerary document
  // ---------------------------------------------------------------------

  /** Every activity of the list is acceptable. */
  predicate AllAcceptable(acts: seq<ActivityInput>)
  {
    acts == [] || (ActivityAcceptable(acts[0]) && AllAcceptable(acts[1..]))
  }

  lemma {:induction false} AllAcceptableAt(acts: seq<ActivityInput>, k: nat)
    requires AllAcceptable(acts) && k < |acts|
    ensures ActivityAcceptable(acts[k])
  {
    if k > 0 {
      AllAcceptableAt(acts[1..], k - 1);
    }
  }

  function ActivitiesErrors(acts: seq<ActivityInput>, from: nat): (e: seq<FieldError>)
    ensures e == [] <==> AllAcceptable(acts)
    decreases |acts|
  {
    if acts == [] then [] else ActivityErrors(acts[0], from) + ActivitiesErrors(acts[1..], from + 1)
  }

  /** Every activity of the list is valid. */
  predicate AllValid(acts: seq<Activity>)
  {
    acts == [] || (ActivityValid(acts[0]) && AllValid(acts[1..]))
  }

  lemma {:induction false} AllValidAt(acts: seq<Activity>, k: nat)
    requires AllValid(acts) && k < |acts|
    ensures ActivityValid(acts[k])
  {
    if k > 0 {
      AllValidAt(acts[1..], k - 1);
    }
  }

  function CastActivities(acts: seq<ActivityInput>): (r: seq<Activity>)
    requires AllAcceptable(acts)
    ensures |r| == |acts|
    ensures AllValid(r)
  {
    if acts == [] then []
    else
      var r := [CastActivity(acts[0])] + CastActivities(acts[1..]);
      assert r[1..] == CastActivities(acts[1..]);
      r
  }

  /** Casting keeps the activities in their order, each cast on its own. */
  lemma {:induction false} CastActivitiesAt(acts: seq<ActivityInput>, k: nat)
    requires AllAcceptable(acts) && k < |acts|
    ensures ActivityAcceptable(acts[k]) && CastActivities(acts)[k] == CastActivity(acts[k])
  {
    AllAcceptableAt(acts, k);
    if k > 0 {
      CastActivitiesAt(acts[1..], k - 1);
    }
  }

  predicate ItineraryAcceptable(i: ItineraryInput)
  {
    i.trip.Some? && i.date.Some? && AllAcceptable(i.activities)
  }

  predicate ItineraryValid(it: Itinerary)
  {
    AllValid(it.activities)
  }

  function ItineraryErrors(i: ItineraryInput): seq<FieldError>
  {
    Required("trip", i.trip, RequiredMessage("trip"))
    + Required("date", i.date, RequiredMessage("date"))
    + ActivitiesErrors(i.activities, 0)
  }

  /** Casts `i` into an itinerary, keeping the activities in the given
      order, or lists the failing paths. */
  function BuildItinerary(id: Id, i: ItineraryInput, now: Millis): (r: Result<Itinerary, seq<FieldError>>)
    ensures r.Success? <==> ItineraryAcceptable(i)
    ensures r.Failure? ==> r.error != [] && r.error == ItineraryErrors(i)
    ensures r.Success? ==> ItineraryValid(r.value)
    ensures r.Success? ==>
      && r.value.id == id && r.value.trip == i.trip.value && r.value.date == i.date.value
      && r.value.createdAt == now
      && r.value.activities == CastActivities(i.activities)
  {
    if !ItineraryAcceptable(i) then Failure(ItineraryErrors(i))
    else Success(Itinerary(id, i.trip.value, i.date.value, CastActivities(i.activities), now))
  }

  // ---------------------------------------------------------------------
  // The unique (trip, date) index
  // ---------------------------------------------------------------------

  /** At most one itinerary per (trip, date) pair. */
  predicate UniqueTripDate(its: map<Id, Itinerary>)
  {
    forall a, b :: a in its && b in its && a != b ==>
      its[a].trip != its[b].trip || its[a].date != its[b].date
  }

  /** Whether some stored itinerary already holds the key of `it`. */
  predicate TripDateTaken(its: map<Id, Itinerary>, it: Itinerary)
  {
    exists k :: k in its && its[k].trip == it.trip && its[k].date == it.date
  }

  /** Every itinerary is stored under its own id and passed the schema. */
  predicate AllStored(its: map<Id, Itinerary>)
  {
    forall k :: k in its ==> its[k].id == k && ItineraryValid(its[k])
  }

  lemma InsertKeepsAllStored(its: map<Id, Itinerary>, it: Itinerary)
    requires AllStored(its) && ItineraryValid(it)
    ensures AllStored(its[it.id := it])
  {
  }

  /** An insert the index lets through keeps the index unique. */
  lemma InsertKeepsUniqueTripDate(its: map<Id, Itinerary>, it: Itinerary)
    requires UniqueTripDate(its)
    requires it.id !in its && !TripDateTaken(its, it)
    ensures UniqueTripDate(its[it.id := it])
  {
  }
}
