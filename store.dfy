/** The document store as the handlers see it: four collections keyed by
    document id, the schema every stored document satisfies, the unique
    indexes, and `Model.create` (validate, run the pre-save hooks, insert
    unless an index refuses). */
module Store {
  import opened Common
  import opened TripModel
  import opened InvitationModel
  import opened ItineraryModel
  import opened FavoriteModel

  /** Some key whose stamp is as large as any other's. */
  lemma {:induction false} NewestKeyExists(stamps: map<Id, Millis>)
    requires stamps != map[]
    ensures exists k :: k in stamps && forall j :: j in stamps ==> stamps[j] <= stamps[k]
    decreases |stamps|
  {
    var k :| k in stamps;
    var rest := stamps - {k};
    if rest == map[] {
      forall j | j in stamps ensures stamps[j] <= stamps[k] {
        assert j !in rest;
      }
    } else {
      assert |rest| < |stamps| by {
        assert rest.Keys == stamps.Keys - {k};
      }
      NewestKeyExists(rest);
      var m :| m in rest && forall j :: j in rest ==> rest[j] <= rest[m];
      if stamps[m] < stamps[k] {
        forall j | j in stamps ensures stamps[j] <= stamps[k] {
          if j != k { assert j in rest; }
        }
      } else {
        assert forall j :: j in stamps ==> stamps[j] <= stamps[m] by {
          forall j | j in stamps ensures stamps[j] <= stamps[m] {
            if j != k { assert j in rest; }
          }
        }
      }
    }
  }

  /** A key whose stamp is as large as any other's. */
  ghost function Newest(stamps: map<Id, Millis>): (k: Id)
    requires stamps != map[]
    ensures k in stamps && forall j :: j in stamps ==> stamps[j] <= stamps[k]
  {
    NewestKeyExists(stamps);
    var k :| k in stamps && forall j :: j in stamps ==> stamps[j] <= stamps[k];
    k
  }

  /** The keys of `stamps` ordered by stamp, largest first (`.sort({createdAt:
      -1})`). Keys with equal stamps come in an order the store does not
      promise, so this picks one. */
  ghost function KeysNewestFirst(stamps: map<Id, Millis>): (r: seq<Id>)
    ensures |r| == |stamps|
    ensures forall i :: 0 <= i < |r| ==> r[i] in stamps
    decreases |stamps|
  {
    if stamps == map[] then []
    else
      var k := Newest(stamps);
      var rest := stamps - {k};
      assert rest.Keys == stamps.Keys - {k};
      [k] + KeysNewestFirst(rest)
  }

  /** Every key is listed. */
  lemma {:induction false} KeysNewestFirstComplete(stamps: map<Id, Millis>)
    ensures forall k :: k in stamps ==> k in KeysNewestFirst(stamps)
    decreases |stamps|
  {
    if stamps != map[] {
      var k := Newest(stamps);
      var rest := stamps - {k};
      assert rest.Keys == stamps.Keys - {k};
      KeysNewestFirstComplete(rest);
      assert KeysNewestFirst(stamps) == [k] + KeysNewestFirst(rest);
    }
  }

  /** Each key of `keys` is listed once, and stamps never increase along
      the list. */
  ghost predicate Descending(stamps: map<Id, Millis>, keys: seq<Id>)
  {
    forall i, j :: 0 <= i < j < |keys| ==>
      keys[i] != keys[j] && keys[i] in stamps && keys[j] in stamps && stamps[keys[i]] >= stamps[keys[j]]
  }

  /** The newest key in front of a descending list of the other keys gives
      a descending list. */
  lemma DescendingCons(stamps: map<Id, Millis>, k: Id, tail: seq<Id>)
    requires k in stamps && forall j :: j in stamps ==> stamps[j] <= stamps[k]
    requires forall i :: 0 <= i < |tail| ==> tail[i] in stamps && tail[i] != k
    requires Descending(stamps - {k}, tail)
    ensures Descending(stamps, [k] + tail)
  {
    var rest := stamps - {k};
    var r := [k] + tail;
    forall i, j | 0 <= i < j < |r|
      ensures r[i] != r[j] && r[i] in stamps && r[j] in stamps && stamps[r[i]] >= stamps[r[j]]
    {
      assert r[j] == tail[j - 1];
      if i > 0 {
        assert r[i] == tail[i - 1];
        assert tail[i - 1] in rest && tail[j - 1] in rest;
      }
    }
  }

  lemma {:induction false} KeysNewestFirstOrdered(stamps: map<Id, Millis>)
    ensures Descending(stamps, KeysNewestFirst(stamps))
    decreases |stamps|
  {
    if stamps != map[] {
      var k := Newest(stamps);
      var rest := stamps - {k};
      assert rest.Keys == stamps.Keys - {k};
      KeysNewestFirstOrdered(rest);
      DescendingCons(stamps, k, KeysNewestFirst(rest));
    }
  }

  /** The documents stored under `keys`, in that order. */
  function Lookup<T>(m: map<Id, T>, keys: seq<Id>): (r: seq<T>)
    requires forall i :: 0 <= i < |keys| ==> keys[i] in m
    ensures |r| == |keys|
    ensures forall i :: 0 <= i < |keys| ==> r[i] == m[keys[i]]
  {
    if keys == [] then [] else [m[keys[0]]] + Lookup(m, keys[1..])
  }

  /** The stamp of every document of `m`, under the same keys. */
  function Stamps<T>(m: map<Id, T>, stamp: T -> Millis): (r: map<Id, Millis>)
    ensures r.Keys == m.Keys
    ensures forall k :: k in m ==> r[k] == stamp(m[k])
  {
    map k | k in m :: stamp(m[k])
  }

  /** The documents of `m` in the order of `.sort({createdAt: -1})`, `stamp`
      reading a document's `createdAt`. */
  ghost function NewestFirst<T>(m: map<Id, T>, stamp: T -> Millis): (r: seq<T>)
    ensures |r| == |m|
  {
    Lookup(m, KeysNewestFirst(Stamps(m, stamp)))
  }

  /** In a collection whose documents are stored under their own `id`,
      every document is listed, and only documents of the collection. */
  lemma NewestFirstComplete<T>(m: map<Id, T>, stamp: T -> Millis, id: T -> Id)
    requires forall k :: k in m ==> id(m[k]) == k
    ensures var r := NewestFirst(m, stamp);
            && (forall i :: 0 <= i < |r| ==> id(r[i]) in m && m[id(r[i])] == r[i])
            && (forall k :: k in m ==> m[k] in r)
  {
    var keys := KeysNewestFirst(Stamps(m, stamp));
    KeysNewestFirstComplete(Stamps(m, stamp));
    LookupFindsAll(m, keys);
    var r := Lookup(m, keys);
    forall i | 0 <= i < |r| ensures id(r[i]) in m && m[id(r[i])] == r[i] {
      assert r[i] == m[keys[i]];
    }
  }

  /** Each document is listed once, and the stamp never increases along
      the list. */
  lemma NewestFirstOrdered<T>(m: map<Id, T>, stamp: T -> Millis, id: T -> Id)
    requires forall k :: k in m ==> id(m[k]) == k
    ensures var r := NewestFirst(m, stamp);
            forall i, j :: 0 <= i < j < |r| ==> id(r[i]) != id(r[j]) && stamp(r[i]) >= stamp(r[j])
  {
    var stamps := Stamps(m, stamp);
    var keys := KeysNewestFirst(stamps);
    KeysNewestFirstOrdered(stamps);
    var r := NewestFirst(m, stamp);
    forall i, j | 0 <= i < j < |r| ensures id(r[i]) != id(r[j]) && stamp(r[i]) >= stamp(r[j]) {
      assert r[i] == m[keys[i]] && r[j] == m[keys[j]];
      assert keys[i] != keys[j] && stamps[keys[i]] >= stamps[keys[j]];
    }
  }

  /** Looking up a list that names every key finds every document. */
  lemma LookupFindsAll<T>(m: map<Id, T>, keys: seq<Id>)
    requires forall i :: 0 <= i < |keys| ==> keys[i] in m
    requires forall k :: k in m ==> k in keys
    ensures forall k :: k in m ==> m[k] in Lookup(m, keys)
  {
    var r := Lookup(m, keys);
    forall k | k in m ensures m[k] in r {
      var i :| 0 <= i < |keys| && keys[i] == k;
      assert r[i] == m[k];
    }
  }

  class Db {
    var trips: map<Id, Trip>
    var invitations: map<Id, Invitation>
    var itineraries: map<Id, Itinerary>
    var favorites: map<Id, Favorite>

    /** Every document is stored under its own id and passed its schema;
        the unique indexes on invitation tokens, itinerary (trip, date) and
        favourite (user, placeId) hold. */
    ghost predicate Valid()
      reads this
    {
      && TripModel.AllStored(trips)
      && InvitationModel.AllStored(invitations)
      && UniqueTokens(invitations)
      && ItineraryModel.AllStored(itineraries)
      && UniqueTripDate(itineraries)
      && FavoriteModel.AllStored(favorites)
      && UniqueUserPlace(favorites)
    }

    constructor ()
      ensures Valid()
      ensures trips == map[] && invitations == map[] && itineraries == map[] && favorites == map[]
    {
      trips, invitations, itineraries, favorites := map[], map[], map[], map[];
    }

    /** Writes a trip that passed its schema under its own id, as a new
        document or over the stored one. */
    method PutTrip(t: Trip)
      requires Valid() && TripModel.SchemaValid(t)
      modifies this`trips
      ensures Valid() && trips == old(trips)[t.id := t]
    {
      TripModel.InsertKeepsAllStored(trips, t);
      trips := trips[t.id := t];
    }

    /** Writes an invitation that passed its schema under its own id: a new
        one only with a token no stored invitation has, a stored one only
        with its token unchanged. */
    method PutInvitation(inv: Invitation)
      requires Valid() && InvitationModel.SchemaValid(inv)
      requires inv.id !in invitations ==> !TokenTaken(invitations, inv.token)
      requires inv.id in invitations ==> invitations[inv.id].token == inv.token
      modifies this`invitations
      ensures Valid() && invitations == old(invitations)[inv.id := inv]
    {
      if inv.id in invitations {
        ReplaceKeepsUniqueTokens(invitations, inv);
      } else {
        InsertKeepsUniqueTokens(invitations, inv);
      }
      InvitationModel.InsertKeepsAllStored(invitations, inv);
      invitations := invitations[inv.id := inv];
    }

    /** Inserts a new itinerary whose (trip, date) is free. */
    method PutItinerary(it: Itinerary)
      requires Valid() && ItineraryValid(it)
      requires it.id !in itineraries && !TripDateTaken(itineraries, it)
      modifies this`itineraries
      ensures Valid() && itineraries == old(itineraries)[it.id := it]
    {
      InsertKeepsUniqueTripDate(itineraries, it);
      ItineraryModel.InsertKeepsAllStored(itineraries, it);
      itineraries := itineraries[it.id := it];
    }

    /** Inserts a new favourite whose (user, placeId) is free. */
    method PutFavorite(f: Favorite)
      requires Valid() && FavoriteModel.SchemaValid(f)
      requires f.id !in favorites && !KeyTaken(favorites, f)
      modifies this`favorites
      ensures Valid() && favorites == old(favorites)[f.id := f]
    {
      InsertKeepsUniqueUserPlace(favorites, f);
      FavoriteModel.InsertKeepsAllStored(favorites, f);
      favorites := favorites[f.id := f];
    }

    /** `Trip.create`: validation, then the pre-save hook, then the insert
        (refused when the id is taken). */
    method CreateTrip(input: TripInput, newId: Id, now: Millis) returns (r: Result<Trip, DbError>)
      requires Valid()
      modifies this`trips
      ensures Valid()
      ensures !TripModel.Acceptable(input) ==> r == Failure(Invalid("Trip", TripErrors(input)))
      ensures TripModel.Acceptable(input) && newId in old(trips) ==> r == Failure(DuplicateKey("_id_"))
      ensures TripModel.Acceptable(input) && newId !in old(trips) ==>
                r == Success(PreSave(CastTrip(newId, input, now), now))
      ensures r.Success? ==> trips == old(trips)[newId := r.value]
      ensures r.Failure? ==> trips == old(trips)
    {
      var built := BuildTrip(newId, input, now);
      if built.Failure? {
        return Failure(Invalid("Trip", built.error));
      }
      var t := PreSave(built.value, now);
      if newId in trips {
        return Failure(DuplicateKey("_id_"));
      }
      PreSaveKeepsValid(built.value, now);
      PutTrip(t);
      r := Success(t);
    }

    /** `Invitation.create`: validation, then the insert, refused by the
        unique token index or a taken id. */
    method CreateInvitation(input: InvitationInput, newId: Id, now: Millis) returns (r: Result<Invitation, DbError>)
      requires Valid()
      modifies this`invitations
      ensures Valid()
      ensures !InvitationModel.Acceptable(input) ==> r == Failure(Invalid("Invitation", InvitationErrors(input)))
      ensures InvitationModel.Acceptable(input) ==>
                (r.Success? <==> newId !in old(invitations) && !TokenTaken(old(invitations), input.token.value))
      ensures r.Success? ==> r.value == BuildInvitation(newId, input, now).value
                             && invitations == old(invitations)[newId := r.value]
      ensures r.Failure? ==> invitations == old(invitations)
    {
      var built := BuildInvitation(newId, input, now);
      if built.Failure? {
        return Failure(Invalid("Invitation", built.error));
      }
      var inv := built.value;
      if newId in invitations {
        return Failure(DuplicateKey("_id_"));
      }
      if TokenTaken(invitations, inv.token) {
        return Failure(DuplicateKey("token_1"));
      }
      PutInvitation(inv);
      r := Success(inv);
    }

    /** `Itinerary.create`: validation, then the insert, refused by the
        unique (trip, date) index or a taken id. */
    method CreateItinerary(input: ItineraryInput, newId: Id, now: Millis) returns (r: Result<Itinerary, DbError>)
      requires Valid()
      modifies this`itineraries
      ensures Valid()
      ensures !ItineraryAcceptable(input) ==> r == Failure(Invalid("Itinerary", ItineraryErrors(input)))
      ensures ItineraryAcceptable(input) ==>
                (r.Success? <==> newId !in old(itineraries) &&
                                 !TripDateTaken(old(itineraries), BuildItinerary(newId, input, now).value))
      ensures r.Success? ==> r.value == BuildItinerary(newId, input, now).value
                             && itineraries == old(itineraries)[newId := r.value]
      ensures r.Failure? ==> itineraries == old(itineraries)
    {
      var built := BuildItinerary(newId, input, now);
      if built.Failure? {
        return Failure(Invalid("Itinerary", built.error));
      }
      var it := built.value;
      if newId in itineraries {
        return Failure(DuplicateKey("_id_"));
      }
      if TripDateTaken(itineraries, it) {
        return Failure(DuplicateKey("trip_1_date_1"));
      }
      PutItinerary(it);
      r := Success(it);
    }

    /** `Favorite.create`: validation, then the insert, refused by the
        unique (user, placeId) index or a taken id. */
    method CreateFavorite(input: FavoriteInput, newId: Id, now: Millis) returns (r: Result<Favorite, DbError>)
      requires Valid()
      modifies this`favorites
      ensures Valid()
      ensures !FavoriteModel.Acceptable(input) ==> r == Failure(Invalid("Favorite", FavoriteErrors(input)))
      ensures FavoriteModel.Acceptable(input) ==>
                (r.Success? <==> newId !in old(favorites) &&
                                 !KeyTaken(old(favorites), BuildFavorite(newId, input, now).value))
      ensures FavoriteModel.Acceptable(input) && r.Failure? ==> r.error.DuplicateKey?
      ensures r.Success? ==> r.value == BuildFavorite(newId, input, now).value
                             && favorites == old(favorites)[newId := r.value]
      ensures r.Failure? ==> favorites == old(favorites)
    {
      var built := BuildFavorite(newId, input, now);
      if built.Failure? {
        return Failure(Invalid("Favorite", built.error));
      }
      var f := built.value;
      if newId in favorites {
        return Failure(DuplicateKey("_id_"));
      }
      if KeyTaken(favorites, f) {
        return Failure(DuplicateKey("user_1_placeId_1"));
      }
      PutFavorite(f);
      r := Success(f);
    }
  }
}
