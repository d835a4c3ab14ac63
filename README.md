# TravelMate domain layer in Dafny

TravelMate is a small collaborative trip planner: users create trips, invite
others by e-mail, plan the activities of each day and save favourite places.
This project models its domain layer and proves properties of the model:

- the four document schemas (Trip with embedded participants, Invitation,
  Itinerary with embedded activities and locations, Favorite) as Mongoose
  applies them: setters (`trim`, `lowercase`) first, then defaults, then one
  error per failing path in schema order, joined into the
  `"<Model> validation failed: path: message, ..."` message;
- the pre-save hook that gives a public trip its `trip-<id>-<stamp>` link;
- the document store as a class `Store.Db` with one map per collection. Its
  invariant `Valid()` says that every document is stored under its own id and
  passed its schema, and that the unique indexes hold: invitation `token`,
  itinerary `(trip, date)` and favourite `(user, placeId)`;
- the handlers `GET`/`POST /api/trips`, `GET`/`POST /api/favorites` and
  `POST /api/invitations/accept`. Sessions, request bodies, fresh ids and the
  clock (`now`) are parameters;
- the client code:
  - the trip list store, modelled as a class with `trips` and `selectedTrip`;
  - the trip page's `isAdmin`, its day range and the initially selected day;
  - the day planner. It picks the day's itinerary from the fetched ones, adds
    activities numbered by position, builds the save request and sorts the
    activities by `order` for display. The display sort is an in-place
    insertion sort on an array, proved equal to a stable functional sort.

Dates are integers. Instants are non-negative milliseconds since the epoch (`Common.Millis`), so instants before 1970 are not modelled. The trip
page's days are day numbers (`TripDetail.Day`). Coordinates are uninterpreted
`real`s that nothing computes with. Strings are `seq<char>`.

Modules follow the source files:

| module | file |
|---|---|
| `Common` | shared values, trim/lowercase setters, validation messages |
| `TripModel` | models/Trip.ts |
| `InvitationModel` | models/Invitation.ts |
| `ItineraryModel` | models/Itinerary.ts |
| `FavoriteModel` | models/Favorite.ts |
| `Store` | the collections, the unique indexes and `Model.create` |
| `TripsRoute` | app/api/trips/route.ts |
| `InvitationAccept` | app/api/invitations/accept/route.ts |
| `FavoritesRoute` | app/api/favorites/route.ts |
| `ClientStore` | store/tripStore.ts |
| `TripDetail` | components/TripDetail.tsx |
| `ItineraryPlanner` | components/ItineraryPlanner.tsx |

The last column of the table below states what each member's contract
promises.

## Model

| member | source | states |
|---|---|---|
| Common.CallerId | app/api/trips/route.ts:12-14 | the caller is known exactly when the session carries a truthy `user.id`, and then it is that id |
| Common.TrimStart | models/Trip.ts:48 | the result is a suffix of the input; what was dropped is all whitespace; the result does not start with whitespace |
| Common.TrimEnd | models/Trip.ts:48 | the result is a prefix; what was dropped is all whitespace; the result does not end with whitespace |
| Common.Trim | models/Trip.ts:48 | the trimmed string is no longer than the input and neither starts nor ends with whitespace; what each side loses is stated by `TrimStart` and `TrimEnd` |
| Common.TrimBlank | models/Trip.ts:45-49 | a string trims to the empty string exactly when it is all whitespace |
| Common.TrimFilled | models/Trip.ts:45-49 | a string that is not all whitespace trims to a non-empty, trimmed string |
| Common.TrimStartOfTrimmed | models/Trip.ts:48 | trimming the front of a string that starts with a non-space changes nothing |
| Common.TrimEndOfTrimmed | models/Trip.ts:48 | trimming the end of a string that ends with a non-space changes nothing |
| Common.TrimIdempotent | models/Trip.ts:48 | the result of trimming is trimmed, so trimming twice is trimming once |
| Common.LowerChar | models/Invitation.ts:30 | upper-case ASCII letters move to lower case; every other character stays |
| Common.ToLower | models/Invitation.ts:30 | same length, character by character lower-cased |
| Common.ToLowerLowered | models/Invitation.ts:30 | the result has no upper-case letter, and a string with none is left alone |
| Common.ToLowerIdempotent | models/Invitation.ts:30 | lower-casing twice is lower-casing once |
| Common.LowerCharKeepsSpace | models/Invitation.ts:30-31 | lower-casing neither creates nor removes whitespace |
| Common.TrimStartLower | models/Invitation.ts:30-31 | trimming the front commutes with lower-casing |
| Common.TrimEndLower | models/Invitation.ts:30-31 | trimming the end commutes with lower-casing |
| Common.TrimLowerCommute | models/Invitation.ts:30-31 | the `lowercase` and `trim` setters commute |
| Common.DigitChar | models/Trip.ts:98 | the character is a digit with the given value |
| Common.NatToString | models/Trip.ts:98 | a non-empty string of digits without a leading zero |
| Common.NatToStringRoundTrip | models/Trip.ts:98 | reading the rendered digits back gives the number |
| Common.RequiredTrimmed | models/Trip.ts:45-49 | a required trimmed path fails exactly when it is missing or all whitespace |
| Common.RequiredString | models/Invitation.ts:43-47 | a required string path fails exactly when it is missing or empty |
| Common.MaxLength | models/Trip.ts:50-53 | a `maxlength` path fails exactly when the value is present and longer than the cap |
| Common.Required | models/Trip.ts:59-62 | a required path fails exactly when it is missing |
| TripModel.ParseRole | models/Trip.ts:30-34 | only `admin` and `viewer` are accepted, and each is read as its own role |
| TripModel.ParseRoleName | models/Trip.ts:30-34 | reading a role's name gives the role back |
| TripModel.ParticipantErrors | models/Trip.ts:23-41 | a participant fails exactly when `user` is missing or the role, after the `admin` default, is not in the enum |
| TripModel.ParticipantsErrors | models/Trip.ts:78 | the participants fail exactly when one of them does |
| TripModel.CastParticipant | models/Trip.ts:30-38 | the role defaults to `admin` and `joinedAt` to `now` |
| TripModel.CastParticipants | models/Trip.ts:78 | every participant is cast on its own, in the same order |
| TripModel.EndDateErrors | models/Trip.ts:63-72 | the end date passes exactly when both dates are present and `endDate > startDate` |
| TripModel.TripErrorsEmptyIff | models/Trip.ts:43-92 | the schema reports no error exactly when the field rules all hold |
| TripModel.CastTrip | models/Trip.ts:43-92 | the stored trip is schema-valid; title and destination trimmed, `isPublic` defaulting to false, participants cast, `createdAt` = now |
| TripModel.BuildTrip | models/Trip.ts:43-92 | success exactly when the input is acceptable; otherwise the non-empty list of per-path errors |
| TripModel.PreSave | models/Trip.ts:95-101 | a public trip without a link gets `trip-<id>-<stamp>`; otherwise nothing changes; no field other than the link changes; afterwards no link is needed |
| TripModel.PreSaveIdempotent | models/Trip.ts:96 | running the hook again, at any time, changes nothing |
| TripModel.ShareableLinkStamp | models/Trip.ts:98 | the link ends with the decimal digits of the stamp it was made with |
| TripModel.PreSaveKeepsValid | models/Trip.ts:95-101 | the hook keeps a trip schema-valid |
| TripModel.InsertKeepsAllStored | models/Trip.ts:43-92 | storing a schema-valid trip under its id keeps every stored trip valid |
| TripModel.SaveTrip | models/Trip.ts:95-101 | `save()` keeps the trip valid and its id and participants unchanged |
| InvitationModel.ParseStatus | models/Invitation.ts:38-42 | only `pending`, `accepted` and `rejected` are accepted |
| InvitationModel.ParseStatusName | models/Invitation.ts:38-42 | reading a status's name gives the status back |
| InvitationModel.NormalisedIsNormal | models/Invitation.ts:27-32 | the stored email is trimmed and has no upper-case letter |
| InvitationModel.NormalIsFixed | models/Invitation.ts:27-32 | an email already trimmed and lower-case is left as it is |
| InvitationModel.NormaliseBlank | models/Invitation.ts:27-32 | the email normalises to the empty string exactly when it is all whitespace |
| InvitationModel.NormaliseEmailIdempotent | models/Invitation.ts:27-32 | normalising twice is normalising once |
| InvitationModel.BuildInvitation | models/Invitation.ts:15-57 | success exactly when acceptable. The stored invitation has a normalised email, role defaulting to `viewer`, status to `pending`, `expiresAt` to now + 604800000 ms; otherwise the per-path errors |
| InvitationModel.InsertKeepsUniqueTokens | models/Invitation.ts:43-47 | inserting an invitation whose token is free keeps tokens unique |
| InvitationModel.ReplaceKeepsUniqueTokens | models/Invitation.ts:43-47 | rewriting an invitation without changing its token keeps tokens unique |
| InvitationModel.InsertKeepsAllStored | models/Invitation.ts:15-57 | storing a valid invitation under its id keeps every stored invitation valid |
| InvitationModel.PendingMatchUnique | models/Invitation.ts:43-47 | with unique tokens the accept lookup matches at most one invitation |
| InvitationModel.InvitedAddressMatches | app/api/invitations/accept/route.ts:29-34 | the lookup casts the session email through the `lowercase` and `trim` setters, so an address differing from the invited one only in case and surrounding whitespace finds the pending invitation |
| InvitationModel.MatchMeansSameAddress | app/api/invitations/accept/route.ts:29-34 | conversely, a match means the session email and the invited address agree once lower-cased and trimmed |
| ItineraryModel.LocationErrors | models/Itinerary.ts:29-54 | a location fails exactly when name or address is missing or blank, or lat or lng is missing |
| ItineraryModel.ActivityErrors | models/Itinerary.ts:56-89 | an activity fails exactly when the title is blank, the description exceeds 500, the location fails, `startTime` is missing, or the notes exceed 1000 |
| ItineraryModel.CastActivity | models/Itinerary.ts:56-89 | the stored activity is valid; title, name and address trimmed; `order` defaults to 0; the rest kept |
| ItineraryModel.EndTimeUnchecked | models/Itinerary.ts:75-77 | validity does not depend on the end time at all |
| ItineraryModel.AllAcceptableAt | models/Itinerary.ts:102 | each activity of an acceptable list is acceptable |
| ItineraryModel.ActivitiesErrors | models/Itinerary.ts:102 | the activities fail exactly when one of them does |
| ItineraryModel.AllValidAt | models/Itinerary.ts:102 | each activity of a valid list is valid |
| ItineraryModel.CastActivities | models/Itinerary.ts:102 | the same number of activities, all valid |
| ItineraryModel.CastActivitiesAt | models/Itinerary.ts:102 | the k-th stored activity is the k-th input cast on its own |
| ItineraryModel.BuildItinerary | models/Itinerary.ts:91-107 | success exactly when trip, date and every activity are acceptable; the activities keep their order |
| ItineraryModel.InsertKeepsAllStored | models/Itinerary.ts:91-107 | storing a valid itinerary under its id keeps every stored itinerary valid |
| ItineraryModel.InsertKeepsUniqueTripDate | models/Itinerary.ts:109-110 | inserting an itinerary whose (trip, date) is free keeps at most one itinerary per (trip, date) |
| FavoriteModel.RequiredNumber | models/Favorite.ts:32-39 | a coordinate fails exactly when it is undefined or null |
| FavoriteModel.FavoriteErrors | models/Favorite.ts:15-51 | a favourite fails exactly when user is missing, name or address blank, a coordinate missing, or the notes exceed 500 |
| FavoriteModel.BuildFavorite | models/Favorite.ts:15-51 | success exactly when acceptable, with trimmed name and address; otherwise the per-path errors |
| FavoriteModel.InsertKeepsAllStored | models/Favorite.ts:15-51 | storing a valid favourite under its id keeps every stored favourite valid |
| FavoriteModel.InsertKeepsUniqueUserPlace | models/Favorite.ts:53-54 | inserting a favourite whose (user, placeId) is free keeps the key unique |
| FavoriteModel.OtherUsersDoNotCollide | models/Favorite.ts:54 | a key is taken exactly when it is taken among the same user's favourites |
| Store.NewestKeyExists | app/api/trips/route.ts:26 | a non-empty collection has a newest document |
| Store.Newest | app/api/trips/route.ts:26 | the chosen key has a stamp no smaller than any other |
| Store.KeysNewestFirst | app/api/trips/route.ts:26 | one key per document, each a key of the collection |
| Store.KeysNewestFirstComplete | app/api/trips/route.ts:26 | every key is listed |
| Store.DescendingCons | app/api/trips/route.ts:26 | the newest key in front of a descending list of the others is descending |
| Store.KeysNewestFirstOrdered | app/api/trips/route.ts:26 | keys are distinct and stamps never increase along the list |
| Store.Stamps | app/api/trips/route.ts:26 | the stamp of every document, under the same keys |
| Store.NewestFirst | app/api/favorites/route.ts:18-20 | one entry per document |
| Store.NewestFirstComplete | app/api/trips/route.ts:18-26 | every document is listed, and only documents of the collection |
| Store.NewestFirstOrdered | app/api/trips/route.ts:26 | each document once, newest stamp first |
| Store.Db.constructor | models/Trip.ts:103 | the initial state of the collections the models register: no documents, so every schema and index invariant holds |
| Store.Db.PutTrip | app/api/invitations/accept/route.ts:56 | writing a valid trip keeps the store valid and changes only that trip |
| Store.Db.PutInvitation | app/api/invitations/accept/route.ts:59-60 | writing a valid invitation with a free (or its own) token keeps the store valid and changes only that invitation |
| Store.Db.PutItinerary | models/Itinerary.ts:109-110 | inserting a valid itinerary with a free (trip, date) keeps the store valid |
| Store.Db.PutFavorite | models/Favorite.ts:53-54 | inserting a valid favourite with a free (user, placeId) keeps the store valid |
| Store.Db.CreateTrip | app/api/trips/route.ts:55-70 | `Trip.create`: a validation error, a duplicate id, or the validated, hooked trip stored under the new id; nothing else changes |
| Store.Db.CreateInvitation | models/Invitation.ts:15-57 | `Invitation.create`: stored exactly when valid with a free id and a free token |
| Store.Db.CreateItinerary | models/Itinerary.ts:91-110 | `Itinerary.create`: stored exactly when valid with a free id and a free (trip, date) |
| Store.Db.CreateFavorite | models/Favorite.ts:15-54 | `Favorite.create`: stored exactly when valid with a free id and key; a valid favourite is refused only by a duplicate key |
| TripsRoute.MemberTrips | app/api/trips/route.ts:18-23 | exactly the stored trips the caller created or takes part in |
| TripsRoute.ListTrips | app/api/trips/route.ts:8-32 | 401 without a caller; otherwise exactly the caller's trips, each once, newest first |
| TripsRoute.CreateInput | app/api/trips/route.ts:55-70 | the caller as creator and sole `admin` participant joined now; `isPublic` is true only when given as true |
| TripsRoute.CreateInputAcceptable | app/api/trips/route.ts:46-70 | past the guard, creation fails its schema exactly on a blank title or destination, a long description, or an end not after the start |
| TripsRoute.ServerError | app/api/trips/route.ts:76-78 | a failure surfaces as 500 with the store's message |
| TripsRoute.PostTrip | app/api/trips/route.ts:35-79 | 401, 400 on a falsy field, 500 on a schema error, else 201 with the stored trip, which is the cast input after the pre-save hook: creator, sole admin, trimmed fields, description kept, `createdAt` now, `isPublic` default, and the `trip-<id>-<stamp>` link exactly when public; nothing stored on failure |
| TripsRoute.BlankTitleIsServerError | app/api/trips/route.ts:46-51 | a title of spaces passes the guard and fails the schema first on `title` |
| TripsRoute.EndBeforeStartIsServerError | app/api/trips/route.ts:76-78 | an end date not after the start passes the guard and fails the schema with the end-date message |
| TripsRoute.CreatedTripIsListed | app/api/trips/route.ts:18-23 | a trip the caller just stored shows up in the caller's list |
| InvitationAccept.JoinTrip | app/api/invitations/accept/route.ts:50-54 | one participant more, at the end, `(caller, role, now)`; everything else unchanged |
| InvitationAccept.JoinDoesNotDeduplicate | app/api/invitations/accept/route.ts:50-54 | a caller already listed ends up listed twice |
| InvitationAccept.CallerEmail | app/api/invitations/accept/route.ts:13-15 | known exactly when the session has a truthy id and a truthy email |
| InvitationAccept.Redeem | app/api/invitations/accept/route.ts:29-65 | past the guards: 400 when no pending, unexpired invitation holds the token and the cast address, 404 when its trip is gone, otherwise 200 with the saved trip; only success changes the store: the trip gains the caller and the invitation becomes accepted, after which no pending match remains |
| InvitationAccept.Accept | app/api/invitations/accept/route.ts:9-69 | 401, 400 on a missing token, then the lookup with the session email cast through the `email` setters: 400 when nothing pending and unexpired matches, 404 when the trip is gone, otherwise 200. Only success changes the store: the trip gains the caller and the invitation becomes accepted, after which no pending match remains |
| InvitationAccept.AcceptTwice | app/api/invitations/accept/route.ts:29-60 | replaying an accepted token answers 400 |
| FavoritesRoute.OwnFavorites | app/api/favorites/route.ts:18 | exactly the caller's favourites |
| FavoritesRoute.ListFavorites | app/api/favorites/route.ts:8-26 | 401 without a caller; otherwise exactly the caller's favourites, newest first |
| FavoritesRoute.CreateInput | app/api/favorites/route.ts:49-57 | the caller as user, the body's fields as they came |
| FavoritesRoute.CreateError | app/api/favorites/route.ts:60-67 | 400 "already in your favorites" exactly for code 11000, otherwise 500 with the message |
| FavoritesRoute.PostFavorite | app/api/favorites/route.ts:29-69 | 401, 400 on the guard, 500 on a schema error, 400 on a taken key, else 201 with the stored favourite; nothing stored on failure |
| FavoritesRoute.ZeroCoordinateAccepted | app/api/favorites/route.ts:40-45 | coordinates of 0 pass the guard and the schema |
| FavoritesRoute.NullCoordinateIsServerError | app/api/favorites/route.ts:40-45 | a null coordinate passes the guard and fails the schema on `lat` |
| ClientStore.ReplaceById | store/tripStore.ts:47-50 | same length; every trip with the id replaced, every other kept in place |
| ClientStore.RemoveById | store/tripStore.ts:53 | no trip with the id remains |
| ClientStore.RemoveByIdCounts | store/tripStore.ts:53 | every other trip is kept as many times as it was there |
| ClientStore.RemoveByIdAppend | store/tripStore.ts:53 | the filter keeps the survivors in their relative order |
| ClientStore.RemoveByIdAbsent | store/tripStore.ts:53 | a list without the id is left as it is |
| ClientStore.RemoveAfterReplace | store/tripStore.ts:47-53 | deleting after updating a trip is deleting it |
| ClientStore.ReplaceByIdIdempotent | store/tripStore.ts:47-50 | updating twice with the same trip is updating once |
| ClientStore.TripStore.constructor | store/tripStore.ts:43-44 | no trips and no selection |
| ClientStore.TripStore.SetTrips | store/tripStore.ts:45 | the list is replaced; the selection is kept |
| ClientStore.TripStore.AddTrip | store/tripStore.ts:46 | the new trip first, the others after it in order |
| ClientStore.TripStore.UpdateTrip | store/tripStore.ts:47-50 | trips with the id replaced in place; the selection untouched |
| ClientStore.TripStore.DeleteTrip | store/tripStore.ts:51-55 | trips with the id removed; the selection cleared exactly when it has the id |
| ClientStore.TripStore.SetSelectedTrip | store/tripStore.ts:56 | only the selection changes |
| TripDetail.SomeAdmin | components/TripDetail.tsx:21-23 | true exactly when some participant has the id and role `admin` |
| TripDetail.IsAdmin | components/TripDetail.tsx:19-24 | true exactly when there is a caller, and the caller created the trip or is an `admin` participant |
| TripDetail.ViewerIsNotAdmin | components/TripDetail.tsx:19-24 | a caller who did not create the trip and only appears as a viewer is not admin |
| TripDetail.DateRange | components/TripDetail.tsx:26-38 | every day from start to end, both included, ascending; empty when start is after end, else end - start + 1 days |
| TripDetail.InitialSelectedDate | components/TripDetail.tsx:41-43 | the first date, or none when there are no dates |
| TripDetail.OpeningDay | components/TripDetail.tsx:40-43 | the page opens on the start day, or on nothing when start is after end |
| ItineraryPlanner.DatePrefix | components/ItineraryPlanner.tsx:68 | the part before the first `T`, or the whole string |
| ItineraryPlanner.FindDayFrom | components/ItineraryPlanner.tsx:67-69 | the first position from `from` on whose date is the day, or none when none is |
| ItineraryPlanner.DayItinerary | components/ItineraryPlanner.tsx:67-70 | the first fetched itinerary on that day, or none exactly when none is on it |
| ItineraryPlanner.NewActivity | components/ItineraryPlanner.tsx:109-117 | the form's fields, with `order` = the number of activities already there (0 without an itinerary) |
| ItineraryPlanner.WithActivity | components/ItineraryPlanner.tsx:119-131 | a new itinerary for (trip, day) holding just the activity, or the old activities with it appended |
| ItineraryPlanner.AddKeepsNumbered | components/ItineraryPlanner.tsx:116-131 | adding keeps every activity's `order` equal to its position |
| ItineraryPlanner.SaveRequest | components/ItineraryPlanner.tsx:79-90 | nothing is sent without an itinerary; otherwise the day and its activities |
| ItineraryPlanner.Planner.constructor | components/ItineraryPlanner.tsx:40-56 | no itinerary, a blank form, the modal closed |
| ItineraryPlanner.Planner.Fetched | components/ItineraryPlanner.tsx:66-70 | the itinerary becomes the day's itinerary among those fetched |
| ItineraryPlanner.Planner.AddActivity | components/ItineraryPlanner.tsx:103-143 | an incomplete form changes nothing; otherwise the activity is appended, the form reset and the modal closed, and positional numbering is kept |
| ItineraryPlanner.InsertByOrder | components/ItineraryPlanner.tsx:189 | one activity more |
| ItineraryPlanner.SortByOrder | components/ItineraryPlanner.tsx:189 | as many activities as before |
| ItineraryPlanner.InsertSplit | components/ItineraryPlanner.tsx:189 | the inserted activity lands after those with a smaller or equal order |
| ItineraryPlanner.WithOrder | components/ItineraryPlanner.tsx:189 | only activities of the given order are kept |
| ItineraryPlanner.WithOrderAppend | components/ItineraryPlanner.tsx:189 | selecting one order class distributes over concatenation |
| ItineraryPlanner.WithOrderSnoc | components/ItineraryPlanner.tsx:189 | appending one activity adds it to its own class only |
| ItineraryPlanner.InsertByOrderWithOrder | components/ItineraryPlanner.tsx:189 | inserting adds the activity at the end of its own order class |
| ItineraryPlanner.SortByOrderStable | components/ItineraryPlanner.tsx:189 | the sort is stable: equal orders keep their relative order |
| ItineraryPlanner.InsertByOrderMultiset | components/ItineraryPlanner.tsx:189 | inserting adds exactly that activity |
| ItineraryPlanner.SortByOrderMultiset | components/ItineraryPlanner.tsx:189 | the sort is a permutation |
| ItineraryPlanner.InsertByOrderElements | components/ItineraryPlanner.tsx:189 | every entry of an insertion is the new activity or an old one |
| ItineraryPlanner.InsertByOrderSorted | components/ItineraryPlanner.tsx:189 | inserting into a sorted list keeps it sorted |
| ItineraryPlanner.SortByOrderSorted | components/ItineraryPlanner.tsx:189 | the result is in ascending `order` |
| ItineraryPlanner.InsertStep | components/ItineraryPlanner.tsx:189 | one in-place insertion step performs `InsertByOrder` on the prefix and leaves the rest alone |
| ItineraryPlanner.SortForDisplay | components/ItineraryPlanner.tsx:188-189 | the array, sorted in place, equals the stable sort of its old contents |
| ItineraryPlanner.Displayed | components/ItineraryPlanner.tsx:153-189 | the shown activities are the itinerary's (or none), sorted stably by ascending `order` |

## Left out

- Rendering, modals, alerts, navigation and `fetch`: these are UI and I/O. The planner keeps only the state that they read and write.
- Database connection, `populate` and the id generator are left out; each query is modelled by the filter its handler uses. Fresh ids and the clock are parameters. The `updatedAt` timestamps are not modelled.
- The TTL index that deletes expired invitations is background store behaviour. Acceptance checks only `expiresAt > now`, as the handler's query does.
- Sparse semantics of the `(user, placeId)` index are left out. An absent `placeId` is treated as a key value like any other.
- The unique index on `shareableLink` is not part of `Store.Db.Valid`.
- Races and partial failure between the two saves of an acceptance are concurrency, so acceptance runs as one sequential step. A failure of the second save is not modelled.
- JavaScript `Date` parsing, `toISOString`, `format`, time zones and daylight saving are left out. Instants are integers and days are day numbers.
- A request date that does not parse (`Invalid Date`) is not modelled.
- Request values of the wrong JSON type are not modelled: a string coordinate, a non-boolean `isPublic`, a non-string title. The body fields are typed.
- Floating-point coordinates are uninterpreted values.
- Handlers not among the core files are not part of this model: invitation creation, per-trip get/update/delete and the itinerary upsert.
- Common.ToLower: lower-cases ASCII letters only, while `toLowerCase` also maps non-ASCII letters.
- Common.MaxLength: counts characters, while JavaScript `length` counts UTF-16 code units, so characters outside the Basic Multilingual Plane count once here and twice there.
- Common.ErrorMessage: a duplicate key's message carries only the index name, not the driver's full text with the collection and key.
- One clock reading `now` stands for every clock read of a request: `createdAt`, the participant's `joinedAt` (`new Date()` in the handlers, the `Date.now` default) and the pre-save hook's `Date.now()` stamp. The source reads the clock separately at each point, so those instants can differ by the time between the reads.
- Store.KeysNewestFirst: trips or favourites with equal `createdAt` come in one chosen order, because the store promises no order among them. The lemmas state only the non-increasing order.
- TripsRoute.HasRequiredFields: any present date counts as truthy. A numeric `0` that JavaScript treats as falsy is not told apart.
- TripDetail.IsAdmin: a participant whose user did not populate (`null`) is not modelled. Without a session, such a participant with role `admin` makes the page's `isAdmin` true.
- ItineraryPlanner.Displayed: the page sorts the state's own activities array in place. The model sorts a fresh array holding the same activities, so the reordering of the state array is not captured.
