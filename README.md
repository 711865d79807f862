# Travel planner: a verified model of its core

A model of a travel-planning application written in TypeScript. The application has an Express/Mongoose
back end and a React front end. Users register and log in. They keep a list of trips, and each trip carries
embedded activities and accommodations. Users can mark trips as favorites. The front end filters and sorts the
trip list, shows statistics over it, and renders a detail page and a profile page.

The model covers these parts:

- **Trip records** (`TravelModel`). The trip, activity and accommodation records with their schema constraints
  as validity predicates. It also covers the status enumeration and its default, and the push-then-save of an
  embedded activity or accommodation.
- **Trip routes** (`TravelRoutes`). The collection of trips is a class with a `seq<Travel>` field. Every
  handler is a method keyed on the record id together with the caller's id.
  - Listing returns the caller's trips sorted newest first.
  - A record of another user answers exactly like a missing one.
  - Create refuses a body with a falsy required field. A budget of 0 counts as falsy, so it is refused here
    although the schema admits it.
  - A record the schema rejects answers 500 and leaves the collection as it was.
- **Favorite routes** (`FavoriteRoutes`). A table of (user, trip) pairs. The check-then-insert keeps each pair
  unique, and removal answers 404 when the pair is absent.
- **Auth routes** (`AuthRoutes`).
  - Register runs its checks in a fixed order: missing field, short password, email in use.
  - Login gives one and the same answer for an unknown email and for a wrong password.
  - Responses carry the user without the password.
- **Search filter** (`SearchFilter`). `handleFilter` as a method: two filter stages, then an in-place sort
  (`Sorting.Sort`, an insertion sort on an array) under one of six comparators. Its contract says the result
  holds exactly the surviving trips, each as often as in the input, in the chosen order. The input is a value,
  so the handler's copy-before-sort leaves it untouched by construction.
- **Statistics** (`Statistics`). The panel's totals, average, per-status dictionary (built by a loop, as the
  source builds it by mutation) and upcoming count. Lemmas relate them to each other and to the store's
  append operations.
- **Detail page** (`TravelDetailPage`).
  - The cost breakdown, and the status label and class.
  - The guards of the two add forms, related to the schema: what passes the guard is valid exactly when its
    cost is positive. A free activity is refused by the form although the schema accepts it.
  - The form state after a successful or a failed add.
- **Profile page** (`ProfilePage`). The list updaters for mark-read, delete, remove-favorite and mark-all-read,
  with the unread badge.
  - State changes only after the service call succeeds; the outcome of the call is a parameter.
  - A lemma ties the page's favorite removal to the server's.

Shared modules:

- `Wrappers`: Option and Result.
- `JsValues`: JavaScript falsiness of an optional field.
- `Http`: error kinds, by status code.
- `Seqs`: `Array.filter`.
- `Text`: lower-casing, `includes` and string comparison.
- `Sorting`: the in-place sort and comparator consistency.

Identifiers are natural numbers and dates are integer timestamps. The current time is a parameter. A body
field that is absent is `None`. JavaScript falsiness of a text field is "absent or empty", and of a number
field "absent or zero".

## Model

| member | source | states |
|---|---|---|
| Seqs.Filter | frontend/src/components/SearchFilter.tsx:19-29 | `Array.filter`: the result keeps exactly the elements passing the test, each as often as in the input, and is no longer than the input |
| Text.Lower | frontend/src/components/SearchFilter.tsx:20-22 | lower-casing keeps the length of the string |
| Text.ContainsIffOccurs | frontend/src/components/SearchFilter.tsx:20-22 | `includes` holds exactly when the term occurs at some index of the string |
| Text.CompareZeroIffEqual | frontend/src/components/SearchFilter.tsx:39-44 | the string comparison is zero exactly for equal strings |
| Text.CompareAntisymmetric | frontend/src/components/SearchFilter.tsx:39-44 | swapping the operands negates the comparison |
| Text.CompareTransitive | frontend/src/components/SearchFilter.tsx:39-44 | the comparison is transitive, so it is a total order usable by the sort |
| Seqs.FilterDropsOne | frontend/src/pages/ProfilePage.tsx:48 | a filter rejecting exactly one position removes that entry and keeps every other in order |
| Sorting.Sort | frontend/src/components/SearchFilter.tsx:32-51 | the in-place sort leaves the array sorted under any consistent comparator and a permutation of what it held |
| TravelModel.ParseStatus | backend/src/models/Travel.ts:141-145 | exactly the four status names are accepted, each read back as the status of that name; every other string is rejected |
| TravelModel.WithActivityValid | backend/src/routes/travels.ts:130-131 | pushing an activity onto a valid record and saving passes the schema exactly when the activity does; earlier activities are kept |
| TravelModel.WithAccommodationValid | backend/src/routes/travels.ts:152-153 | the same for a pushed accommodation |
| TravelRoutes.FromInput | backend/src/routes/travels.ts:41-69 | the new record belongs to the caller, has the default status, both timestamps equal to now, and empty lists when none are given; it passes the schema exactly when budget ≥ 0, participants ≥ 1 and the nested items are valid |
| TravelRoutes.Merge | backend/src/routes/travels.ts:82-86 | every field the patch sets replaces the stored one and every other field is kept, the status by its name and the owner included; the id and creation time are never changed and the update time is refreshed; an empty patch changes nothing else |
| TravelRoutes.MergeValidIff | backend/src/routes/travels.ts:81-85 | for a stored record that passed the schema, the merged record passes it exactly when the values the patch sets pass the update validators |
| TravelRoutes.TravelStore.FindOwned | backend/src/routes/travels.ts:121-124 | finds a position holding the record with that id owned by the caller, or reports that none exists |
| TravelRoutes.TravelStore.List | backend/src/routes/travels.ts:10-11 | exactly the caller's records, each as often as stored, newest first |
| TravelRoutes.TravelStore.Get | backend/src/routes/travels.ts:22-29 | a stored record with that id owned by the caller, or 404 exactly when there is none |
| TravelRoutes.TravelStore.Create | backend/src/routes/travels.ts:41-71 | 400 for a falsy required field and 500 for a record the schema rejects, both leaving the store unchanged; otherwise exactly the record built from the body is appended; ids stay unique and every record valid |
| TravelRoutes.TravelStore.Update | backend/src/routes/travels.ts:79-96 | 500 exactly when the update validators reject the values the patch sets, whether or not a record matches; otherwise 404 exactly when the caller owns no record with that id; success whenever the patch is accepted and the record owned, and then only that record is replaced, by the merge; no change on failure |
| TravelRoutes.TravelStore.Delete | backend/src/routes/travels.ts:102-109 | removes exactly the caller's record with that id and keeps the rest in order, or answers 404 and removes nothing |
| TravelRoutes.TravelStore.AddActivity | backend/src/routes/travels.ts:119-138 | 404 exactly when the caller owns no such record; 500 exactly when the activity breaks the schema; success for an owned record and a valid activity, and then only that record changes, by appending the activity |
| TravelRoutes.TravelStore.AddAccommodation | backend/src/routes/travels.ts:141-160 | the same for accommodations |
| FavoriteRoutes.RemovePreservesUnique | backend/src/models/Favorite.ts:24 | removing an entry keeps the (user, trip) pairs unique |
| FavoriteRoutes.RemoveClearsPair | backend/src/routes/favorites.ts:55-58 | with unique pairs, removing the entry for a pair leaves none for it |
| FavoriteRoutes.FavoriteStore.Find | backend/src/routes/favorites.ts:30-33 | finds a position holding the pair, or reports that none exists |
| FavoriteRoutes.FavoriteStore.List | backend/src/routes/favorites.ts:10-12 | exactly the caller's favorites, each as often as stored, newest first |
| FavoriteRoutes.FavoriteStore.Add | backend/src/routes/favorites.ts:23-45 | 400 for a missing trip id; 400 exactly when the pair is already stored; success otherwise, appending exactly one entry for the caller and the trip; pairs stay unique; no change on failure |
| FavoriteRoutes.FavoriteStore.Remove | backend/src/routes/favorites.ts:55-62 | 404 with no change exactly when the pair is absent; otherwise removes that entry only; afterwards no entry for the pair remains |
| AuthRoutes.UserTable.FindByEmail | backend/src/routes/auth.ts:24 | finds the position of the user with that email, or reports that none exists |
| AuthRoutes.UserTable.Register | backend/src/routes/auth.ts:12-44 | the three refusals in their order, the third exactly when the email is taken; success whenever all three checks pass, and it appends exactly one user with the hashed password and answers the caller's token and the user without the password; emails stay unique; no change on failure |
| AuthRoutes.UserTable.Login | backend/src/routes/auth.ts:54-84 | 400 for a missing field; success exactly when some user has that email and password hash, with that user's session; every other outcome is the one 401 answer |
| SearchFilter.SearchStage | frontend/src/components/SearchFilter.tsx:18-24 | an empty term keeps the list as it is; otherwise a trip is kept exactly when title, destination or description contains the term after lower-casing |
| SearchFilter.StatusStage | frontend/src/components/SearchFilter.tsx:27-29 | "all" keeps the list as it is; otherwise a trip is kept exactly when its status has that name |
| SearchFilter.StagedCounts | frontend/src/components/SearchFilter.tsx:15-29 | the two stages keep each surviving trip as often as in the input and drop every other |
| SearchFilter.ByTextConsistent | frontend/src/components/SearchFilter.tsx:39-44 | comparing a text field of two trips is a consistent comparator |
| SearchFilter.ComparatorConsistent | frontend/src/components/SearchFilter.tsx:32-51 | each of the six sort keys selects a consistent comparator |
| SearchFilter.HandleFilter | frontend/src/components/SearchFilter.tsx:14-54 | the result holds exactly the trips passing both stages, each as often as in the input; it is ordered by the chosen key (createdAt descending or ascending, title or destination ascending, startDate ascending, budget descending); an unknown key leaves the filtered order unchanged |
| SearchFilter.SortCopy | frontend/src/components/SearchFilter.tsx:31-50 | sorting the filtered copy by the key's comparator gives the same trips, in that comparator's order |
| SearchFilter.SortedByKey | frontend/src/components/SearchFilter.tsx:31-50 | being sorted by the comparator of a key orders the trips by that key: createdAt descending or ascending, title or destination by the string comparison, startDate ascending, budget descending |
| Statistics.AverageBudget | frontend/src/components/Statistics.tsx:11 | zero for no trips, otherwise the value whose product with the count is the total budget |
| Statistics.UpcomingCount | frontend/src/components/Statistics.tsx:18-20 | at most the number of trips; zero exactly when no trip starts after now without being cancelled; the full count exactly when all do |
| Statistics.StatusCountsSum | frontend/src/components/Statistics.tsx:13-16 | the four per-status counts add up to the number of trips |
| Statistics.CountStatusBounds | frontend/src/components/Statistics.tsx:22-23 | a status count is at most the number of trips and zero exactly when no trip has that status |
| Statistics.TotalBudgetAppend | frontend/src/components/Statistics.tsx:10 | the budget total over two lists together is the sum of their totals |
| Statistics.TotalBudgetNonNegative | frontend/src/components/Statistics.tsx:10 | records that pass the schema give a total budget of at least zero |
| Statistics.TotalsAfterAddActivity | frontend/src/components/Statistics.tsx:25-26 | appending an activity to one trip raises the activity total by one and leaves the accommodation total alone |
| Statistics.TotalsAfterAddAccommodation | frontend/src/components/Statistics.tsx:25-26 | appending an accommodation to one trip raises the accommodation total by one and leaves the activity total alone |
| Statistics.CountStatusSnoc | frontend/src/components/Statistics.tsx:14 | one more trip raises its own status count by one and no other |
| Statistics.StatusCounts | frontend/src/components/Statistics.tsx:13-16 | the dictionary has an entry exactly for the statuses some trip has, holding the number of trips with it |
| Statistics.Compute | frontend/src/components/Statistics.tsx:8-26 | every figure of the panel equals its definition over the list; the upcoming count is at most the total; the completed and planning figures fall back to zero |
| TravelDetailPage.ActivitiesCostAppend | frontend/src/pages/TravelDetailPage.tsx:183 | the activity cost sum over a list extended by one activity grows by its cost |
| TravelDetailPage.AccommodationsCostAppend | frontend/src/pages/TravelDetailPage.tsx:184 | the same for accommodations |
| TravelDetailPage.TotalCostAfterAddActivity | frontend/src/pages/TravelDetailPage.tsx:183-185 | adding an activity raises the displayed total by its cost |
| TravelDetailPage.TotalCostAfterAddAccommodation | frontend/src/pages/TravelDetailPage.tsx:183-185 | adding an accommodation raises the displayed total by its cost |
| TravelDetailPage.ActivitiesCostNonNegative | frontend/src/pages/TravelDetailPage.tsx:183 | activities that pass the schema have a cost sum of at least zero |
| TravelDetailPage.AccommodationsCostNonNegative | frontend/src/pages/TravelDetailPage.tsx:184 | the same for accommodations |
| TravelDetailPage.TotalCostNonNegative | frontend/src/pages/TravelDetailPage.tsx:185 | a stored trip never shows a negative total |
| TravelDetailPage.StatusLabelProperties | frontend/src/pages/TravelDetailPage.tsx:74-82 | the label equals its input exactly when the input is not one of the four statuses; the four statuses get four different labels |
| TravelDetailPage.StatusClassProperties | frontend/src/pages/TravelDetailPage.tsx:84-92 | a known status gets "status-" followed by its name; anything else gets "status-default"; the four statuses get four different classes |
| TravelDetailPage.ActivityGuardAgainstSchema | frontend/src/pages/TravelDetailPage.tsx:49 | a draft that passes the guard sends an activity the schema accepts exactly when its cost is positive; a cost of 0 never passes the guard |
| TravelDetailPage.AccommodationGuardAgainstSchema | frontend/src/pages/TravelDetailPage.tsx:62 | the same for the accommodation form |
| TravelDetailPage.DetailPage.constructor | frontend/src/pages/TravelDetailPage.tsx:11-16 | the page starts with empty drafts, hidden forms and no error |
| TravelDetailPage.DetailPage.HandleAddActivity | frontend/src/pages/TravelDetailPage.tsx:48-59 | a draft stopped by the guard changes nothing and sends nothing; otherwise it sends the draft's activity; after a successful call the draft is empty and the form hidden; after a failed one only the error message is set; the other form is untouched |
| TravelDetailPage.DetailPage.HandleAddAccommodation | frontend/src/pages/TravelDetailPage.tsx:61-72 | the same for the accommodation form |
| ProfilePage.UnreadCount | frontend/src/pages/ProfilePage.tsx:91 | the badge is at most the number of notifications and zero exactly when all are read |
| ProfilePage.MarkRead | frontend/src/pages/ProfilePage.tsx:35-39 | same length and order; the entries with that id become read and every other entry is unchanged |
| ProfilePage.AllRead | frontend/src/pages/ProfilePage.tsx:135 | same length and order; every entry becomes read and nothing else about it changes |
| ProfilePage.WithoutNotification | frontend/src/pages/ProfilePage.tsx:48 | keeps exactly the entries with another id |
| ProfilePage.WithoutFavorite | frontend/src/pages/ProfilePage.tsx:57 | keeps exactly the entries for other trips |
| ProfilePage.AllReadSettles | frontend/src/pages/ProfilePage.tsx:133-136 | after mark-all-read the badge is zero, and marking all or any one again changes nothing |
| ProfilePage.MarkReadIdempotent | frontend/src/pages/ProfilePage.tsx:35-39 | marking the same notification twice equals marking it once; an unknown id changes nothing |
| ProfilePage.UnreadAfterMarkRead | frontend/src/pages/ProfilePage.tsx:32-43 | after marking one read, the badge counts exactly the unread notifications with another id |
| ProfilePage.UnreadAfterDelete | frontend/src/pages/ProfilePage.tsx:45-52 | after deleting one, the badge shows the same count as after marking it read |
| ProfilePage.DeleteRemovesOnlyThatEntry | frontend/src/pages/ProfilePage.tsx:48 | deleting the notification with a unique id removes that entry and keeps the rest in order |
| ProfilePage.RemoveFavoriteRemovesOnlyThatEntry | frontend/src/pages/ProfilePage.tsx:57 | removing the favorite of a trip listed once removes that entry and keeps the rest in order |
| ProfilePage.RemoveFavoriteAgreesWithServer | frontend/src/pages/ProfilePage.tsx:54-61 | the page's list after removal holds the same entries as the caller's list read back from the server after its delete |
| ProfilePage.Profile.constructor | frontend/src/pages/ProfilePage.tsx:17-30 | the page holds the notification and favorite lists that loading fetched |
| ProfilePage.Profile.HandleMarkAsRead | frontend/src/pages/ProfilePage.tsx:32-43 | after a successful call the list is the mark-read update of the old one; after a failed call it is unchanged; favorites untouched |
| ProfilePage.Profile.HandleDeleteNotification | frontend/src/pages/ProfilePage.tsx:45-52 | the same with the delete update |
| ProfilePage.Profile.HandleRemoveFavorite | frontend/src/pages/ProfilePage.tsx:54-61 | the same with the remove-favorite update on the favorites; notifications untouched |
| ProfilePage.Profile.HandleMarkAllRead | frontend/src/pages/ProfilePage.tsx:133-136 | the same with the mark-all-read update |

## Left out

- Text.Lower: only ASCII letters are folded. `toLowerCase` also folds other scripts, and that folding is not modelled.
- Text.Compare: the comparison is code-point lexicographic order. `localeCompare` collates by locale, and its only use here is as some total order for the sort.
- Sorting.Sort: the order among elements the comparator ties on is left unspecified. Sort stability is engine behaviour and not something the code promises.
- TravelRoutes.TravelStore.Update: the update validators are modelled as `PatchValid`, a check of the values the patch sets, run before the record is matched. `TravelRoutes.MergeValidIff` proves that this agrees with validating the whole merged record, because every stored record already passed the schema.
- TravelRoutes.Merge: a body field set to null has no encoding and reads as an absent field, so the stored value is kept. For a required field the source's update validators answer 500 instead. An empty value is a present value: it is stored, and an empty title or destination then fails the schema with 500, as in the source.
- TravelRoutes.FromInput: a missing description is stored as the empty string, not as an absent field. In the source, a trip created without a description has no description field. The list filter calls `description.toLowerCase()` on it (frontend/src/components/SearchFilter.tsx:22), which throws a TypeError whenever a non-empty term matches neither the title nor the destination. `SearchFilter.HandleFilter` reads it as empty text instead and does not model that exception.
- TravelRoutes.TravelStore.AddActivity, TravelRoutes.TravelStore.AddAccommodation and TravelRoutes.TravelStore.Update take typed activities and accommodations. An activity category or lodging type outside its enumeration, and a missing activity date, cost or category, cannot be written. The model therefore never reaches the 500 the schema validators give for them (backend/src/models/Travel.ts:46-63, 73-95). The update's status, by contrast, arrives as text and is checked against the enumeration.
- AuthRoutes.UserTable.Register: the password length is counted in code points; JavaScript counts UTF-16 units.
- Statistics.AverageBudget: exact rational division. Floating-point rounding, `Math.round` and `toLocaleString` are not modelled.
- Schema `trim` is not modelled. A field of blanks passes the route guards and is then emptied by trimming, which the model does not capture.
- A JavaScript number is modelled as an unbounded integer. Fractional amounts and the limits of floating point are not modelled.
- Password hashing and comparison are one opaque function, fixed when the user table is built. `comparePassword` is modelled as equality of hashes, and the User model source is not part of this model.
- A token is the signed user id. The signing secret and the seven-day expiry are not modelled.
- The authentication middleware is not modelled: the caller's id is a parameter of every handler.
- Any thrown store error other than schema validation is not modelled, nor is its 500 answer. This includes an invalid ObjectId cast and a failed connection.
- ProfilePage.RemoveFavoriteAgreesWithServer: holds only under the abstraction that a favorite carries the trip id. The favorites list calls `populate('travelId')` (backend/src/routes/favorites.ts:11), so on the page `favorite.travelId` is the trip object. The remove button (frontend/src/pages/ProfilePage.tsx:197) therefore sends that object as the path id, where the server would answer 500 after a failed id cast. The page would also render the object as a list heading (frontend/src/pages/ProfilePage.tsx:192). `ProfilePage.Profile.HandleRemoveFavorite` and this lemma do not model populate or the failure that follows from it.
- Creating notifications is not modelled. Their schema defaults (kind info, unread) live in backend/src/models/Notification.ts, and the page only loads, marks and deletes notifications.
- Concurrency is not modelled. This covers the check-then-insert races in register and in favorite add, where the unique index would answer 500, and concurrent updates to one trip.
- Reloading the trip after an add (`loadTravel`) is not modelled. The detail page's add handlers also call the service, and that call's outcome is a parameter.
- A failed "mark all read" call rejects the click handler without a catch. The model covers only its effect on the state, which is none.
- Not part of this model:
  - rendering;
  - routing;
  - the axios service wrappers;
  - the delete-trip handler of the detail page, with its confirm dialog;
  - the user profile route (`backend/src/routes/users.ts`);
  - the notification routes and their service;
  - the trip form page and the home page.
