/** The trip record with its embedded activities and accommodations, the
    schema constraints every stored record satisfies, and the enumerations
    the schema allows. */
module TravelModel {
  import opened Wrappers

  /** Record identifiers (ObjectIds) and timestamps (milliseconds). */
  type Id = nat
  type Timestamp = int

  datatype Status = Planning | Confirmed | Completed | Cancelled

  datatype Category = Sightseeing | Food | Shopping | Entertainment | Transport | OtherActivity

  datatype LodgingType = Hotel | Ryokan | Guesthouse | Apartment | OtherLodging

  datatype Activity = Activity(
    name: string,
    description: string,
    date: Timestamp,
    location: string,
    cost: int,
    category: Category)

  datatype Accommodation = Accommodation(
    name: string,
    kind: LodgingType,
    address: string,
    checkIn: Timestamp,
    checkOut: Timestamp,
    cost: int,
    rating: Option<int>)

  datatype Travel = Travel(
    id: Id,
    userId: Id,
    title: string,
    description: string,
    destination: string,
    startDate: Timestamp,
    endDate: Timestamp,
    budget: int,
    participants: int,
    status: Status,
    activities: seq<Activity>,
    accommodations: seq<Accommodation>,
    createdAt: Timestamp,
    updatedAt: Timestamp)

  /** The status value as stored and sent to the client. */
  function StatusName(s: Status): string
  {
    match s
    case Planning => "planning"
    case Confirmed => "confirmed"
    case Completed => "completed"
    case Cancelled => "cancelled"
  }

  /** The schema's enum check on a status string: exactly the four names are accepted. */
  function ParseStatus(x: string): (r: Option<Status>)
    ensures r.Some? ==> StatusName(r.value) == x
    ensures r.None? ==> forall s :: StatusName(s) != x
  {
    if x == "planning" then Some(Planning)
    else if x == "confirmed" then Some(Confirmed)
    else if x == "completed" then Some(Completed)
    else if x == "cancelled" then Some(Cancelled)
    else None
  }

  /** The status a new record gets when none is given. */
  const DefaultStatus: Status := Planning

  // Schema constraints. A required string must be non-empty; `min`/`max`
  // bound the numbers; the enumerations hold by construction of the types.

  predicate ValidActivity(a: Activity)
  {
    a.name != "" && a.location != "" && a.cost >= 0
  }

  predicate ValidRating(r: Option<int>)
  {
    r.None? || 1 <= r.value <= 5
  }

  predicate ValidAccommodation(a: Accommodation)
  {
    a.name != "" && a.address != "" && a.cost >= 0 && ValidRating(a.rating)
  }

  predicate ValidTravel(t: Travel)
  {
    && t.title != ""
    && t.destination != ""
    && t.budget >= 0
    && t.participants >= 1
    && (forall i :: 0 <= i < |t.activities| ==> ValidActivity(t.activities[i]))
    && (forall i :: 0 <= i < |t.accommodations| ==> ValidAccommodation(t.accommodations[i]))
  }

  /** `travel.activities.push(a)` followed by a save at time `now`. */
  function WithActivity(t: Travel, a: Activity, now: Timestamp): Travel
  {
    t.(activities := t.activities + [a], updatedAt := now)
  }

  /** `travel.accommodations.push(a)` followed by a save at time `now`. */
  function WithAccommodation(t: Travel, a: Accommodation, now: Timestamp): Travel
  {
    t.(accommodations := t.accommodations + [a], updatedAt := now)
  }

  /** A save after a push passes validation exactly when the record was valid
      and the pushed activity is valid; the earlier activities are kept. */
  lemma WithActivityValid(t: Travel, a: Activity, now: Timestamp)
    requires ValidTravel(t)
    ensures ValidTravel(WithActivity(t, a, now)) <==> ValidActivity(a)
    ensures WithActivity(t, a, now).activities[..|t.activities|] == t.activities
  {
    var u := WithActivity(t, a, now);
    assert u.activities[|t.activities|] == a;
  }

  /** The same for a pushed accommodation. */
  lemma WithAccommodationValid(t: Travel, a: Accommodation, now: Timestamp)
    requires ValidTravel(t)
    ensures ValidTravel(WithAccommodation(t, a, now)) <==> ValidAccommodation(a)
    ensures WithAccommodation(t, a, now).accommodations[..|t.accommodations|] == t.accommodations
  {
    var u := WithAccommodation(t, a, now);
    assert u.accommodations[|t.accommodations|] == a;
  }
}
