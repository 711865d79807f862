/** The trip detail page: the cost breakdown, the status badge, and the two
    add forms with their guards. */
module TravelDetailPage {
  import opened Wrappers
  import opened JsValues
  import opened TravelModel

  /** `activities.reduce((sum, a) => sum + a.cost, 0)`. */
  function ActivitiesCost(acts: seq<Activity>): int
  {
    if acts == [] then 0 else acts[0].cost + ActivitiesCost(acts[1..])
  }

  /** `accommodations.reduce((sum, a) => sum + a.cost, 0)`. */
  function AccommodationsCost(accs: seq<Accommodation>): int
  {
    if accs == [] then 0 else accs[0].cost + AccommodationsCost(accs[1..])
  }

  /** The total line of the breakdown. */
  function TotalCost(t: Travel): int
  {
    ActivitiesCost(t.activities) + AccommodationsCost(t.accommodations)
  }

  lemma {:induction false} ActivitiesCostAppend(acts: seq<Activity>, a: Activity)
    ensures ActivitiesCost(acts + [a]) == ActivitiesCost(acts) + a.cost
  {
    if acts != [] {
      assert (acts + [a])[1..] == acts[1..] + [a];
      ActivitiesCostAppend(acts[1..], a);
    } else {
      assert acts + [a] == [a];
    }
  }

  lemma {:induction false} AccommodationsCostAppend(accs: seq<Accommodation>, a: Accommodation)
    ensures AccommodationsCost(accs + [a]) == AccommodationsCost(accs) + a.cost
  {
    if accs != [] {
      assert (accs + [a])[1..] == accs[1..] + [a];
      AccommodationsCostAppend(accs[1..], a);
    } else {
      assert accs + [a] == [a];
    }
  }

  /** Adding an activity to a trip raises the displayed total by its cost. */
  lemma TotalCostAfterAddActivity(t: Travel, a: Activity, now: Timestamp)
    ensures TotalCost(WithActivity(t, a, now)) == TotalCost(t) + a.cost
  {
    ActivitiesCostAppend(t.activities, a);
  }

  /** Adding an accommodation to a trip raises the displayed total by its cost. */
  lemma TotalCostAfterAddAccommodation(t: Travel, a: Accommodation, now: Timestamp)
    ensures TotalCost(WithAccommodation(t, a, now)) == TotalCost(t) + a.cost
  {
    AccommodationsCostAppend(t.accommodations, a);
  }

  lemma {:induction false} ActivitiesCostNonNegative(acts: seq<Activity>)
    requires forall i :: 0 <= i < |acts| ==> ValidActivity(acts[i])
    ensures ActivitiesCost(acts) >= 0
  {
    if acts != [] {
      assert ValidActivity(acts[0]);
      ActivitiesCostNonNegative(acts[1..]);
    }
  }

  lemma {:induction false} AccommodationsCostNonNegative(accs: seq<Accommodation>)
    requires forall i :: 0 <= i < |accs| ==> ValidAccommodation(accs[i])
    ensures AccommodationsCost(accs) >= 0
  {
    if accs != [] {
      assert ValidAccommodation(accs[0]);
      AccommodationsCostNonNegative(accs[1..]);
    }
  }

  /** A stored trip never shows a negative total. */
  lemma TotalCostNonNegative(t: Travel)
    requires ValidTravel(t)
    ensures TotalCost(t) >= 0
  {
    ActivitiesCostNonNegative(t.activities);
    AccommodationsCostNonNegative(t.accommodations);
  }

  /** `getStatusLabel`: the Japanese label of a known status, any other string as it is. */
  function StatusLabel(status: string): string
  {
    match status
    case "planning" => "計画中"
    case "confirmed" => "確定"
    case "completed" => "完了"
    case "cancelled" => "キャンセル"
    case _ => status
  }

  /** A label equals its input exactly when the input is not a known status,
      and the four known statuses get four different labels. */
  lemma StatusLabelProperties(x: string)
    ensures StatusLabel(x) == x <==> ParseStatus(x).None?
    ensures forall s, u :: s != u ==> StatusLabel(StatusName(s)) != StatusLabel(StatusName(u))
  {
  }

  /** `getStatusClass`: "status-<name>" for a known status, "status-default" otherwise. */
  function StatusClass(status: string): string
  {
    match status
    case "planning" => "status-planning"
    case "confirmed" => "status-confirmed"
    case "completed" => "status-completed"
    case "cancelled" => "status-cancelled"
    case _ => "status-default"
  }

  /** The class is the status name behind a fixed prefix for a known status
      and the fallback class otherwise, so distinct statuses get distinct classes. */
  lemma StatusClassProperties(x: string)
    ensures ParseStatus(x).Some? ==> StatusClass(x) == "status-" + x
    ensures ParseStatus(x).None? ==> StatusClass(x) == "status-default"
    ensures forall s, u :: s != u ==> StatusClass(StatusName(s)) != StatusClass(StatusName(u))
  {
  }

  /** The add-activity form's contents: each field may still be unset. */
  datatype ActivityDraft = ActivityDraft(
    name: Option<string>,
    description: Option<string>,
    date: Option<Timestamp>,
    location: Option<string>,
    cost: Option<int>,
    category: Option<Category>)

  /** The add-accommodation form's contents. */
  datatype AccommodationDraft = AccommodationDraft(
    name: Option<string>,
    kind: Option<LodgingType>,
    address: Option<string>,
    checkIn: Option<Timestamp>,
    checkOut: Option<Timestamp>,
    cost: Option<int>)

  const EmptyActivityDraft: ActivityDraft := ActivityDraft(None, None, None, None, None, None)
  const EmptyAccommodationDraft: AccommodationDraft := AccommodationDraft(None, None, None, None, None, None)

  const ActivityError: string := "アクティビティの追加に失敗しました"
  const AccommodationError: string := "宿泊施設の追加に失敗しました"

  /** Some field `handleAddActivity` requires is falsy. */
  predicate ActivityDraftIncomplete(d: ActivityDraft)
  {
    FalsyText(d.name) || d.date.None? || FalsyText(d.location) || FalsyNumber(d.cost) || d.category.None?
  }

  /** Some field `handleAddAccommodation` requires is falsy. */
  predicate AccommodationDraftIncomplete(d: AccommodationDraft)
  {
    || FalsyText(d.name) || d.kind.None? || FalsyText(d.address)
    || d.checkIn.None? || d.checkOut.None? || FalsyNumber(d.cost)
  }

  /** The early return of `handleAddActivity`: no trip id or an incomplete draft. */
  predicate ActivityGuardFails(id: Option<Id>, d: ActivityDraft)
  {
    id.None? || ActivityDraftIncomplete(d)
  }

  /** The early return of `handleAddAccommodation`. */
  predicate AccommodationGuardFails(id: Option<Id>, d: AccommodationDraft)
  {
    id.None? || AccommodationDraftIncomplete(d)
  }

  /** The activity a complete draft sends. */
  function DraftActivity(d: ActivityDraft): Activity
    requires !ActivityDraftIncomplete(d)
  {
    Activity(d.name.value, d.description.GetOr(""), d.date.value, d.location.value, d.cost.value, d.category.value)
  }

  /** The accommodation a complete draft sends; the form has no rating field. */
  function DraftAccommodation(d: AccommodationDraft): Accommodation
    requires !AccommodationDraftIncomplete(d)
  {
    Accommodation(d.name.value, d.kind.value, d.address.value, d.checkIn.value, d.checkOut.value, d.cost.value, None)
  }

  /** What the guard lets through passes the schema exactly when its cost is
      not negative; an activity costing 0, which the schema accepts, never gets
      past the guard. */
  lemma ActivityGuardAgainstSchema(d: ActivityDraft)
    ensures !ActivityDraftIncomplete(d) ==> (ValidActivity(DraftActivity(d)) <==> d.cost.value > 0)
    ensures d.cost == Some(0) ==> ActivityDraftIncomplete(d)
  {
  }

  /** The same for accommodations. */
  lemma AccommodationGuardAgainstSchema(d: AccommodationDraft)
    ensures !AccommodationDraftIncomplete(d) ==> (ValidAccommodation(DraftAccommodation(d)) <==> d.cost.value > 0)
    ensures d.cost == Some(0) ==> AccommodationDraftIncomplete(d)
  {
  }

  /** The page state the two add handlers touch. */
  class DetailPage {
    const id: Option<Id>
    var newActivity: ActivityDraft
    var newAccommodation: AccommodationDraft
    var showActivityForm: bool
    var showAccommodationForm: bool
    var error: string

    constructor (id: Option<Id>)
      ensures this.id == id && error == ""
      ensures newActivity == EmptyActivityDraft && newAccommodation == EmptyAccommodationDraft
      ensures !showActivityForm && !showAccommodationForm
    {
      this.id := id;
      newActivity := EmptyActivityDraft;
      newAccommodation := EmptyAccommodationDraft;
      showActivityForm := false;
      showAccommodationForm := false;
      error := "";
    }

    /** `handleAddActivity`; `callSucceeds` is the outcome of the service call.
        A guarded-out draft changes nothing and sends nothing; a successful
        call clears the draft and hides the form; a failed call only sets the
        error message. */
    method HandleAddActivity(callSucceeds: bool) returns (sent: Option<Activity>)
      modifies this
      ensures ActivityGuardFails(id, old(newActivity)) ==>
        sent.None? && newActivity == old(newActivity) && showActivityForm == old(showActivityForm) && error == old(error)
      ensures !ActivityGuardFails(id, old(newActivity)) ==> sent == Some(DraftActivity(old(newActivity)))
      ensures !ActivityGuardFails(id, old(newActivity)) && callSucceeds ==>
        newActivity == EmptyActivityDraft && !showActivityForm && error == old(error)
      ensures !ActivityGuardFails(id, old(newActivity)) && !callSucceeds ==>
        newActivity == old(newActivity) && showActivityForm == old(showActivityForm) && error == ActivityError
      ensures newAccommodation == old(newAccommodation) && showAccommodationForm == old(showAccommodationForm)
    {
      if ActivityGuardFails(id, newActivity) {
        return None;
      }
      sent := Some(DraftActivity(newActivity));
      if callSucceeds {
        newActivity := EmptyActivityDraft;
        showActivityForm := false;
      } else {
        error := ActivityError;
      }
    }

    /** `handleAddAccommodation`, with the same shape. */
    method HandleAddAccommodation(callSucceeds: bool) returns (sent: Option<Accommodation>)
      modifies this
      ensures AccommodationGuardFails(id, old(newAccommodation)) ==>
        sent.None? && newAccommodation == old(newAccommodation) &&
        showAccommodationForm == old(showAccommodationForm) && error == old(error)
      ensures !AccommodationGuardFails(id, old(newAccommodation)) ==>
        sent == Some(DraftAccommodation(old(newAccommodation)))
      ensures !AccommodationGuardFails(id, old(newAccommodation)) && callSucceeds ==>
        newAccommodation == EmptyAccommodationDraft && !showAccommodationForm && error == old(error)
      ensures !AccommodationGuardFails(id, old(newAccommodation)) && !callSucceeds ==>
        newAccommodation == old(newAccommodation) && showAccommodationForm == old(showAccommodationForm) &&
        error == AccommodationError
      ensures newActivity == old(newActivity) && showActivityForm == old(showActivityForm)
    {
      if AccommodationGuardFails(id, newAccommodation) {
        return None;
      }
      sent := Some(DraftAccommodation(newAccommodation));
      if callSucceeds {
        newAccommodation := EmptyAccommodationDraft;
        showAccommodationForm := false;
      } else {
        error := AccommodationError;
      }
    }
  }
}
