/** The trip routes: a collection of trip records in which every read, update,
    delete and append is keyed on the record id together with the caller's id. */
module TravelRoutes {
  import opened Wrappers
  import opened JsValues
  import opened Http
  import opened TravelModel
  import opened Seqs
  import Sorting

  /** The body of a create request; `None` is a field the client left out. */
  datatype TravelInput = TravelInput(
    title: Option<string>,
    description: Option<string>,
    destination: Option<string>,
    startDate: Option<Timestamp>,
    endDate: Option<Timestamp>,
    budget: Option<int>,
    participants: Option<int>,
    activities: Option<seq<Activity>>,
    accommodations: Option<seq<Accommodation>>)

  /** The body of an update request. The handler passes the whole body on, so
      any schema field may be set, the owner `userId` included; the status
      arrives as text and is checked against the enumeration. */
  datatype TravelPatch = TravelPatch(
    title: Option<string>,
    description: Option<string>,
    destination: Option<string>,
    startDate: Option<Timestamp>,
    endDate: Option<Timestamp>,
    budget: Option<int>,
    participants: Option<int>,
    status: Option<string>,
    activities: Option<seq<Activity>>,
    accommodations: Option<seq<Accommodation>>,
    userId: Option<Id>)

  /** The update validator of the status enumeration accepts the patch: it
      sets no status or one of the four names. */
  predicate StatusAccepted(p: TravelPatch)
  {
    p.status.None? || ParseStatus(p.status.value).Some?
  }

  /** The update validators accept the values the patch sets: a known status,
      a non-empty title and destination, a budget of at least zero, at least
      one participant, and lists whose entries pass their own schemas. They
      look at the patch alone, before any record is matched. */
  predicate PatchValid(p: TravelPatch)
  {
    && StatusAccepted(p)
    && (p.title.Some? ==> p.title.value != "")
    && (p.destination.Some? ==> p.destination.value != "")
    && (p.budget.Some? ==> p.budget.value >= 0)
    && (p.participants.Some? ==> p.participants.value >= 1)
    && (p.activities.Some? ==> forall i :: 0 <= i < |p.activities.value| ==> ValidActivity(p.activities.value[i]))
    && (p.accommodations.Some? ==>
          forall i :: 0 <= i < |p.accommodations.value| ==> ValidAccommodation(p.accommodations.value[i]))
  }

  /** The create handler's guard: some required field is falsy. */
  predicate MissingRequired(b: TravelInput)
  {
    || FalsyText(b.title) || FalsyText(b.destination)
    || b.startDate.None? || b.endDate.None?
    || FalsyNumber(b.budget) || FalsyNumber(b.participants)
  }

  /** The record `new Travel({...})` builds from a body that passed the guard:
      the status takes its default and the lists default to empty. */
  function FromInput(b: TravelInput, id: Id, owner: Id, now: Timestamp): (t: Travel)
    requires !MissingRequired(b)
    ensures t.id == id && t.userId == owner && t.status == DefaultStatus
    ensures t.createdAt == now && t.updatedAt == now
    ensures b.activities.None? ==> t.activities == []
    ensures b.accommodations.None? ==> t.accommodations == []
    ensures ValidTravel(t) <==>
      && b.budget.value >= 0 && b.participants.value >= 1
      && (forall i :: 0 <= i < |t.activities| ==> ValidActivity(t.activities[i]))
      && (forall i :: 0 <= i < |t.accommodations| ==> ValidAccommodation(t.accommodations[i]))
  {
    Travel(
      id, owner, b.title.value, b.description.GetOr(""), b.destination.value,
      b.startDate.value, b.endDate.value, b.budget.value, b.participants.value,
      DefaultStatus, b.activities.GetOr([]), b.accommodations.GetOr([]), now, now)
  }

  /** `findOneAndUpdate(..., body, { new: true })`: every field present in the
      patch overwrites the stored one and the update time is refreshed; the id
      and the creation time are never touched. */
  function Merge(t: Travel, p: TravelPatch, now: Timestamp): (u: Travel)
    requires StatusAccepted(p)
    ensures u.id == t.id && u.createdAt == t.createdAt && u.updatedAt == now
    ensures u.userId == p.userId.GetOr(t.userId)
    ensures u.title == p.title.GetOr(t.title) && u.description == p.description.GetOr(t.description)
    ensures u.destination == p.destination.GetOr(t.destination)
    ensures u.startDate == p.startDate.GetOr(t.startDate) && u.endDate == p.endDate.GetOr(t.endDate)
    ensures u.budget == p.budget.GetOr(t.budget) && u.participants == p.participants.GetOr(t.participants)
    ensures StatusName(u.status) == p.status.GetOr(StatusName(t.status))
    ensures u.activities == p.activities.GetOr(t.activities)
    ensures u.accommodations == p.accommodations.GetOr(t.accommodations)
    ensures p == TravelPatch(None, None, None, None, None, None, None, None, None, None, None) ==>
              u == t.(updatedAt := now)
  {
    t.(
      title := p.title.GetOr(t.title),
      description := p.description.GetOr(t.description),
      destination := p.destination.GetOr(t.destination),
      startDate := p.startDate.GetOr(t.startDate),
      endDate := p.endDate.GetOr(t.endDate),
      budget := p.budget.GetOr(t.budget),
      participants := p.participants.GetOr(t.participants),
      status := if p.status.Some? then ParseStatus(p.status.value).value else t.status,
      activities := p.activities.GetOr(t.activities),
      accommodations := p.accommodations.GetOr(t.accommodations),
      userId := p.userId.GetOr(t.userId),
      updatedAt := now)
  }

  /** Validating the patch alone decides the validity of the merged record:
      a stored record that passed the schema keeps passing exactly when the
      values the patch sets pass it. */
  lemma MergeValidIff(t: Travel, p: TravelPatch, now: Timestamp)
    requires ValidTravel(t) && StatusAccepted(p)
    ensures ValidTravel(Merge(t, p, now)) <==> PatchValid(p)
  {
  }

  /** The query `{ _id: id, userId: caller }` matches `t`. */
  predicate Owns(t: Travel, caller: Id, id: Id)
  {
    t.id == id && t.userId == caller
  }

  /** The query `{ userId: caller }`. */
  function OwnedBy(caller: Id): Travel -> bool
  {
    (t: Travel) => t.userId == caller
  }

  /** The sort `{ createdAt: -1 }`. */
  const NewestFirst: (Travel, Travel) -> int := Sorting.Descending((t: Travel) => t.createdAt)

  class TravelStore {
    var travels: seq<Travel>
    var nextId: Id

    /** Ids are unique and below `nextId`; every stored record passed the schema. */
    ghost predicate Valid()
      reads this
    {
      && (forall i :: 0 <= i < |travels| ==> travels[i].id < nextId && ValidTravel(travels[i]))
      && (forall i, j :: 0 <= i < j < |travels| ==> travels[i].id != travels[j].id)
    }

    constructor ()
      ensures Valid() && travels == []
    {
      travels := [];
      nextId := 0;
    }

    /** `Travel.findOne({ _id: id, userId: caller })`, as the position of the match. */
    method FindOwned(caller: Id, id: Id) returns (r: Option<nat>)
      ensures r.Some? ==> r.value < |travels| && Owns(travels[r.value], caller, id)
      ensures r.None? ==> forall i :: 0 <= i < |travels| ==> !Owns(travels[i], caller, id)
    {
      var k := 0;
      while k < |travels|
        invariant 0 <= k <= |travels|
        invariant forall i :: 0 <= i < k ==> !Owns(travels[i], caller, id)
      {
        if Owns(travels[k], caller, id) {
          return Some(k);
        }
        k := k + 1;
      }
      return None;
    }

    /** GET /: the caller's records and no others, newest first. */
    method List(caller: Id) returns (r: seq<Travel>)
      ensures multiset(r) == multiset(Filter(travels, OwnedBy(caller)))
      ensures forall t :: t in r ==> t in travels && t.userId == caller
      ensures forall i, j :: 0 <= i < j < |r| ==> r[i].createdAt >= r[j].createdAt
    {
      var owned := Filter(travels, OwnedBy(caller));
      var a := new Travel[|owned|](i requires 0 <= i < |owned| => owned[i]);
      assert a[..] == owned;
      Sorting.DescendingConsistent((t: Travel) => t.createdAt);
      Sorting.Sort(a, NewestFirst);
      r := a[..];
      forall t | t in r
        ensures t in travels && t.userId == caller
      {
        assert multiset(r)[t] > 0;
      }
      forall i, j | 0 <= i < j < |r|
        ensures r[i].createdAt >= r[j].createdAt
      {
        assert NewestFirst(r[i], r[j]) <= 0;
      }
    }

    /** GET /:id: the caller's record with that id; a record of another user
        answers exactly like a missing one. */
    method Get(caller: Id, id: Id) returns (r: Result<Travel, ApiError>)
      ensures r.Success? ==> r.value in travels && Owns(r.value, caller, id)
      ensures r.Failure? ==> r.error == NotFound
      ensures r.Failure? <==> forall i :: 0 <= i < |travels| ==> !Owns(travels[i], caller, id)
    {
      var k := FindOwned(caller, id);
      if k.None? {
        return Failure(NotFound);
      }
      return Success(travels[k.value]);
    }

    /** POST /: refuses a body with a falsy required field, fails when the
        schema rejects the record, and otherwise appends the new record owned
        by the caller. */
    method Create(caller: Id, b: TravelInput, now: Timestamp) returns (r: Result<Travel, ApiError>)
      requires Valid()
      modifies this
      ensures Valid()
      ensures MissingRequired(b) ==> r == Failure(BadRequest(MissingFields))
      ensures !MissingRequired(b) ==>
        var t := FromInput(b, old(nextId), caller, now);
        r == (if ValidTravel(t) then Success(t) else Failure(ServerError))
      ensures r.Success? ==> travels == old(travels) + [r.value] && r.value.userId == caller
      ensures r.Failure? ==> travels == old(travels)
    {
      if MissingRequired(b) {
        return Failure(BadRequest(MissingFields));
      }
      var t := FromInput(b, nextId, caller, now);
      if !ValidTravel(t) {
        return Failure(ServerError);
      }
      travels := travels + [t];
      nextId := nextId + 1;
      r := Success(t);
    }

    /** PUT /:id: the update validators run on the patch first, and a patch
        they reject answers 500 whether or not a record matches; otherwise a
        missing or foreign record answers 404, and the caller's record is
        replaced by the merge. Failures leave the collection as it was. */
    method Update(caller: Id, id: Id, p: TravelPatch, now: Timestamp) returns (r: Result<Travel, ApiError>)
      requires Valid()
      modifies this
      ensures Valid()
      ensures !PatchValid(p) <==> r == Failure(ServerError)
      ensures PatchValid(p) && (forall i :: 0 <= i < |old(travels)| ==> !Owns(old(travels)[i], caller, id)) <==>
                r == Failure(NotFound)
      ensures r.Success? ==>
        exists i :: 0 <= i < |old(travels)| && Owns(old(travels)[i], caller, id) &&
          r.value == Merge(old(travels)[i], p, now) && travels == old(travels)[i := r.value]
      ensures PatchValid(p) && (exists i :: 0 <= i < |old(travels)| && Owns(old(travels)[i], caller, id)) ==>
                r.Success?
      ensures r.Failure? ==> travels == old(travels)
    {
      if !PatchValid(p) {
        return Failure(ServerError);
      }
      var k := FindOwned(caller, id);
      if k.None? {
        return Failure(NotFound);
      }
      var u := Merge(travels[k.value], p, now);
      MergeValidIff(travels[k.value], p, now);
      travels := travels[k.value := u];
      r := Success(u);
    }

    /** DELETE /:id: removes the caller's record with that id, or answers 404
        and removes nothing. */
    method Delete(caller: Id, id: Id) returns (r: Result<(), ApiError>)
      requires Valid()
      modifies this
      ensures Valid()
      ensures r.Failure? <==> forall i :: 0 <= i < |old(travels)| ==> !Owns(old(travels)[i], caller, id)
      ensures r.Failure? ==> r.error == NotFound && travels == old(travels)
      ensures r.Success? ==>
        exists i :: 0 <= i < |old(travels)| && Owns(old(travels)[i], caller, id) &&
          travels == old(travels)[..i] + old(travels)[i + 1..]
    {
      var k := FindOwned(caller, id);
      if k.None? {
        return Failure(NotFound);
      }
      var i := k.value;
      travels := travels[..i] + travels[i + 1..];
      r := Success(());
      assert forall m :: 0 <= m < |travels| ==> travels[m] == old(travels)[if m < i then m else m + 1];
    }

    /** POST /:id/activities: pushes the activity onto the caller's record and
        saves it; the save fails when the activity breaks the schema. */
    method AddActivity(caller: Id, id: Id, a: Activity, now: Timestamp) returns (r: Result<Travel, ApiError>)
      requires Valid()
      modifies this
      ensures Valid()
      ensures (forall i :: 0 <= i < |old(travels)| ==> !Owns(old(travels)[i], caller, id)) <==>
                r == Failure(NotFound)
      ensures r == Failure(ServerError) <==> !ValidActivity(a) && r != Failure(NotFound)
      ensures (exists i :: 0 <= i < |old(travels)| && Owns(old(travels)[i], caller, id)) && ValidActivity(a) ==>
                r.Success?
      ensures r.Success? ==>
        exists i :: 0 <= i < |old(travels)| && Owns(old(travels)[i], caller, id) &&
          r.value == WithActivity(old(travels)[i], a, now) && travels == old(travels)[i := r.value]
      ensures r.Failure? ==> travels == old(travels)
    {
      var k := FindOwned(caller, id);
      if k.None? {
        return Failure(NotFound);
      }
      if !ValidActivity(a) {
        return Failure(ServerError);
      }
      var u := WithActivity(travels[k.value], a, now);
      WithActivityValid(travels[k.value], a, now);
      travels := travels[k.value := u];
      r := Success(u);
    }

    /** POST /:id/accommodations: the same for the accommodation list. */
    method AddAccommodation(caller: Id, id: Id, a: Accommodation, now: Timestamp) returns (r: Result<Travel, ApiError>)
      requires Valid()
      modifies this
      ensures Valid()
      ensures (forall i :: 0 <= i < |old(travels)| ==> !Owns(old(travels)[i], caller, id)) <==>
                r == Failure(NotFound)
      ensures r == Failure(ServerError) <==> !ValidAccommodation(a) && r != Failure(NotFound)
      ensures (exists i :: 0 <= i < |old(travels)| && Owns(old(travels)[i], caller, id)) && ValidAccommodation(a) ==>
                r.Success?
      ensures r.Success? ==>
        exists i :: 0 <= i < |old(travels)| && Owns(old(travels)[i], caller, id) &&
          r.value == WithAccommodation(old(travels)[i], a, now) && travels == old(travels)[i := r.value]
      ensures r.Failure? ==> travels == old(travels)
    {
      var k := FindOwned(caller, id);
      if k.None? {
        return Failure(NotFound);
      }
      if !ValidAccommodation(a) {
        return Failure(ServerError);
      }
      var u := WithAccommodation(travels[k.value], a, now);
      WithAccommodationValid(travels[k.value], a, now);
      travels := travels[k.value := u];
      r := Success(u);
    }
  }
}
