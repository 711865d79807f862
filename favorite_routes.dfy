/** The favorite routes: a table of (user, trip) pairs in which each pair is
    stored at most once, enforced by a lookup before every insert. */
module FavoriteRoutes {
  import opened Wrappers
  import opened Http
  import opened TravelModel
  import opened Seqs
  import Sorting

  datatype Favorite = Favorite(id: Id, userId: Id, travelId: Id, createdAt: Timestamp)

  /** The unique index on `{ userId: 1, travelId: 1 }`. */
  ghost predicate UniquePairs(fs: seq<Favorite>)
  {
    forall i, j :: 0 <= i < j < |fs| ==> !(fs[i].userId == fs[j].userId && fs[i].travelId == fs[j].travelId)
  }

  predicate Matches(f: Favorite, user: Id, travelId: Id)
  {
    f.userId == user && f.travelId == travelId
  }

  /** The query `{ userId: caller }`. */
  function OwnedBy(caller: Id): Favorite -> bool
  {
    (f: Favorite) => f.userId == caller
  }

  /** The sort `{ createdAt: -1 }`. */
  const NewestFirst: (Favorite, Favorite) -> int := Sorting.Descending((f: Favorite) => f.createdAt)

  /** Removing one entry from a table with unique pairs keeps the pairs unique. */
  lemma RemovePreservesUnique(fs: seq<Favorite>, k: nat)
    requires k < |fs| && UniquePairs(fs)
    ensures UniquePairs(fs[..k] + fs[k + 1..])
  {
  }

  /** In a table with unique pairs, removing the entry for a pair leaves no
      entry for that pair. */
  lemma RemoveClearsPair(fs: seq<Favorite>, k: nat)
    requires k < |fs| && UniquePairs(fs)
    ensures forall f :: f in fs[..k] + fs[k + 1..] ==> !Matches(f, fs[k].userId, fs[k].travelId)
  {
  }

  class FavoriteStore {
    var favorites: seq<Favorite>
    var nextId: Id

    ghost predicate Valid()
      reads this
    {
      && UniquePairs(favorites)
      && (forall i :: 0 <= i < |favorites| ==> favorites[i].id < nextId)
    }

    constructor ()
      ensures Valid() && favorites == []
    {
      favorites := [];
      nextId := 0;
    }

    /** `Favorite.findOne({ userId, travelId })`, as the position of the match. */
    method Find(user: Id, travelId: Id) returns (r: Option<nat>)
      ensures r.Some? ==> r.value < |favorites| && Matches(favorites[r.value], user, travelId)
      ensures r.None? ==> forall i :: 0 <= i < |favorites| ==> !Matches(favorites[i], user, travelId)
    {
      var k := 0;
      while k < |favorites|
        invariant 0 <= k <= |favorites|
        invariant forall i :: 0 <= i < k ==> !Matches(favorites[i], user, travelId)
      {
        if Matches(favorites[k], user, travelId) {
          return Some(k);
        }
        k := k + 1;
      }
      return None;
    }

    /** GET /: the caller's favorites and no others, newest first. */
    method List(caller: Id) returns (r: seq<Favorite>)
      ensures multiset(r) == multiset(Filter(favorites, OwnedBy(caller)))
      ensures forall f :: f in r ==> f in favorites && f.userId == caller
      ensures forall i, j :: 0 <= i < j < |r| ==> r[i].createdAt >= r[j].createdAt
    {
      var owned := Filter(favorites, OwnedBy(caller));
      var a := new Favorite[|owned|](i requires 0 <= i < |owned| => owned[i]);
      assert a[..] == owned;
      Sorting.DescendingConsistent((f: Favorite) => f.createdAt);
      Sorting.Sort(a, NewestFirst);
      r := a[..];
      forall f | f in r
        ensures f in favorites && f.userId == caller
      {
        assert multiset(r)[f] > 0;
      }
      forall i, j | 0 <= i < j < |r|
        ensures r[i].createdAt >= r[j].createdAt
      {
        assert NewestFirst(r[i], r[j]) <= 0;
      }
    }

    /** POST /: refuses a missing travelId and a pair that is already stored;
        otherwise stores exactly one new entry for the pair. */
    method Add(caller: Id, travelId: Option<Id>, now: Timestamp) returns (r: Result<Favorite, ApiError>)
      requires Valid()
      modifies this
      ensures Valid()
      ensures travelId.None? ==> r == Failure(BadRequest(MissingTravelId))
      ensures travelId.Some? ==>
        ((exists i :: 0 <= i < |old(favorites)| && Matches(old(favorites)[i], caller, travelId.value)) <==>
         r == Failure(BadRequest(AlreadyFavorite)))
      ensures travelId.Some? &&
              (forall i :: 0 <= i < |old(favorites)| ==> !Matches(old(favorites)[i], caller, travelId.value)) ==>
                r.Success?
      ensures r.Success? ==>
        r.value == Favorite(old(nextId), caller, travelId.value, now) &&
        favorites == old(favorites) + [r.value]
      ensures r.Failure? ==> favorites == old(favorites)
    {
      if travelId.None? {
        return Failure(BadRequest(MissingTravelId));
      }
      var existing := Find(caller, travelId.value);
      if existing.Some? {
        return Failure(BadRequest(AlreadyFavorite));
      }
      var f := Favorite(nextId, caller, travelId.value, now);
      favorites := favorites + [f];
      nextId := nextId + 1;
      r := Success(f);
    }

    /** DELETE /:travelId: removes the caller's entry for the trip, or answers
        404 and removes nothing. */
    method Remove(caller: Id, travelId: Id) returns (r: Result<(), ApiError>)
      requires Valid()
      modifies this
      ensures Valid()
      ensures r.Failure? <==> forall i :: 0 <= i < |old(favorites)| ==> !Matches(old(favorites)[i], caller, travelId)
      ensures r.Failure? ==> r.error == NotFound && favorites == old(favorites)
      ensures r.Success? ==>
        exists i :: 0 <= i < |old(favorites)| && Matches(old(favorites)[i], caller, travelId) &&
          favorites == old(favorites)[..i] + old(favorites)[i + 1..]
      ensures forall f :: f in favorites ==> !Matches(f, caller, travelId)
    {
      var k := Find(caller, travelId);
      if k.None? {
        return Failure(NotFound);
      }
      var i := k.value;
      RemovePreservesUnique(favorites, i);
      RemoveClearsPair(favorites, i);
      favorites := favorites[..i] + favorites[i + 1..];
      r := Success(());
    }
  }
}
