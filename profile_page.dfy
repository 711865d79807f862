/** The profile page: the notification list with its unread badge and the
    favorites list, each updated locally only after the service call for
    the action has succeeded. */
module ProfilePage {
  import opened TravelModel
  import opened Seqs
  import FavoriteRoutes

  /** The `type` enumeration of a notification. */
  datatype NotificationType = Info | Success | Warning | Error

  datatype Notification = Notification(
    id: Id,
    title: string,
    message: string,
    kind: NotificationType,
    read: bool,
    createdAt: Timestamp)

  predicate IsUnread(n: Notification)
  {
    !n.read
  }

  /** `notif._id !== notificationId`, the test the delete handler keeps by. */
  function OtherThan(id: Id): Notification -> bool
  {
    (n: Notification) => n.id != id
  }

  /** Unread and not the given notification. */
  function UnreadOtherThan(id: Id): Notification -> bool
  {
    (n: Notification) => !n.read && n.id != id
  }

  /** `fav.travelId !== travelId`, the test the favorite handler keeps by. */
  function NotForTrip(travelId: Id): FavoriteRoutes.Favorite -> bool
  {
    (f: FavoriteRoutes.Favorite) => f.travelId != travelId
  }

  /** The badge on the notifications tab: the number of unread notifications,
      zero exactly when every notification is read. */
  function UnreadCount(ns: seq<Notification>): (n: nat)
    ensures n <= |ns|
    ensures n == 0 <==> forall i :: 0 <= i < |ns| ==> ns[i].read
  {
    var r := Filter(ns, IsUnread);
    assert (exists i :: 0 <= i < |ns| && !ns[i].read) ==> r != [] by {
      if i :| 0 <= i < |ns| && !ns[i].read {
        assert ns[i] in ns && IsUnread(ns[i]);
        assert ns[i] in r;
      }
    }
    |r|
  }

  /** The update made by `handleMarkAsRead`: the notifications with that id
      become read, all others stay as they are, in the same order. */
  function MarkRead(ns: seq<Notification>, id: Id): (r: seq<Notification>)
    ensures |r| == |ns|
    ensures forall i :: 0 <= i < |ns| ==> r[i] == if ns[i].id == id then ns[i].(read := true) else ns[i]
  {
    if ns == [] then []
    else [if ns[0].id == id then ns[0].(read := true) else ns[0]] + MarkRead(ns[1..], id)
  }

  /** The update made by the "mark all read" button: every notification
      becomes read, in the same order. */
  function AllRead(ns: seq<Notification>): (r: seq<Notification>)
    ensures |r| == |ns|
    ensures forall i :: 0 <= i < |ns| ==> r[i] == ns[i].(read := true)
  {
    if ns == [] then [] else [ns[0].(read := true)] + AllRead(ns[1..])
  }

  /** The update made by `handleDeleteNotification`. */
  function WithoutNotification(ns: seq<Notification>, id: Id): (r: seq<Notification>)
    ensures forall n :: n in r <==> n in ns && n.id != id
    ensures |r| <= |ns|
  {
    Filter(ns, OtherThan(id))
  }

  /** The update made by `handleRemoveFavorite`: the entries for that trip go. */
  function WithoutFavorite(fs: seq<FavoriteRoutes.Favorite>, travelId: Id): (r: seq<FavoriteRoutes.Favorite>)
    ensures forall f :: f in r <==> f in fs && f.travelId != travelId
    ensures |r| <= |fs|
  {
    Filter(fs, NotForTrip(travelId))
  }

  /** After "mark all read" the badge shows zero, and pressing it again or
      marking any one notification read changes nothing. */
  lemma AllReadSettles(ns: seq<Notification>, id: Id)
    ensures UnreadCount(AllRead(ns)) == 0
    ensures AllRead(AllRead(ns)) == AllRead(ns)
    ensures MarkRead(AllRead(ns), id) == AllRead(ns)
  {
  }

  /** Marking a notification read twice is the same as marking it once, and
      marking an id no notification has changes nothing. */
  lemma MarkReadIdempotent(ns: seq<Notification>, id: Id)
    ensures MarkRead(MarkRead(ns, id), id) == MarkRead(ns, id)
    ensures (forall i :: 0 <= i < |ns| ==> ns[i].id != id) ==> MarkRead(ns, id) == ns
  {
  }

  /** After marking a notification read, the badge counts exactly the unread
      notifications with another id. */
  lemma {:induction false} UnreadAfterMarkRead(ns: seq<Notification>, id: Id)
    ensures UnreadCount(MarkRead(ns, id)) == Count(ns, UnreadOtherThan(id))
  {
    if ns != [] {
      var r := MarkRead(ns, id);
      assert r[1..] == MarkRead(ns[1..], id);
      UnreadAfterMarkRead(ns[1..], id);
      assert r == [r[0]] + r[1..];
      FilterCons(r[0], r[1..], IsUnread);
    }
  }

  /** After deleting a notification, the badge counts exactly the unread
      notifications with another id: the same as after marking it read. */
  lemma {:induction false} UnreadAfterDelete(ns: seq<Notification>, id: Id)
    ensures UnreadCount(WithoutNotification(ns, id)) == Count(ns, UnreadOtherThan(id))
  {
    if ns != [] {
      var x, rest := ns[0], ns[1..];
      var head := if x.id != id then [x] else [];
      var unread := if !x.read && x.id != id then [x] else [];
      assert ns == [x] + rest;
      FilterCons(x, rest, OtherThan(id));
      FilterCons(x, rest, UnreadOtherThan(id));
      assert WithoutNotification(ns, id) == head + WithoutNotification(rest, id);
      assert Count(ns, UnreadOtherThan(id)) == |unread| + Count(rest, UnreadOtherThan(id));
      UnreadAfterDelete(rest, id);
      if x.id != id {
        FilterCons(x, WithoutNotification(rest, id), IsUnread);
      } else {
        assert head + WithoutNotification(rest, id) == WithoutNotification(rest, id);
      }
    }
  }

  /** Deleting the one notification with a given id removes exactly that
      entry and keeps the others in their order. */
  lemma DeleteRemovesOnlyThatEntry(ns: seq<Notification>, k: nat)
    requires k < |ns|
    requires forall i :: 0 <= i < |ns| && i != k ==> ns[i].id != ns[k].id
    ensures WithoutNotification(ns, ns[k].id) == ns[..k] + ns[k + 1..]
  {
    FilterDropsOne(ns, k, OtherThan(ns[k].id));
  }

  /** Removing the favorite of a trip that has one entry on the page removes
      exactly that entry and keeps the others in their order. */
  lemma RemoveFavoriteRemovesOnlyThatEntry(fs: seq<FavoriteRoutes.Favorite>, k: nat)
    requires k < |fs|
    requires forall i :: 0 <= i < |fs| && i != k ==> fs[i].travelId != fs[k].travelId
    ensures WithoutFavorite(fs, fs[k].travelId) == fs[..k] + fs[k + 1..]
  {
    FilterDropsOne(fs, k, NotForTrip(fs[k].travelId));
  }

  /** Removing a favorite on the page leaves the same entries, counted with
      multiplicity, as the caller's list read back from the server after its
      DELETE removed the stored entry for that trip. */
  lemma RemoveFavoriteAgreesWithServer(
    stored: seq<FavoriteRoutes.Favorite>, k: nat, caller: Id, travelId: Id,
    shown: seq<FavoriteRoutes.Favorite>)
    requires FavoriteRoutes.UniquePairs(stored)
    requires k < |stored| && FavoriteRoutes.Matches(stored[k], caller, travelId)
    requires multiset(shown) == multiset(Filter(stored, FavoriteRoutes.OwnedBy(caller)))
    ensures multiset(WithoutFavorite(shown, travelId)) ==
            multiset(Filter(stored[..k] + stored[k + 1..], FavoriteRoutes.OwnedBy(caller)))
  {
    var rest := stored[..k] + stored[k + 1..];
    FavoriteRoutes.RemoveClearsPair(stored, k);
    RemoveAtCounts(stored, k);
    var lhs := multiset(WithoutFavorite(shown, travelId));
    var rhs := multiset(Filter(rest, FavoriteRoutes.OwnedBy(caller)));
    forall x
      ensures lhs[x] == rhs[x]
    {
      SameCountAfterRemoval(stored, k, caller, travelId, shown, x);
    }
    assert lhs == rhs;
  }

  /** Removing position `k` lowers the count of that entry by one and no other. */
  lemma RemoveAtCounts<T>(s: seq<T>, k: nat)
    requires k < |s|
    ensures multiset(s) == multiset(s[..k] + s[k + 1..]) + multiset{s[k]}
  {
    assert s == s[..k] + [s[k]] + s[k + 1..];
  }

  /** One entry's count in the two lists of RemoveFavoriteAgreesWithServer. */
  lemma SameCountAfterRemoval(
    stored: seq<FavoriteRoutes.Favorite>, k: nat, caller: Id, travelId: Id,
    shown: seq<FavoriteRoutes.Favorite>, x: FavoriteRoutes.Favorite)
    requires k < |stored| && FavoriteRoutes.Matches(stored[k], caller, travelId)
    requires multiset(stored) == multiset(stored[..k] + stored[k + 1..]) + multiset{stored[k]}
    requires forall f :: f in stored[..k] + stored[k + 1..] ==> !FavoriteRoutes.Matches(f, caller, travelId)
    requires multiset(shown) == multiset(Filter(stored, FavoriteRoutes.OwnedBy(caller)))
    ensures multiset(WithoutFavorite(shown, travelId))[x] ==
            multiset(Filter(stored[..k] + stored[k + 1..], FavoriteRoutes.OwnedBy(caller)))[x]
  {
    var rest := stored[..k] + stored[k + 1..];
    var owned := FavoriteRoutes.OwnedBy(caller);
    var kept := NotForTrip(travelId);
    if FavoriteRoutes.Matches(x, caller, travelId) {
      assert x !in rest;
      assert multiset(rest)[x] == 0;
    }
    var inShown := multiset(shown)[x];
    var inRest := multiset(rest)[x];
    assert inShown == if owned(x) then multiset(stored)[x] else 0;
    assert multiset(stored)[x] == inRest + (if x == stored[k] then 1 else 0);
    assert multiset(WithoutFavorite(shown, travelId))[x] == if kept(x) then inShown else 0;
    assert multiset(Filter(rest, owned))[x] == if owned(x) then inRest else 0;
  }

  /** The two lists the profile page holds. */
  class Profile {
    var notifications: seq<Notification>
    var favorites: seq<FavoriteRoutes.Favorite>

    constructor (notifications: seq<Notification>, favorites: seq<FavoriteRoutes.Favorite>)
      ensures this.notifications == notifications && this.favorites == favorites
    {
      this.notifications := notifications;
      this.favorites := favorites;
    }

    /** `handleMarkAsRead`; `callSucceeds` is the outcome of the service call,
        and a failed call leaves the list as it was. */
    method HandleMarkAsRead(id: Id, callSucceeds: bool)
      modifies this
      ensures notifications == if callSucceeds then MarkRead(old(notifications), id) else old(notifications)
      ensures favorites == old(favorites)
    {
      if callSucceeds {
        notifications := MarkRead(notifications, id);
      }
    }

    /** `handleDeleteNotification`. */
    method HandleDeleteNotification(id: Id, callSucceeds: bool)
      modifies this
      ensures notifications == if callSucceeds then WithoutNotification(old(notifications), id) else old(notifications)
      ensures favorites == old(favorites)
    {
      if callSucceeds {
        notifications := WithoutNotification(notifications, id);
      }
    }

    /** `handleRemoveFavorite`. */
    method HandleRemoveFavorite(travelId: Id, callSucceeds: bool)
      modifies this
      ensures favorites == if callSucceeds then WithoutFavorite(old(favorites), travelId) else old(favorites)
      ensures notifications == old(notifications)
    {
      if callSucceeds {
        favorites := WithoutFavorite(favorites, travelId);
      }
    }

    /** The "mark all read" button; its call is awaited without a handler, so
        a failed call ends the click before the list is touched. */
    method HandleMarkAllRead(callSucceeds: bool)
      modifies this
      ensures notifications == if callSucceeds then AllRead(old(notifications)) else old(notifications)
      ensures favorites == old(favorites)
    {
      if callSucceeds {
        notifications := AllRead(notifications);
      }
    }
  }
}
