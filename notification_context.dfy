/** The subscription store of the dashboard (src/contexts/NotificationContext.tsx):
    the list of (bus, stop) pairs the user wants an alert for, the flag saying
    whether notifications are enabled, and the copy of the list kept in local
    storage under `busSubscriptions`.

    The browser's permission prompt is an input (`PermissionReply`); local
    storage is the field `storage`, with JSON encoding taken as exact for these
    plain string records. Toasts and console messages are not modelled. */
module NotificationContext {
  import opened Basics

  datatype Subscription = Subscription(busId: string, stopName: string)

  /** `Notification.permission`. */
  datatype Permission = Granted | Denied | Default

  /** How `Notification.requestPermission()` settles. */
  datatype PermissionReply = Answered(permission: Permission) | Threw

  /** What local storage holds under `busSubscriptions`: nothing, a list
      written by this store, or text that does not parse. */
  datatype Stored = Absent | Saved(list: seq<Subscription>) | Unparseable(text: string)

  /** `subscriptions.some(...)` for one pair. */
  function Subscribed(subs: seq<Subscription>, busId: string, stopName: string): (b: bool)
    ensures b <==> Subscription(busId, stopName) in subs
  {
    var k := FindIndex(subs, (s: Subscription) => s.busId == busId && s.stopName == stopName);
    assert k != -1 ==> subs[k] == Subscription(busId, stopName);
    k != -1
  }

  /** `subscriptions.filter(...)` dropping one pair. */
  function WithoutPair(subs: seq<Subscription>, busId: string, stopName: string): (r: seq<Subscription>)
    ensures Subsequence(r, subs)
    ensures Subscription(busId, stopName) !in r
    ensures forall i :: 0 <= i < |subs| && subs[i] != Subscription(busId, stopName) ==> subs[i] in r
    ensures Subscription(busId, stopName) !in subs ==> r == subs
    ensures forall x :: multiset(r)[x] == if x == Subscription(busId, stopName) then 0 else multiset(subs)[x]
  {
    var keep := (s: Subscription) => !(s.busId == busId && s.stopName == stopName);
    assert forall x :: multiset(Filter(subs, keep))[x] == if keep(x) then multiset(subs)[x] else 0 by {
      forall x ensures multiset(Filter(subs, keep))[x] == if keep(x) then multiset(subs)[x] else 0 {
        FilterMultiplicity(subs, keep, x);
      }
    }
    if Subscription(busId, stopName) !in subs then
      FilterKeepsAll(subs, keep);
      Filter(subs, keep)
    else
      Filter(subs, keep)
  }

  /** No pair occurs twice. */
  predicate NoDuplicates(subs: seq<Subscription>)
  {
    forall i, j :: 0 <= i < j < |subs| ==> subs[i] != subs[j]
  }

  /** Dropping a pair keeps a duplicate-free list duplicate-free. */
  lemma {:induction false} WithoutPairNoDuplicates(subs: seq<Subscription>, busId: string, stopName: string)
    requires NoDuplicates(subs)
    ensures NoDuplicates(WithoutPair(subs, busId, stopName))
  {
    SubsequenceNoDuplicates(WithoutPair(subs, busId, stopName), subs);
  }

  lemma {:induction false} SubsequenceNoDuplicates(a: seq<Subscription>, b: seq<Subscription>)
    requires Subsequence(a, b) && NoDuplicates(b)
    ensures NoDuplicates(a)
    decreases |b|
  {
    if a != [] && b != [] {
      var a', b' := a[..|a| - 1], b[..|b| - 1];
      assert NoDuplicates(b') by {
        assert forall i :: 0 <= i < |b'| ==> b'[i] == b[i];
      }
      if a[|a| - 1] == b[|b| - 1] && Subsequence(a', b') {
        SubsequenceNoDuplicates(a', b');
        SubsequenceMembers(a', b');
        forall i, j | 0 <= i < j < |a| ensures a[i] != a[j] {
          if j == |a| - 1 {
            assert a[i] == a'[i];
            assert a[i] in b';
            var k :| 0 <= k < |b'| && b'[k] == a[i];
            assert b[k] == a[i] && b[|b| - 1] == a[j];
          } else {
            assert a[i] == a'[i] && a[j] == a'[j];
          }
        }
      } else {
        SubsequenceNoDuplicates(a, b');
      }
    }
  }

  lemma {:induction false} SubsequenceMembers(a: seq<Subscription>, b: seq<Subscription>)
    requires Subsequence(a, b)
    ensures forall i :: 0 <= i < |a| ==> a[i] in b
    decreases |b|
  {
    if a != [] && b != [] {
      var a', b' := a[..|a| - 1], b[..|b| - 1];
      if a[|a| - 1] == b[|b| - 1] && Subsequence(a', b') {
        SubsequenceMembers(a', b');
        assert forall i :: 0 <= i < |a'| ==> a[i] == a'[i];
        assert forall x :: x in b' ==> x in b;
      } else {
        SubsequenceMembers(a, b');
        assert forall x :: x in b' ==> x in b;
      }
    }
  }

  /** The enabled flag after a permission request settles. */
  function EnabledAfter(enabled: bool, reply: PermissionReply): (e: bool)
    ensures reply.Answered? ==> (e <==> reply.permission == Granted)
    ensures reply.Threw? ==> e == enabled
  {
    match reply
    case Answered(p) => p == Granted
    case Threw => enabled
  }

  class NotificationStore {
    var subscriptions: seq<Subscription>
    var notificationsEnabled: bool
    /** Local storage under `busSubscriptions`. */
    var storage: Stored
    /** How many times the browser was asked for permission. */
    var permissionRequests: nat

    /** Every change to the list is written to storage in full. */
    ghost predicate Valid()
      reads this
    {
      storage == Saved(subscriptions)
    }

    /** Mounting the provider: the flag is on iff permission was already
        granted; a stored list is loaded, anything else leaves the list empty;
        the list is then written back. */
    constructor (permission: Permission, stored: Stored)
      ensures Valid()
      ensures notificationsEnabled <==> permission == Granted
      ensures subscriptions == (if stored.Saved? then stored.list else [])
      ensures permissionRequests == 0
    {
      notificationsEnabled := permission == Granted;
      subscriptions := if stored.Saved? then stored.list else [];
      storage := Saved(if stored.Saved? then stored.list else []);
      permissionRequests := 0;
    }

    /** `requestNotificationPermission`: the flag follows a settled answer and
        is left alone when the request throws; the result is true only for a
        grant. */
    method RequestNotificationPermission(reply: PermissionReply) returns (enabled: bool)
      modifies this`notificationsEnabled, this`permissionRequests
      ensures enabled <==> reply == Answered(Granted)
      ensures notificationsEnabled == EnabledAfter(old(notificationsEnabled), reply)
      ensures permissionRequests == old(permissionRequests) + 1
    {
      permissionRequests := permissionRequests + 1;
      match reply
      case Answered(permission) =>
        enabled := permission == Granted;
        notificationsEnabled := enabled;
      case Threw =>
        enabled := false;
    }

    /** `hasSubscription`. */
    function HasSubscription(busId: string, stopName: string): (b: bool)
      reads this
      ensures b <==> Subscription(busId, stopName) in subscriptions
    {
      Subscribed(subscriptions, busId, stopName)
    }

    /** `subscribe`: with notifications off, only asks for permission; with
        them on, appends the pair unless it is already there. */
    method Subscribe(busId: string, stopName: string, reply: PermissionReply)
      requires Valid()
      modifies this
      ensures Valid()
      ensures !old(notificationsEnabled) ==>
                && subscriptions == old(subscriptions)
                && notificationsEnabled == EnabledAfter(false, reply)
                && permissionRequests == old(permissionRequests) + 1
      ensures old(notificationsEnabled) ==>
                && notificationsEnabled
                && permissionRequests == old(permissionRequests)
                && subscriptions == (if Subscription(busId, stopName) in old(subscriptions)
                                     then old(subscriptions)
                                     else old(subscriptions) + [Subscription(busId, stopName)])
                && HasSubscription(busId, stopName)
      ensures NoDuplicates(old(subscriptions)) ==> NoDuplicates(subscriptions)
    {
      if !notificationsEnabled {
        var _ := RequestNotificationPermission(reply);
        return;
      }
      if !HasSubscription(busId, stopName) {
        subscriptions := subscriptions + [Subscription(busId, stopName)];
        storage := Saved(subscriptions);
      }
    }

    /** `unsubscribe`: drops every copy of the pair, keeping the rest in order. */
    method Unsubscribe(busId: string, stopName: string)
      requires Valid()
      modifies this`subscriptions, this`storage
      ensures Valid()
      ensures subscriptions == WithoutPair(old(subscriptions), busId, stopName)
      ensures !HasSubscription(busId, stopName)
      ensures NoDuplicates(old(subscriptions)) ==> NoDuplicates(subscriptions)
    {
      if NoDuplicates(subscriptions) {
        WithoutPairNoDuplicates(subscriptions, busId, stopName);
      }
      subscriptions := WithoutPair(subscriptions, busId, stopName);
      storage := Saved(subscriptions);
    }
  }

  /** Storage round trip: a store mounted on what another store saved starts
      with that store's list. */
  method ReloadKeepsSubscriptions(s: NotificationStore, permission: Permission) returns (t: NotificationStore)
    requires s.Valid()
    ensures t.Valid() && t.subscriptions == s.subscriptions
  {
    t := new NotificationStore(permission, s.storage);
  }
}
