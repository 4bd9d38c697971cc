/** The route timeline of the bus detail panel
    (src/components/BusDetails/BusDetailPanel.tsx): the status of every stop,
    derived from route order and the bus's next-stop name only, the synthetic
    half-hourly schedule printed beside it, which stops offer a "Notify Me"
    control, and what that control does to the subscription store. */
module BusDetailPanel {
  import opened Basics
  import Api
  import NotificationContext

  datatype StopStatus = Departed | Next | Passed | Upcoming

  datatype RouteStop = RouteStop(name: string, time: string, status: StopStatus)

  /** `bus.nextStop`, which the panel accepts either as a name or as a stop. */
  datatype NextStopRef = NameRef(name: string) | StopRef(stop: Api.Stop)

  /** `getNextStopName`. */
  function NextStopName(next: NextStopRef): (n: string)
    ensures next.NameRef? ==> n == next.name
    ensures next.StopRef? ==> n == next.stop.name
  {
    match next
    case NameRef(name) => name
    case StopRef(stop) => stop.name
  }

  /** The status of the stop at `i`: the first stop has always departed, a stop
      bearing the next-stop name is next, and the others are passed when they
      lie before the first stop bearing that name. */
  function StatusAt(names: seq<string>, i: nat, next: string): StopStatus
    requires i < |names|
  {
    if i == 0 then Departed
    else if names[i] == next then Next
    else if i < IndexOf(names, next) then Passed
    else Upcoming
  }

  /** The statuses without indices: past the first stop, a stop is passed iff
      the next stop is not among the stops up to it but is among those after
      it, and upcoming iff it is not next and the next stop lies before it or
      nowhere on the route. */
  lemma {:induction false} StatusMeaning(names: seq<string>, i: nat, next: string)
    requires 0 < i < |names|
    ensures StatusAt(names, i, next) == Next <==> names[i] == next
    ensures StatusAt(names, i, next) == Passed <==>
              names[i] != next && next !in names[..i + 1] && next in names[i + 1..]
    ensures StatusAt(names, i, next) == Upcoming <==>
              names[i] != next && (next in names[..i] || next !in names)
  {
    var k := IndexOf(names, next);
    if names[i] != next {
      if k != -1 {
        if i < k {
          assert names[i + 1..][k - i - 1] == next;
          assert forall j :: 0 <= j <= i ==> names[..i + 1][j] == names[..k][j];
        } else {
          assert names[..i][k] == next;
        }
      } else {
        assert forall j :: 0 <= j < i ==> names[..i][j] == names[j];
      }
    }
  }

  /** On a route whose stop names are distinct, with the next stop at
      position `k`: the first stop departed, the stops before `k` passed, the
      stop at `k` next (unless it is the first), and the stops after it
      upcoming. */
  lemma {:induction false} StatusesAlongDistinctRoute(names: seq<string>, k: nat)
    requires k < |names|
    requires forall a, b :: 0 <= a < b < |names| ==> names[a] != names[b]
    ensures StatusAt(names, 0, names[k]) == Departed
    ensures forall i :: 0 < i < k ==> StatusAt(names, i, names[k]) == Passed
    ensures 0 < k ==> StatusAt(names, k, names[k]) == Next
    ensures forall i :: k < i < |names| ==> StatusAt(names, i, names[k]) == Upcoming
  {
  }

  /** `calculateRoute`: one entry per stop, same names in the same order, each
      with its schedule time and status. */
  function CalculateRoute(stops: seq<Api.Stop>, next: NextStopRef): (r: seq<RouteStop>)
    ensures |r| == |stops|
    ensures forall i :: 0 <= i < |stops| ==>
              && r[i].name == stops[i].name
              && r[i].time == ScheduleTime(i)
              && r[i].status == StatusAt(Api.StopNames(stops), i, NextStopName(next))
  {
    var names := Api.StopNames(stops);
    seq(|stops|, i requires 0 <= i < |stops| =>
      RouteStop(stops[i].name, ScheduleTime(i), StatusAt(names, i, NextStopName(next))))
  }

  /** The hour and minute printed for the stop at `i`: stops are half an hour
      apart starting at 10:00. */
  function ScheduleSlot(i: nat): (hm: (nat, nat))
    ensures hm.0 * 60 + hm.1 == 600 + 30 * i
    ensures hm.1 == 0 || hm.1 == 30
  {
    (10 + i / 2, (i % 2) * 30)
  }

  function DigitChar(d: nat): char
    requires d < 10
  {
    "0123456789"[d]
  }

  predicate IsDigitChar(c: char)
  {
    '0' <= c <= '9'
  }

  /** A number written in decimal, as a template literal prints it. */
  function DecimalString(n: nat): (s: string)
    ensures |s| > 0 && forall j :: 0 <= j < |s| ==> IsDigitChar(s[j])
    decreases n
  {
    if n < 10 then [DigitChar(n)] else DecimalString(n / 10) + [DigitChar(n % 10)]
  }

  /** Reading a string of digits back as a number. */
  function DecimalValue(s: string): nat
    decreases |s|
  {
    if s == [] then 0
    else
      var c := s[|s| - 1];
      DecimalValue(s[..|s| - 1]) * 10 + (if IsDigitChar(c) then (c - '0') as nat else 0)
  }

  lemma {:induction false} DecimalRoundTrip(n: nat)
    ensures DecimalValue(DecimalString(n)) == n
    decreases n
  {
    if n >= 10 {
      DecimalRoundTrip(n / 10);
      var s := DecimalString(n);
      assert s[..|s| - 1] == DecimalString(n / 10);
    }
  }

  /** The time string for the stop at `i`: the hour of its slot (not brought
      into 12-hour form), `00` or `30`, and `PM` iff the hour is 12 or later,
      i.e. from the fifth stop on. */
  function ScheduleTime(i: nat): (t: string)
    ensures |t| >= 2 && (t[|t| - 2..] == "PM" <==> i >= 4)
  {
    var (hour, minute) := ScheduleSlot(i);
    var rest := MinuteAndMeridiem(hour, minute);
    var t := DecimalString(hour) + ":" + rest;
    assert t[|t| - 2..] == rest[|rest| - 2..];
    t
  }

  /** What follows the colon: the two minute digits, a space and the half
      of the day. */
  function MinuteAndMeridiem(hour: nat, minute: nat): (r: string)
    ensures |r| >= 2 && r[|r| - 2..] == (if hour >= 12 then "PM" else "AM")
  {
    (if minute == 0 then "00" else DecimalString(minute)) + " " + (if hour >= 12 then "PM" else "AM")
  }

  /** The first stop of the schedule. */
  lemma FirstStopTime()
    ensures ScheduleTime(0) == "10:00 AM"
  {
    ScheduleTimeAt(0, 10, 0);
    TwoDigits(1, 0);
    assert MinuteAndMeridiem(10, 0) == "00 AM";
  }

  /** The second stop, half an hour later. */
  lemma SecondStopTime()
    ensures ScheduleTime(1) == "10:30 AM"
  {
    ScheduleTimeAt(1, 10, 30);
    TwoDigits(1, 0);
    assert MinuteAndMeridiem(10, 30) == "30 AM" by {
      TwoDigits(3, 0);
    }
  }

  /** From the fifth stop on the time reads `PM`, and the 24-hour hour is
      kept before it: the seventh stop reads "13:00 PM". */
  lemma AfternoonTimes()
    ensures ScheduleTime(4) == "12:00 PM"
    ensures ScheduleTime(6) == "13:00 PM"
  {
    ScheduleTimeAt(4, 12, 0);
    TwoDigits(1, 2);
    assert MinuteAndMeridiem(12, 0) == "00 PM";
    ScheduleTimeAt(6, 13, 0);
    TwoDigits(1, 3);
    assert MinuteAndMeridiem(13, 0) == "00 PM";
  }

  /** A time string is the hour, a colon and the rest. */
  lemma ScheduleTimeParts(i: nat)
    ensures var (hour, minute) := ScheduleSlot(i);
            ScheduleTime(i) == DecimalString(hour) + ":" + MinuteAndMeridiem(hour, minute)
  {
  }

  /** The time string of the stop at `i`, from its slot. */
  lemma ScheduleTimeAt(i: nat, hour: nat, minute: nat)
    requires ScheduleSlot(i) == (hour, minute)
    ensures ScheduleTime(i) == DecimalString(hour) + ":" + MinuteAndMeridiem(hour, minute)
  {
    ScheduleTimeParts(i);
  }

  /** A two-digit number is printed as its two digits. */
  lemma TwoDigits(tens: nat, ones: nat)
    requires 1 <= tens < 10 && ones < 10
    ensures DecimalString(10 * tens + ones) == [DigitChar(tens), DigitChar(ones)]
  {
    var n := 10 * tens + ones;
    assert n / 10 == tens && n % 10 == ones;
  }

  /** A string of digits followed by a colon determines the digits. */
  lemma DigitsBeforeColon(a: string, x: string, b: string, y: string)
    requires forall j :: 0 <= j < |a| ==> IsDigitChar(a[j])
    requires forall j :: 0 <= j < |b| ==> IsDigitChar(b[j])
    requires a + ":" + x == b + ":" + y
    ensures a == b && x == y
  {
    assert ':' !in a && ':' !in b;
    SplitAtSeparator(a, x, b, y, ':');
  }

  /** Different stops are printed with different times. */
  lemma ScheduleTimeInjective(i: nat, j: nat)
    requires ScheduleTime(i) == ScheduleTime(j)
    ensures i == j
  {
    var si, sj := ScheduleSlot(i), ScheduleSlot(j);
    ScheduleTimeParts(i);
    ScheduleTimeParts(j);
    var ri, rj := MinuteAndMeridiem(si.0, si.1), MinuteAndMeridiem(sj.0, sj.1);
    DigitsBeforeColon(DecimalString(si.0), ri, DecimalString(sj.0), rj);
    DecimalRoundTrip(si.0);
    DecimalRoundTrip(sj.0);
    MinuteDigits(si.0, si.1);
    MinuteDigits(sj.0, sj.1);
    assert si == sj;
  }

  /** The first two characters after the colon are the minute. */
  lemma MinuteDigits(hour: nat, minute: nat)
    requires minute == 0 || minute == 30
    ensures MinuteAndMeridiem(hour, minute)[..2] == if minute == 0 then "00" else "30"
  {
    TwoDigits(3, 0);
  }

  /** The "Notify Me" control is rendered for stops neither departed nor passed. */
  function ShowsNotifyControl(status: StopStatus): (shown: bool)
    ensures shown <==> status == Next || status == Upcoming
  {
    status != Departed && status != Passed
  }

  /** `handleNotificationToggle`: unsubscribe a subscribed pair, otherwise
      subscribe it, which with notifications off only asks for permission. */
  method HandleNotificationToggle(store: NotificationContext.NotificationStore, busId: string, stopName: string,
                                  reply: NotificationContext.PermissionReply)
    requires store.Valid()
    modifies store
    ensures store.Valid()
    ensures old(store.HasSubscription(busId, stopName)) ==>
              store.subscriptions == NotificationContext.WithoutPair(old(store.subscriptions), busId, stopName) &&
              !store.HasSubscription(busId, stopName)
    ensures !old(store.HasSubscription(busId, stopName)) && old(store.notificationsEnabled) ==>
              store.subscriptions == old(store.subscriptions) + [NotificationContext.Subscription(busId, stopName)]
    ensures !old(store.HasSubscription(busId, stopName)) && !old(store.notificationsEnabled) ==>
              store.subscriptions == old(store.subscriptions)
    ensures old(store.notificationsEnabled) ==>
              store.HasSubscription(busId, stopName) == !old(store.HasSubscription(busId, stopName))
    ensures old(store.HasSubscription(busId, stopName)) || old(store.notificationsEnabled) ==>
              store.notificationsEnabled == old(store.notificationsEnabled) &&
              store.permissionRequests == old(store.permissionRequests)
    ensures !old(store.HasSubscription(busId, stopName)) && !old(store.notificationsEnabled) ==>
              store.notificationsEnabled == NotificationContext.EnabledAfter(false, reply) &&
              store.permissionRequests == old(store.permissionRequests) + 1
  {
    if store.HasSubscription(busId, stopName) {
      store.Unsubscribe(busId, stopName);
    } else {
      store.Subscribe(busId, stopName, reply);
    }
  }
}
