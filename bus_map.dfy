/** The live map (src/components/Map/BusMap.tsx), without the map widget:
    the ledger that lets each arrival alert fire once, the scan of every bus
    against every stop that feeds it, the id-keyed table of bus markers kept
    in step with the fleet, and the pan-to-selected rule.

    Distances are the parameter `dist` in metres (the haversine formula is not
    part of this model); a marker is its handle and its position. */
module BusMap {
  import opened Basics
  import Api
  import NotificationContext

  /** A bus closer than this many metres to a stop is arriving there. */
  const ArrivalRadius: real := 150.0

  /** The ledger key of an alert. */
  function AlertKey(busNumber: string, stopName: string): string
  {
    busNumber + "-" + stopName
  }

  /** Bus numbers without a dash give every (bus, stop) pair its own key. */
  lemma AlertKeyInjective(b1: string, s1: string, b2: string, s2: string)
    requires '-' !in b1 && '-' !in b2
    requires AlertKey(b1, s1) == AlertKey(b2, s2)
    ensures b1 == b2 && s1 == s2
  {
    SplitAtSeparator(b1, s1, b2, s2, '-');
  }

  /** With a dash in the bus number, as in `TN72-M5267`, two different pairs
      can share a key, and the second one is then never alerted. */
  lemma AlertKeyCollision()
    ensures AlertKey("TN72-M5267", "Stand") == AlertKey("TN72", "M5267-Stand")
  {
  }

  /** What happens to the platform notification of an alert. */
  datatype Notice =
    | Shown        // permission already granted
    | Requested    // permission not yet decided: it is asked for
    | Skipped      // permission denied
    | Unsupported  // the browser has no Notification API

  /** The notification branch of `showArrivalAlert`. */
  function NoticeFor(supported: bool, permission: NotificationContext.Permission): (n: Notice)
    ensures n == Unsupported <==> !supported
    ensures n == Shown <==> supported && permission == NotificationContext.Granted
    ensures n == Skipped <==> supported && permission == NotificationContext.Denied
    ensures n == Requested <==> supported && permission == NotificationContext.Default
  {
    if !supported then Unsupported
    else match permission
      case Granted => Shown
      case Denied => Skipped
      case Default => Requested
  }

  /** One call of `alert` for a bus arriving at a stop. */
  datatype Alert = Alert(busNumber: string, stopName: string, notice: Notice)
  {
    function Key(): string
    {
      AlertKey(busNumber, stopName)
    }
  }

  /** The keys already alerted, and every alert raised so far. */
  datatype Ledger = Ledger(notified: set<string>, alerts: seq<Alert>)

  function KeysOf(alerts: seq<Alert>): set<string>
  {
    set i | 0 <= i < |alerts| :: alerts[i].Key()
  }

  /** The ledger holds exactly the keys of the alerts raised, each raised once. */
  predicate LedgerValid(l: Ledger)
  {
    && l.notified == KeysOf(l.alerts)
    && forall i, j :: 0 <= i < j < |l.alerts| ==> l.alerts[i].Key() != l.alerts[j].Key()
  }

  /** `showArrivalAlert` for one (bus number, stop name) pair: nothing when
      its key is in the ledger, otherwise the key is recorded and the alert
      raised. */
  function AlertStep(l: Ledger, hit: (string, string), notice: Notice): Ledger
  {
    var key := AlertKey(hit.0, hit.1);
    if key in l.notified then l
    else Ledger(l.notified + {key}, l.alerts + [Alert(hit.0, hit.1, notice)])
  }

  /** `showArrivalAlert` for each pair of `hits` in turn. */
  function AfterAlerts(l: Ledger, hits: seq<(string, string)>, notice: Notice): Ledger
    decreases |hits|
  {
    if hits == [] then l
    else AlertStep(AfterAlerts(l, hits[..|hits| - 1], notice), hits[|hits| - 1], notice)
  }

  lemma AlertStepValid(l: Ledger, hit: (string, string), notice: Notice)
    requires LedgerValid(l)
    ensures LedgerValid(AlertStep(l, hit, notice))
  {
    var key := AlertKey(hit.0, hit.1);
    if key !in l.notified {
      var a := l.alerts + [Alert(hit.0, hit.1, notice)];
      assert forall i :: 0 <= i < |l.alerts| ==> a[i] == l.alerts[i];
      assert a[|l.alerts|].Key() == key;
      assert KeysOf(a) == KeysOf(l.alerts) + {key};
    }
  }

  /** Raising alerts keeps the ledger and the alert log in agreement, with no
      key alerted twice. */
  lemma {:induction false} AfterAlertsValid(l: Ledger, hits: seq<(string, string)>, notice: Notice)
    requires LedgerValid(l)
    ensures LedgerValid(AfterAlerts(l, hits, notice))
    decreases |hits|
  {
    if hits != [] {
      AfterAlertsValid(l, hits[..|hits| - 1], notice);
      AlertStepValid(AfterAlerts(l, hits[..|hits| - 1], notice), hits[|hits| - 1], notice);
    }
  }

  /** The ledger only grows, earlier alerts stay as they were, and every new
      alert carries the notification outcome of this scan. */
  lemma {:induction false} AfterAlertsGrows(l: Ledger, hits: seq<(string, string)>, notice: Notice)
    ensures l.notified <= AfterAlerts(l, hits, notice).notified
    ensures |l.alerts| <= |AfterAlerts(l, hits, notice).alerts|
    ensures AfterAlerts(l, hits, notice).alerts[..|l.alerts|] == l.alerts
    ensures forall i :: |l.alerts| <= i < |AfterAlerts(l, hits, notice).alerts| ==>
              AfterAlerts(l, hits, notice).alerts[i].notice == notice
    decreases |hits|
  {
    if hits != [] {
      var prev := AfterAlerts(l, hits[..|hits| - 1], notice);
      AfterAlertsGrows(l, hits[..|hits| - 1], notice);
      var r := AfterAlerts(l, hits, notice);
      if r != prev {
        assert r.alerts[..|prev.alerts|] == prev.alerts;
        assert r.alerts[..|l.alerts|] == prev.alerts[..|l.alerts|];
      }
    }
  }

  /** After the calls, every pair's key is in the ledger, and every new key
      came from one of the pairs. */
  lemma {:induction false} AfterAlertsCovers(l: Ledger, hits: seq<(string, string)>, notice: Notice)
    ensures forall i :: 0 <= i < |hits| ==> AlertKey(hits[i].0, hits[i].1) in AfterAlerts(l, hits, notice).notified
    ensures forall k :: k in AfterAlerts(l, hits, notice).notified ==>
              k in l.notified || exists i :: 0 <= i < |hits| && AlertKey(hits[i].0, hits[i].1) == k
    decreases |hits|
  {
    if hits != [] {
      var init := hits[..|hits| - 1];
      AfterAlertsCovers(l, init, notice);
      assert forall i :: 0 <= i < |init| ==> hits[i] == init[i];
    }
  }

  /** Pairs whose keys are all in the ledger change nothing. */
  lemma {:induction false} AlertsSettled(l: Ledger, hits: seq<(string, string)>, notice: Notice)
    requires forall i :: 0 <= i < |hits| ==> AlertKey(hits[i].0, hits[i].1) in l.notified
    ensures AfterAlerts(l, hits, notice) == l
    decreases |hits|
  {
    if hits != [] {
      var init := hits[..|hits| - 1];
      assert forall i :: 0 <= i < |init| ==> init[i] == hits[i];
      AlertsSettled(l, init, notice);
    }
  }

  /** Each alert fires once per page lifetime: a second pass over the same
      pairs, whatever the permission by then, raises nothing. */
  lemma RescanFiresNothing(l: Ledger, hits: seq<(string, string)>, n1: Notice, n2: Notice)
    ensures AfterAlerts(AfterAlerts(l, hits, n1), hits, n2) == AfterAlerts(l, hits, n1)
  {
    AfterAlertsCovers(l, hits, n1);
    AlertsSettled(AfterAlerts(l, hits, n1), hits, n2);
  }

  /** The pairs (bus number, stop name) for one bus closer than
      `ArrivalRadius` to a stop, in stop order. */
  function BusHits(bus: Api.Bus, stops: seq<Api.Stop>, dist: Api.Distance): seq<(string, string)>
    decreases |stops|
  {
    if stops == [] then []
    else
      var stop := stops[|stops| - 1];
      BusHits(bus, stops[..|stops| - 1], dist) +
        (if dist(bus.currentLocation, stop.location) < ArrivalRadius then [(bus.busNumber, stop.name)] else [])
  }

  /** Scanning one more stop adds at most its own pair. */
  lemma BusHitsSnoc(bus: Api.Bus, stops: seq<Api.Stop>, j: int, dist: Api.Distance)
    requires 0 <= j < |stops|
    ensures BusHits(bus, stops[..j + 1], dist) ==
            BusHits(bus, stops[..j], dist) +
              (if dist(bus.currentLocation, stops[j].location) < ArrivalRadius
               then [(bus.busNumber, stops[j].name)] else [])
  {
    assert stops[..j + 1][..j] == stops[..j];
  }

  /** The pairs of the whole scan, bus by bus. */
  function ScanHits(buses: seq<Api.Bus>, stops: seq<Api.Stop>, dist: Api.Distance): seq<(string, string)>
    decreases |buses|
  {
    if buses == [] then []
    else ScanHits(buses[..|buses| - 1], stops, dist) + BusHits(buses[|buses| - 1], stops, dist)
  }

  /** A bus's pairs are the stops strictly within the radius. */
  lemma {:induction false} BusHitsMeaning(bus: Api.Bus, stops: seq<Api.Stop>, dist: Api.Distance)
    ensures forall h :: h in BusHits(bus, stops, dist) <==>
              h.0 == bus.busNumber &&
              exists j :: 0 <= j < |stops| && stops[j].name == h.1 &&
                          dist(bus.currentLocation, stops[j].location) < ArrivalRadius
    decreases |stops|
  {
    if stops != [] {
      var init := stops[..|stops| - 1];
      BusHitsMeaning(bus, init, dist);
      assert forall j :: 0 <= j < |init| ==> init[j] == stops[j];
    }
  }

  /** A pair is alerted by the scan iff some bus with that number is strictly
      within the radius of some stop with that name. */
  lemma {:induction false} ScanHitsMeaning(buses: seq<Api.Bus>, stops: seq<Api.Stop>, dist: Api.Distance)
    ensures forall h :: h in ScanHits(buses, stops, dist) <==>
              exists i, j :: 0 <= i < |buses| && 0 <= j < |stops| &&
                             buses[i].busNumber == h.0 && stops[j].name == h.1 &&
                             dist(buses[i].currentLocation, stops[j].location) < ArrivalRadius
    decreases |buses|
  {
    if buses != [] {
      var init := buses[..|buses| - 1];
      var last := buses[|buses| - 1];
      ScanHitsMeaning(init, stops, dist);
      BusHitsMeaning(last, stops, dist);
      assert forall i :: 0 <= i < |init| ==> init[i] == buses[i];
    }
  }

  /** A bus marker on the map: which marker object it is, and where it stands. */
  datatype Marker = Marker(handle: nat, position: Api.LatLng)

  /** Marker objects are numbered in creation order: every handle is below
      the number created so far, and no two ids share one. */
  predicate MarkersValid(markers: map<string, Marker>, created: nat)
  {
    && (forall id :: id in markers ==> markers[id].handle < created)
    && (forall a, b :: a in markers && b in markers && a != b ==> markers[a].handle != markers[b].handle)
  }

  function BusIds(buses: seq<Api.Bus>): set<string>
  {
    set i | 0 <= i < |buses| :: buses[i].id
  }

  /** The bus at `i` is the last one in the list with its id. */
  predicate LastWithId(buses: seq<Api.Bus>, i: int)
    requires 0 <= i < |buses|
  {
    forall j :: i < j < |buses| ==> buses[j].id != buses[i].id
  }

  /** The first pass of `updateMarkers` for one bus: its marker is moved to
      the bus's location, or created there when the id has none. */
  function PlaceOne(markers: map<string, Marker>, created: nat, bus: Api.Bus): (map<string, Marker>, nat)
  {
    if bus.id in markers then (markers[bus.id := Marker(markers[bus.id].handle, bus.currentLocation)], created)
    else (markers[bus.id := Marker(created, bus.currentLocation)], created + 1)
  }

  /** The first pass of `updateMarkers`, bus by bus. */
  function Placed(markers: map<string, Marker>, created: nat, buses: seq<Api.Bus>): (map<string, Marker>, nat)
    decreases |buses|
  {
    if buses == [] then (markers, created)
    else
      var (m, c) := Placed(markers, created, buses[..|buses| - 1]);
      PlaceOne(m, c, buses[|buses| - 1])
  }

  /** `updateMarkers`: the first pass, then the markers of ids no longer in
      the fleet are taken off the map and out of the table. */
  function Reconciled(markers: map<string, Marker>, created: nat, buses: seq<Api.Bus>): (map<string, Marker>, nat)
  {
    var (m, c) := Placed(markers, created, buses);
    (map id | id in m && id in BusIds(buses) :: m[id], c)
  }

  lemma BusIdsSnoc(buses: seq<Api.Bus>)
    requires buses != []
    ensures BusIds(buses) == BusIds(buses[..|buses| - 1]) + {buses[|buses| - 1].id}
  {
    var init := buses[..|buses| - 1];
    assert forall i :: 0 <= i < |init| ==> init[i] == buses[i];
  }

  /** The first pass adds exactly the fleet's ids, and creates nothing when
      every id already has a marker. */
  lemma {:induction false} PlacedKeys(markers: map<string, Marker>, created: nat, buses: seq<Api.Bus>)
    ensures Placed(markers, created, buses).0.Keys == markers.Keys + BusIds(buses)
    ensures created <= Placed(markers, created, buses).1
    ensures BusIds(buses) <= markers.Keys ==> Placed(markers, created, buses).1 == created
    decreases |buses|
  {
    if buses != [] {
      PlacedKeys(markers, created, buses[..|buses| - 1]);
      BusIdsSnoc(buses);
    }
  }

  /** The first pass keeps every existing marker object, leaves markers of
      other ids untouched, and numbers new objects from `created` on. */
  lemma {:induction false} PlacedHandles(markers: map<string, Marker>, created: nat, buses: seq<Api.Bus>)
    ensures forall id :: id in markers ==>
              id in Placed(markers, created, buses).0 &&
              Placed(markers, created, buses).0[id].handle == markers[id].handle
    ensures forall id :: id in markers && id !in BusIds(buses) ==> Placed(markers, created, buses).0[id] == markers[id]
    ensures forall id :: id in Placed(markers, created, buses).0 && id !in markers ==>
              created <= Placed(markers, created, buses).0[id].handle < Placed(markers, created, buses).1
    decreases |buses|
  {
    if buses != [] {
      PlacedHandles(markers, created, buses[..|buses| - 1]);
      PlacedKeys(markers, created, buses[..|buses| - 1]);
      BusIdsSnoc(buses);
    }
  }

  lemma PlaceOneValid(markers: map<string, Marker>, created: nat, bus: Api.Bus)
    requires MarkersValid(markers, created)
    ensures MarkersValid(PlaceOne(markers, created, bus).0, PlaceOne(markers, created, bus).1)
  {
  }

  /** The first pass keeps marker objects numbered and unshared. */
  lemma {:induction false} PlacedValid(markers: map<string, Marker>, created: nat, buses: seq<Api.Bus>)
    requires MarkersValid(markers, created)
    ensures MarkersValid(Placed(markers, created, buses).0, Placed(markers, created, buses).1)
    decreases |buses|
  {
    if buses != [] {
      PlacedValid(markers, created, buses[..|buses| - 1]);
      var (m, c) := Placed(markers, created, buses[..|buses| - 1]);
      PlaceOneValid(m, c, buses[|buses| - 1]);
    }
  }

  /** After the first pass each marker stands where the last bus with its id is. */
  lemma {:induction false} PlacedPositions(markers: map<string, Marker>, created: nat, buses: seq<Api.Bus>)
    ensures forall i :: 0 <= i < |buses| && LastWithId(buses, i) ==>
              buses[i].id in Placed(markers, created, buses).0 &&
              Placed(markers, created, buses).0[buses[i].id].position == buses[i].currentLocation
    decreases |buses|
  {
    if buses != [] {
      var init := buses[..|buses| - 1];
      var bus := buses[|buses| - 1];
      PlacedPositions(markers, created, init);
      forall i | 0 <= i < |buses| && LastWithId(buses, i)
        ensures buses[i].id in Placed(markers, created, buses).0 &&
                Placed(markers, created, buses).0[buses[i].id].position == buses[i].currentLocation
      {
        if i < |init| {
          assert init[i] == buses[i];
          assert LastWithId(init, i);
        }
      }
    }
  }

  /** After `updateMarkers` the table holds exactly the current bus ids;
      a bus that already had a marker keeps that marker object, a new id gets
      a newly created one, and each marker stands where the last bus with its
      id is. */
  lemma ReconciledMeaning(markers: map<string, Marker>, created: nat, buses: seq<Api.Bus>)
    ensures Reconciled(markers, created, buses).0.Keys == BusIds(buses)
    ensures forall id :: id in markers && id in BusIds(buses) ==>
              Reconciled(markers, created, buses).0[id].handle == markers[id].handle
    ensures forall id :: id in BusIds(buses) && id !in markers ==>
              created <= Reconciled(markers, created, buses).0[id].handle
    ensures forall i :: 0 <= i < |buses| && LastWithId(buses, i) ==>
              Reconciled(markers, created, buses).0[buses[i].id].position == buses[i].currentLocation
    ensures MarkersValid(markers, created) ==>
              MarkersValid(Reconciled(markers, created, buses).0, Reconciled(markers, created, buses).1)
  {
    PlacedKeys(markers, created, buses);
    PlacedHandles(markers, created, buses);
    PlacedPositions(markers, created, buses);
    if MarkersValid(markers, created) {
      PlacedValid(markers, created, buses);
    }
  }

  /** Every id of the fleet has a last bus carrying it. */
  lemma LastOccurrence(buses: seq<Api.Bus>, id: string) returns (i: int)
    requires id in BusIds(buses)
    ensures 0 <= i < |buses| && buses[i].id == id && LastWithId(buses, i)
  {
    var k :| 0 <= k < |buses| && buses[k].id == id;
    i := k;
    while i + 1 < |buses| && exists j :: i < j < |buses| && buses[j].id == id
      invariant k <= i < |buses| && buses[i].id == id
      decreases |buses| - i
    {
      var j :| i < j < |buses| && buses[j].id == id;
      i := j;
    }
  }

  /** Updating the markers twice with the same fleet is updating them once:
      nothing is created, moved or removed the second time. */
  lemma ReconciledIdempotent(markers: map<string, Marker>, created: nat, buses: seq<Api.Bus>)
    ensures Reconciled(Reconciled(markers, created, buses).0, Reconciled(markers, created, buses).1, buses) ==
            Reconciled(markers, created, buses)
  {
    var r1 := Reconciled(markers, created, buses);
    var m1, c1 := r1.0, r1.1;
    ReconciledMeaning(markers, created, buses);
    var p := Placed(m1, c1, buses);
    PlacedKeys(m1, c1, buses);
    PlacedHandles(m1, c1, buses);
    PlacedPositions(m1, c1, buses);
    assert p.0.Keys == m1.Keys;
    forall id | id in m1 ensures p.0[id] == m1[id] {
      var i := LastOccurrence(buses, id);
      assert p.0[id].position == buses[i].currentLocation == m1[id].position;
    }
    assert p.0 == m1;
    assert Reconciled(m1, c1, buses).0 == m1;
  }

  /** The pan rule: the map moves only when a bus is selected and the
      updated fleet still has a bus with its id, to the first such bus. */
  function PanTarget(selected: Option<Api.Bus>, updated: seq<Api.Bus>): (r: Option<Api.LatLng>)
    ensures r.Some? <==> selected.Some? && exists i :: 0 <= i < |updated| && updated[i].id == selected.value.id
    ensures r.Some? ==> exists i :: 0 <= i < |updated| && updated[i].id == selected.value.id &&
                                    updated[i].currentLocation == r.value &&
                                    forall j :: 0 <= j < i ==> updated[j].id != selected.value.id
  {
    match selected
    case None => None
    case Some(bus) =>
      match Find(updated, (b: Api.Bus) => b.id == bus.id)
      case None => None
      case Some(matching) => Some(matching.currentLocation)
  }

  /** What the map component keeps across renders: the alert ledger
      (`notifiedRef`), the alerts raised, and the marker table (`markersRef`)
      with the number of marker objects created. */
  class BusMapState {
    var notified: set<string>
    var alerts: seq<Alert>
    var markers: map<string, Marker>
    var markersCreated: nat

    ghost predicate Valid()
      reads this
    {
      LedgerValid(Ledger(notified, alerts)) && MarkersValid(markers, markersCreated)
    }

    constructor ()
      ensures Valid()
      ensures notified == {} && alerts == [] && markers == map[] && markersCreated == 0
    {
      notified := {};
      alerts := [];
      markers := map[];
      markersCreated := 0;
    }

    /** `showArrivalAlert`: the key is recorded before anything is shown, so a
        repeated call for a recorded key does nothing. */
    method ShowArrivalAlert(busNumber: string, stopName: string, supported: bool,
                            permission: NotificationContext.Permission)
      requires Valid()
      modifies this`notified, this`alerts
      ensures Valid()
      ensures Ledger(notified, alerts) ==
              AlertStep(old(Ledger(notified, alerts)), (busNumber, stopName), NoticeFor(supported, permission))
    {
      AlertStepValid(Ledger(notified, alerts), (busNumber, stopName), NoticeFor(supported, permission));
      var key := AlertKey(busNumber, stopName);
      if key in notified {
        return;
      }
      notified := notified + {key};
      alerts := alerts + [Alert(busNumber, stopName, NoticeFor(supported, permission))];
    }

    /** The alert part of the map's tick: every bus against every stop, bus
        by bus and stop by stop, alerting when strictly closer than
        `ArrivalRadius`. */
    method ProximityScan(buses: seq<Api.Bus>, stops: seq<Api.Stop>, dist: Api.Distance, supported: bool,
                         permission: NotificationContext.Permission)
      requires Valid()
      modifies this`notified, this`alerts
      ensures Valid()
      ensures Ledger(notified, alerts) ==
              AfterAlerts(old(Ledger(notified, alerts)), ScanHits(buses, stops, dist), NoticeFor(supported, permission))
    {
      ghost var start := Ledger(notified, alerts);
      ghost var notice := NoticeFor(supported, permission);
      for i := 0 to |buses|
        invariant Valid()
        invariant Ledger(notified, alerts) == AfterAlerts(start, ScanHits(buses[..i], stops, dist), notice)
      {
        assert buses[..i + 1][..i] == buses[..i];
        AlertsForBus(buses[i], stops, dist, supported, permission, start, ScanHits(buses[..i], stops, dist));
      }
      assert buses[..|buses|] == buses;
    }

    /** The inner loop of the scan: one bus against every stop, continuing
        the alerts raised for the pairs `before`. */
    method AlertsForBus(bus: Api.Bus, stops: seq<Api.Stop>, dist: Api.Distance, supported: bool,
                        permission: NotificationContext.Permission, ghost start: Ledger,
                        ghost before: seq<(string, string)>)
      requires Valid()
      requires Ledger(notified, alerts) == AfterAlerts(start, before, NoticeFor(supported, permission))
      modifies this`notified, this`alerts
      ensures Valid()
      ensures Ledger(notified, alerts) ==
              AfterAlerts(start, before + BusHits(bus, stops, dist), NoticeFor(supported, permission))
    {
      ghost var notice := NoticeFor(supported, permission);
      assert before + BusHits(bus, stops[..0], dist) == before;
      for j := 0 to |stops|
        invariant Valid()
        invariant Ledger(notified, alerts) == AfterAlerts(start, before + BusHits(bus, stops[..j], dist), notice)
      {
        var stop := stops[j];
        ghost var hits := before + BusHits(bus, stops[..j], dist);
        BusHitsSnoc(bus, stops, j, dist);
        if dist(bus.currentLocation, stop.location) < ArrivalRadius {
          assert before + BusHits(bus, stops[..j + 1], dist) == hits + [(bus.busNumber, stop.name)];
          assert (hits + [(bus.busNumber, stop.name)])[..|hits|] == hits;
          ShowArrivalAlert(bus.busNumber, stop.name, supported, permission);
        } else {
          assert before + BusHits(bus, stops[..j + 1], dist) == hits;
        }
      }
      assert stops[..|stops|] == stops;
    }

    /** `updateMarkers`: move or create a marker per bus, then remove the
        markers whose id no bus in the list carries. */
    method UpdateMarkers(buses: seq<Api.Bus>)
      requires Valid()
      modifies this`markers, this`markersCreated
      ensures Valid()
      ensures (markers, markersCreated) == Reconciled(old(markers), old(markersCreated), buses)
    {
      ghost var m0, c0 := markers, markersCreated;
      PlaceMarkers(buses);
      RemoveStaleMarkers(buses);
      ReconciledMeaning(m0, c0, buses);
    }

    /** The first loop of `updateMarkers`. */
    method PlaceMarkers(buses: seq<Api.Bus>)
      modifies this`markers, this`markersCreated
      ensures (markers, markersCreated) == Placed(old(markers), old(markersCreated), buses)
    {
      ghost var m0, c0 := markers, markersCreated;
      for i := 0 to |buses|
        invariant (markers, markersCreated) == Placed(m0, c0, buses[..i])
      {
        var bus := buses[i];
        if bus.id in markers {
          markers := markers[bus.id := Marker(markers[bus.id].handle, bus.currentLocation)];
        } else {
          markers := markers[bus.id := Marker(markersCreated, bus.currentLocation)];
          markersCreated := markersCreated + 1;
        }
        assert buses[..i + 1][..i] == buses[..i];
      }
      assert buses[..|buses|] == buses;
    }

    /** The second loop of `updateMarkers`: every id in the table that no bus
        carries is deleted. */
    method RemoveStaleMarkers(buses: seq<Api.Bus>)
      modifies this`markers
      ensures markers == map id | id in old(markers) && id in BusIds(buses) :: old(markers)[id]
    {
      ghost var placed := markers;
      var ids := markers.Keys;
      while ids != {}
        invariant ids <= placed.Keys
        invariant markers == map id | id in placed && (id in ids || id in BusIds(buses)) :: placed[id]
        decreases ids
      {
        var id :| id in ids;
        if Find(buses, (b: Api.Bus) => b.id == id).None? {
          markers := markers - {id};
        } else {
          assert id in BusIds(buses);
        }
        ids := ids - {id};
      }
    }

    /** The map's five-second tick as it was evidently meant to run: fetch,
        update the markers, scan for arrivals against the fixed stop list,
        and report where to pan. */
    method Tick(gps: Option<Api.GpsSample>, seat: Option<Api.SeatSample>, now: int, dist: Api.Distance,
                supported: bool, permission: NotificationContext.Permission, selected: Option<Api.Bus>)
      returns (pan: Option<Api.LatLng>)
      requires Valid()
      modifies this
      ensures Valid()
      ensures (markers, markersCreated) ==
              Reconciled(old(markers), old(markersCreated), Api.FetchBusData(gps, seat, now, dist))
      ensures Ledger(notified, alerts) ==
              AfterAlerts(old(Ledger(notified, alerts)), ScanHits(Api.FetchBusData(gps, seat, now, dist), Api.BusStops, dist),
                          NoticeFor(supported, permission))
      ensures pan == PanTarget(selected, Api.FetchBusData(gps, seat, now, dist))
    {
      var updated := Api.FetchBusData(gps, seat, now, dist);
      UpdateMarkers(updated);
      ProximityScan(updated, Api.BusStops, dist, supported, permission);
      pan := PanTarget(selected, updated);
    }

    /** The tick as written: the fetch succeeds, the next statement calls a
        `setBuses` that is not in scope, and the thrown error is caught and
        logged, so the markers, the alerts and the view never change. */
    method TickAsWritten(gps: Option<Api.GpsSample>, seat: Option<Api.SeatSample>, now: int, dist: Api.Distance,
                         supported: bool, permission: NotificationContext.Permission, selected: Option<Api.Bus>)
      returns (pan: Option<Api.LatLng>)
      requires Valid()
      ensures Valid()
      ensures pan == None
    {
      var updated := Api.FetchBusData(gps, seat, now, dist);
      pan := None;
    }
  }

  /** The difference the undefined `setBuses` makes: at the first tick with
      a bus standing on a stop of the fixed list, the intended tick raises
      that alert, while the tick as written leaves the ledger as it was. */
  lemma TickWouldAlert(l: Ledger, buses: seq<Api.Bus>, i: int, j: int, dist: Api.Distance, notice: Notice)
    requires 0 <= i < |buses| && 0 <= j < |Api.BusStops|
    requires dist(buses[i].currentLocation, Api.BusStops[j].location) == 0.0
    requires AlertKey(buses[i].busNumber, Api.BusStops[j].name) !in l.notified
    ensures AfterAlerts(l, ScanHits(buses, Api.BusStops, dist), notice) != l
  {
    var hits := ScanHits(buses, Api.BusStops, dist);
    ScanHitsMeaning(buses, Api.BusStops, dist);
    assert (buses[i].busNumber, Api.BusStops[j].name) in hits;
    var k :| 0 <= k < |hits| && hits[k] == (buses[i].busNumber, Api.BusStops[j].name);
    AfterAlertsCovers(l, hits, notice);
  }
}
