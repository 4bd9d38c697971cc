/** The telemetry service of the dashboard (src/services/api.ts): the bus and
    stop records, the static route, the reconciliation of one GPS sample and one
    seat sample into every bus, the geofence check, the route search and the
    stored feedback record.

    Distances come in as a parameter `dist` (metres between two coordinates),
    the wall clock as `now` (a minute count), and each telemetry channel's
    latest sample as an `Option` that is `None` when the request or the access
    to its first feed entry fails. */
module Api {
  import opened Basics

  datatype LatLng = LatLng(lat: real, lng: real)

  /** An arrival time as shown to the user: a static timetable label, or the
      wall-clock minute an estimate lands on (its `toLocaleTimeString`
      rendering is not modelled). */
  datatype ArrivalTime = Label(text: string) | AtMinute(minute: int)

  datatype Stop = Stop(name: string, location: LatLng, estimatedArrival: ArrivalTime, departureTime: string)

  datatype CrowdLevel = Low | Medium | High

  datatype Occupancy = Occupancy(totalSeats: int, availableSeats: int, crowdLevel: CrowdLevel, passengerCount: int)

  datatype Bus = Bus(
    id: string,
    route: string,
    busNumber: string,
    currentLocation: LatLng,
    speed: real,
    direction: real,
    nextStop: string,
    departureTime: string,
    estimatedArrival: ArrivalTime,
    occupancy: Occupancy,
    stops: seq<Stop>)

  /** What the feedback form hands over: a feedback record without id and date. */
  datatype FeedbackInput = FeedbackInput(
    busNumber: string, rating: int, review: string, timelyArrival: bool,
    cleanliness: int, driverBehavior: int)

  datatype Feedback = Feedback(
    id: string, busNumber: string, rating: int, review: string, timelyArrival: bool,
    cleanliness: int, driverBehavior: int, createdAt: string)

  /** The latest entry of the GPS channel: latitude, longitude, speed (km/h). */
  datatype GpsSample = GpsSample(lat: real, lng: real, speed: real)

  /** The latest entry of the seat channel: total, occupied and available seats. */
  datatype SeatSample = SeatSample(totalSeats: int, occupiedSeats: int, availableSeats: int)

  /** Great-circle distance in metres between two coordinates. */
  type Distance = (LatLng, LatLng) -> real

  const GeofenceRadius: real := 100.0

  /** The fixed route every bus follows. */
  const BusStops: seq<Stop> := [
    Stop("MGR New Bus Stand", LatLng(8.703608, 77.727452), Label("10:00 AM"), "10:05 AM"),
    Stop("NGO Colony Bus Stop", LatLng(8.696473, 77.727235), Label("10:15 AM"), "10:17 AM"),
    Stop("GCE Bus Stop", LatLng(8.685407, 77.724927), Label("10:25 AM"), "10:27 AM"),
    Stop("Tuckerammalpuram Bus Stop", LatLng(8.675301, 77.720583), Label("10:35 AM"), "10:37 AM"),
    Stop("Munnirpallam Jothipuram Bus Stop", LatLng(8.66584, 77.716508), Label("10:45 AM"), "10:47 AM")
  ]

  /** The fleet the telemetry is merged into, and the fallback on failure. */
  const MockBuses: seq<Bus> := [
    Bus("Sunthara Travels", "MGR Bus Stand - Munnirpallam", "TN72-M5267",
        LatLng(8.703608, 77.727452), 0.0, 0.0, "NGO Colony Bus Stop", "10:00 AM",
        Label("10:45 AM"), Occupancy(40, 15, Medium, 25), BusStops)
  ]

  /** The names of a route's stops, in route order. */
  function StopNames(stops: seq<Stop>): (names: seq<string>)
    ensures |names| == |stops|
    ensures forall i :: 0 <= i < |stops| ==> names[i] == stops[i].name
  {
    seq(|stops|, i requires 0 <= i < |stops| => stops[i].name)
  }

  /** The crowd bucket of a bus from its available seats alone. */
  function CrowdLevelOf(availableSeats: int): (c: CrowdLevel)
    ensures c == High <==> availableSeats < 10
    ensures c == Medium <==> 10 <= availableSeats < 20
    ensures c == Low <==> 20 <= availableSeats
  {
    if availableSeats < 10 then High else if availableSeats < 20 then Medium else Low
  }

  /** The whole minutes an estimate lies ahead of `now`: the travel time at
      `speed` km/h rounded down, and nothing for a bus that is not moving. */
  function EtaOffsetMinutes(distanceKm: real, speed: real): (m: int)
    ensures speed <= 0.0 ==> m == 0
    ensures speed > 0.0 ==> m as real <= distanceKm / speed * 60.0 < m as real + 1.0
  {
    if speed > 0.0 then (distanceKm / speed * 60.0).Floor else 0
  }

  /** A farther stop is never estimated earlier, and a moving bus never
      before `now` (for non-negative distances). */
  lemma EtaOffsetMonotone(d1: real, d2: real, speed: real)
    requires 0.0 <= d1 <= d2
    ensures 0 <= EtaOffsetMinutes(d1, speed) <= EtaOffsetMinutes(d2, speed)
  {
    if speed > 0.0 {
      var t1, t2 := d1 / speed * 60.0, d2 / speed * 60.0;
      assert d1 / speed <= d2 / speed by {
        assert d1 / speed * speed == d1;
        assert d2 / speed * speed == d2;
      }
      assert 0.0 <= t1 <= t2;
    }
  }

  /** At the same distance a faster bus is never estimated later. */
  lemma EtaOffsetFasterIsSooner(d: real, s1: real, s2: real)
    requires 0.0 <= d && 0.0 < s1 <= s2
    ensures EtaOffsetMinutes(d, s2) <= EtaOffsetMinutes(d, s1)
  {
    assert d / s2 <= d / s1 by {
      assert d / s1 * s1 == d;
      assert d / s2 * s2 == d;
      assert d / s2 * s1 <= d / s2 * s2;
    }
  }

  /** `calculateEstimatedTime`: the arrival minute at `target` for a bus at
      `here` moving at `speed` km/h, counted from one sampled `now`. */
  function EstimatedTime(here: LatLng, target: LatLng, speed: real, now: int, dist: Distance): (t: ArrivalTime)
    ensures t.AtMinute?
    ensures t.minute == now + EtaOffsetMinutes(dist(here, target) / 1000.0, speed)
    ensures speed <= 0.0 ==> t.minute == now
    ensures speed > 0.0 && dist(here, target) >= 0.0 ==> t.minute >= now
  {
    var m := EtaOffsetMinutes(dist(here, target) / 1000.0, speed);
    assert speed > 0.0 && dist(here, target) >= 0.0 ==> m >= 0 by {
      if speed > 0.0 && dist(here, target) >= 0.0 {
        EtaOffsetMonotone(0.0, dist(here, target) / 1000.0, speed);
      }
    }
    AtMinute(now + m)
  }

  /** The stop the bus's own ETA is computed for: the first stop named
      `nextStop`, else the last stop; a route without stops has none, and the
      source then fails on `undefined.location`. */
  function NextStopTarget(stops: seq<Stop>, nextStop: string): (r: Option<Stop>)
    ensures r.None? <==> stops == []
    ensures nextStop in StopNames(stops) ==>
              r == Some(stops[IndexOf(StopNames(stops), nextStop)])
    ensures nextStop !in StopNames(stops) && stops != [] ==> r == Some(stops[|stops| - 1])
  {
    var names := StopNames(stops);
    var k := FindIndex(stops, (s: Stop) => s.name == nextStop);
    assert k == IndexOf(names, nextStop) by {
      var j := IndexOf(names, nextStop);
      if j == -1 {
        assert forall i :: 0 <= i < |stops| ==> names[i] != nextStop;
      } else {
        assert forall i :: 0 <= i < j ==> names[..j][i] == names[i];
        assert k == j;
      }
    }
    if k != -1 then Some(stops[k])
    else if stops != [] then Some(stops[|stops| - 1])
    else None
  }

  /** The route with every stop's `estimatedArrival` recomputed from the new
      position; name, location and departure time are left as they were. */
  function UpdatedStops(stops: seq<Stop>, here: LatLng, speed: real, now: int, dist: Distance): (r: seq<Stop>)
    ensures |r| == |stops|
    ensures StopNames(r) == StopNames(stops)
    ensures forall i :: 0 <= i < |stops| ==>
              && r[i].name == stops[i].name
              && r[i].location == stops[i].location
              && r[i].departureTime == stops[i].departureTime
              && r[i].estimatedArrival == EstimatedTime(here, stops[i].location, speed, now, dist)
  {
    var r := seq(|stops|, i requires 0 <= i < |stops| =>
                 stops[i].(estimatedArrival := EstimatedTime(here, stops[i].location, speed, now, dist)));
    assert StopNames(r) == StopNames(stops);
    r
  }

  /** One bus of `fetchBusData`'s map: the GPS sample replaces position and
      speed, every ETA is recomputed, and the seat sample replaces the
      occupancy; identity, route, number, direction, departure time and the
      next-stop name are copied. `None` when the route has no stops. */
  function ReconcileBus(bus: Bus, gps: GpsSample, seat: SeatSample, now: int, dist: Distance): (r: Option<Bus>)
    ensures r.None? <==> bus.stops == []
    ensures r.Some? ==>
              && r.value.id == bus.id
              && r.value.route == bus.route
              && r.value.busNumber == bus.busNumber
              && r.value.direction == bus.direction
              && r.value.departureTime == bus.departureTime
              && r.value.nextStop == bus.nextStop
              && r.value.currentLocation == LatLng(gps.lat, gps.lng)
              && r.value.speed == gps.speed
              && r.value.stops == UpdatedStops(bus.stops, LatLng(gps.lat, gps.lng), gps.speed, now, dist)
              && r.value.occupancy.totalSeats == seat.totalSeats
              && r.value.occupancy.availableSeats == seat.availableSeats
              && r.value.occupancy.passengerCount == seat.occupiedSeats
              && r.value.occupancy.crowdLevel == CrowdLevelOf(seat.availableSeats)
              && r.value.estimatedArrival ==
                   EstimatedTime(LatLng(gps.lat, gps.lng), NextStopTarget(bus.stops, bus.nextStop).value.location,
                                 gps.speed, now, dist)
  {
    var here := LatLng(gps.lat, gps.lng);
    match NextStopTarget(bus.stops, bus.nextStop)
    case None => None
    case Some(target) =>
      Some(bus.(
        currentLocation := here,
        speed := gps.speed,
        estimatedArrival := EstimatedTime(here, target.location, gps.speed, now, dist),
        stops := UpdatedStops(bus.stops, here, gps.speed, now, dist),
        occupancy := Occupancy(seat.totalSeats, seat.availableSeats, CrowdLevelOf(seat.availableSeats), seat.occupiedSeats)))
  }

  /** `fleet.map(ReconcileBus)`, which throws at the first bus without stops. */
  function ReconcileFleet(fleet: seq<Bus>, gps: GpsSample, seat: SeatSample, now: int, dist: Distance): (r: Option<seq<Bus>>)
    ensures r.Some? <==> forall i :: 0 <= i < |fleet| ==> fleet[i].stops != []
    ensures r.Some? ==> |r.value| == |fleet|
    ensures r.Some? ==> forall i :: 0 <= i < |fleet| ==> Some(r.value[i]) == ReconcileBus(fleet[i], gps, seat, now, dist)
  {
    var f := (b: Bus) => ReconcileBus(b, gps, seat, now, dist);
    MapAllPointwise(fleet, f);
    MapAll(fleet, f)
  }

  /** `fetchBusData`: the mock fleet with both samples merged in, or the mock
      fleet unchanged when a channel fails (or a bus has no stops). */
  function FetchBusData(gps: Option<GpsSample>, seat: Option<SeatSample>, now: int, dist: Distance): (r: seq<Bus>)
    ensures |r| == |MockBuses|
    ensures forall i :: 0 <= i < |r| ==>
              r[i].id == MockBuses[i].id && r[i].busNumber == MockBuses[i].busNumber &&
              StopNames(r[i].stops) == StopNames(MockBuses[i].stops)
    ensures gps.None? || seat.None? ==> r == MockBuses
    ensures gps.Some? && seat.Some? ==>
              forall i :: 0 <= i < |r| ==> Some(r[i]) == ReconcileBus(MockBuses[i], gps.value, seat.value, now, dist)
  {
    if gps.None? || seat.None? then MockBuses
    else
      var reconciled := ReconcileFleet(MockBuses, gps.value, seat.value, now, dist);
      assert |MockBuses| == 1 && MockBuses[0].stops != [];
      var buses := reconciled.value;
      assert Some(buses[0]) == ReconcileBus(MockBuses[0], gps.value, seat.value, now, dist);
      buses
  }

  /** A stop lies within `radius` metres of `here`. */
  function Near(here: LatLng, dist: Distance, radius: real): Stop -> bool
  {
    (s: Stop) => dist(here, s.location) <= radius
  }

  /** The names of the stops within `radius` metres of `here`, in route order. */
  function StopsWithin(stops: seq<Stop>, here: LatLng, dist: Distance, radius: real): (r: seq<string>)
    ensures Subsequence(r, StopNames(stops))
    ensures forall n :: n in r <==>
              exists i :: 0 <= i < |stops| && stops[i].name == n && dist(here, stops[i].location) <= radius
    decreases |stops|
  {
    if stops == [] then []
    else
      var init, last := stops[..|stops| - 1], stops[|stops| - 1];
      var r' := StopsWithin(init, here, dist, radius);
      assert forall i :: 0 <= i < |init| ==> init[i] == stops[i];
      assert StopNames(stops)[..|init|] == StopNames(init);
      if dist(here, last.location) <= radius then
        assert (r' + [last.name])[..|r'|] == r';
        r' + [last.name]
      else r'
  }

  /** The geofence list is exactly the names of the stops the filter keeps:
      one name per stop within the radius, so a name shared by several such
      stops appears once for each of them. */
  lemma {:induction false} StopsWithinIsFilter(stops: seq<Stop>, here: LatLng, dist: Distance, radius: real)
    ensures StopsWithin(stops, here, dist, radius) == StopNames(Filter(stops, Near(here, dist, radius)))
    decreases |stops|
  {
    if stops != [] {
      var init, last := stops[..|stops| - 1], stops[|stops| - 1];
      var near := Near(here, dist, radius);
      StopsWithinIsFilter(init, here, dist, radius);
      assert Filter(stops, near) == if near(last) then Filter(init, near) + [last] else Filter(init, near);
      if near(last) {
        StopNamesSnoc(Filter(init, near), last);
      }
    }
  }

  /** Appending a stop appends its name. */
  lemma StopNamesSnoc(stops: seq<Stop>, stop: Stop)
    ensures StopNames(stops + [stop]) == StopNames(stops) + [stop.name]
  {
  }

  /** `checkGeofenceTrigger`: the loop over the bus's stops collecting those
      within the geofence radius (its console logging is not modelled). */
  method CheckGeofenceTrigger(bus: Bus, dist: Distance) returns (triggeredStops: seq<string>)
    ensures triggeredStops == StopsWithin(bus.stops, bus.currentLocation, dist, GeofenceRadius)
  {
    triggeredStops := [];
    for i := 0 to |bus.stops|
      invariant triggeredStops == StopsWithin(bus.stops[..i], bus.currentLocation, dist, GeofenceRadius)
    {
      var stop := bus.stops[i];
      var distance := dist(bus.currentLocation, stop.location);
      if distance <= GeofenceRadius {
        triggeredStops := triggeredStops + [stop.name];
      }
      assert bus.stops[..i + 1][..i] == bus.stops[..i];
    }
    assert bus.stops[..|bus.stops|] == bus.stops;
  }

  /** A bus standing exactly on a stop of its route triggers that stop. */
  lemma StandingOnStopTriggers(bus: Bus, i: int, dist: Distance)
    requires 0 <= i < |bus.stops|
    requires bus.currentLocation == bus.stops[i].location
    requires dist(bus.currentLocation, bus.currentLocation) == 0.0
    ensures bus.stops[i].name in StopsWithin(bus.stops, bus.currentLocation, dist, GeofenceRadius)
  {
  }

  /** The search filter: both names on the route, and the first occurrence of
      `source` strictly before the first occurrence of `destination`. */
  predicate ServesInOrder(bus: Bus, source: string, destination: string)
  {
    var names := StopNames(bus.stops);
    var s, d := IndexOf(names, source), IndexOf(names, destination);
    s != -1 && d != -1 && s < d
  }

  /** The search filter without indices: some stop named `source` comes
      before every stop named `destination`, and one such comes after it. */
  lemma ServesInOrderMeaning(bus: Bus, source: string, destination: string)
    ensures ServesInOrder(bus, source, destination) <==>
              exists i :: 0 <= i < |bus.stops| && bus.stops[i].name == source &&
                destination !in StopNames(bus.stops)[..i + 1] && destination in StopNames(bus.stops)[i + 1..]
  {
    if ServesInOrder(bus, source, destination) {
      OrderedTripHasBoarding(bus, source, destination);
    }
    if exists i :: 0 <= i < |bus.stops| && bus.stops[i].name == source &&
                   destination !in StopNames(bus.stops)[..i + 1] && destination in StopNames(bus.stops)[i + 1..] {
      var i :| 0 <= i < |bus.stops| && bus.stops[i].name == source &&
               destination !in StopNames(bus.stops)[..i + 1] && destination in StopNames(bus.stops)[i + 1..];
      BoardingGivesOrderedTrip(bus, source, destination, i);
    }
  }

  /** A served trip boards at the first stop named `source`. */
  lemma OrderedTripHasBoarding(bus: Bus, source: string, destination: string)
    requires ServesInOrder(bus, source, destination)
    ensures var s := IndexOf(StopNames(bus.stops), source);
            0 <= s < |bus.stops| && bus.stops[s].name == source &&
            destination !in StopNames(bus.stops)[..s + 1] && destination in StopNames(bus.stops)[s + 1..]
  {
    IndexOfOrdered(StopNames(bus.stops), source, destination);
  }

  /** A stop named `source` followed, and not preceded, by `destination`
      makes the trip served. */
  lemma BoardingGivesOrderedTrip(bus: Bus, source: string, destination: string, i: int)
    requires 0 <= i < |bus.stops| && bus.stops[i].name == source
    requires destination !in StopNames(bus.stops)[..i + 1] && destination in StopNames(bus.stops)[i + 1..]
    ensures ServesInOrder(bus, source, destination)
  {
    OrderedFromOccurrence(StopNames(bus.stops), source, destination, i);
  }

  /** A trip from a stop to itself is never served. */
  lemma SameStopNeverServed(bus: Bus, stop: string)
    ensures !ServesInOrder(bus, stop, stop)
  {
  }

  /** `findBusesOnRoute`: the buses of `fleet` that serve the trip, in fleet
      order (the source's 700 ms delay is not modelled). */
  function FindBusesOnRoute(fleet: seq<Bus>, source: string, destination: string): (r: seq<Bus>)
    ensures Subsequence(r, fleet)
    ensures forall i :: 0 <= i < |r| ==> r[i] in fleet && ServesInOrder(r[i], source, destination)
    ensures forall i :: 0 <= i < |fleet| && ServesInOrder(fleet[i], source, destination) ==> fleet[i] in r
    ensures forall b :: multiset(r)[b] == if ServesInOrder(b, source, destination) then multiset(fleet)[b] else 0
  {
    var serves := (b: Bus) => ServesInOrder(b, source, destination);
    assert forall b :: multiset(Filter(fleet, serves))[b] == if serves(b) then multiset(fleet)[b] else 0 by {
      forall b ensures multiset(Filter(fleet, serves))[b] == if serves(b) then multiset(fleet)[b] else 0 {
        FilterMultiplicity(fleet, serves, b);
      }
    }
    Filter(fleet, serves)
  }

  /** `submitFeedback`: the form's values with an id of the form `FB...` and a
      creation date; the random id suffix and the clock are parameters. */
  function SubmitFeedback(input: FeedbackInput, idSuffix: string, createdAt: string): (f: Feedback)
    ensures |f.id| >= 2 && f.id[..2] == "FB" && f.createdAt == createdAt
    ensures FeedbackInput(f.busNumber, f.rating, f.review, f.timelyArrival, f.cleanliness, f.driverBehavior) == input
  {
    Feedback("FB" + idSuffix, input.busNumber, input.rating, input.review, input.timelyArrival,
             input.cleanliness, input.driverBehavior, createdAt)
  }
}
