/** The seat availability card (src/components/BusDetails/SeatAvailabilityChart.tsx):
    the share of free seats and its colour band, the seat grid, and the
    counter that climbs to the number of free seats one step per tick.

    The seat feed is an input (`Option<Api.SeatSample>`, `None` for a failed
    fetch); the 50 ms and 10 s timers are the callers of `CounterTick` and
    `ApplyFetch`. */
module SeatAvailabilityChart {
  import opened Basics
  import Api

  /** `percentage`: the free seats as a share of all seats, in percent, and
      0 when there are no seats. */
  function Percentage(total: int, available: int): (p: real)
    ensures total == 0 ==> p == 0.0
    ensures total != 0 ==> p * (total as real) == (available as real) * 100.0
  {
    if total == 0 then 0.0 else (available as real / total as real) * 100.0
  }

  datatype Band = Green | Yellow | Red

  /** `getColor`: above half free is green, above a fifth is yellow, the
      rest red. */
  function ColorOf(percentage: real): (b: Band)
    ensures b == Green <==> percentage > 50.0
    ensures b == Yellow <==> 20.0 < percentage <= 50.0
    ensures b == Red <==> percentage <= 20.0
  {
    if percentage > 50.0 then Green
    else if percentage > 20.0 then Yellow
    else Red
  }

  /** With seats on the bus the band is a comparison of whole numbers. */
  lemma ColorByCounts(total: int, available: int)
    requires total > 0
    ensures ColorOf(Percentage(total, available)) == Green <==> available * 100 > 50 * total
    ensures ColorOf(Percentage(total, available)) == Yellow <==> 20 * total < available * 100 <= 50 * total
    ensures ColorOf(Percentage(total, available)) == Red <==> available * 100 <= 20 * total
  {
    var p := Percentage(total, available);
    var t := total as real;
    assert p * t == (available * 100) as real;
    AboveThreshold(p, 50, total);
    AboveThreshold(p, 20, total);
  }

  /** Multiplying by the positive seat count keeps a comparison with a
      threshold. */
  lemma AboveThreshold(p: real, threshold: int, total: int)
    requires total > 0
    ensures p > threshold as real <==> p * (total as real) > (threshold * total) as real
  {
    var t := total as real;
    assert (threshold * total) as real == threshold as real * t;
    if p > threshold as real {
      assert p * t - threshold as real * t == (p - threshold as real) * t;
    } else {
      assert threshold as real * t - p * t == (threshold as real - p) * t;
    }
  }

  /** One square of the seat grid. */
  datatype Seat = Seat(id: int, isAvailable: bool)

  /** `seats`: `total` squares (none when `total` is not positive), numbered
      from 1, the first `available` of them free. */
  function Seats(total: int, available: int): (r: seq<Seat>)
    ensures |r| == if total > 0 then total else 0
    ensures forall i :: 0 <= i < |r| ==> r[i].id == i + 1 && (r[i].isAvailable <==> i < available)
  {
    seq(if total > 0 then total else 0, i => Seat(i + 1, i < available))
  }

  /** The number of free squares. */
  function FreeCount(seats: seq<Seat>): nat
    decreases |seats|
  {
    if seats == [] then 0
    else FreeCount(seats[..|seats| - 1]) + (if seats[|seats| - 1].isAvailable then 1 else 0)
  }

  lemma {:induction false} FreeCountOfPrefix(total: nat, available: int)
    ensures FreeCount(Seats(total, available)) == if available <= 0 then 0 else if available < total then available else total
    decreases total
  {
    if total > 0 {
      FreeCountOfPrefix(total - 1, available);
      assert Seats(total, available)[..total - 1] == Seats(total - 1, available);
    }
  }

  /** The grid shows min(max(available, 0), max(total, 0)) free seats,
      whatever the feed reports. */
  lemma FreeSeatsShown(total: int, available: int)
    ensures FreeCount(Seats(total, available)) ==
            var t := if total > 0 then total else 0;
            var a := if available > 0 then available else 0;
            if a < t then a else t
  {
    if total > 0 {
      FreeCountOfPrefix(total, available);
    }
  }

  /** One tick of the animated counter: it climbs by one until it reaches the
      target, and is set to the target from then on. */
  function CounterStep(prev: int, target: int): (next: int)
    ensures prev >= target ==> next == target
    ensures prev < target ==> next == prev + 1
  {
    if prev >= target then target else prev + 1
  }

  /** The counter after `n` ticks from 0. */
  function Animated(n: nat, target: int): int
  {
    if n == 0 then 0 else CounterStep(Animated(n - 1, target), target)
  }

  /** From 0, the counter shows min(n, target) after `n` ticks: it never
      overshoots and never goes down. */
  lemma {:induction false} AnimatedClimbs(n: nat, target: int)
    requires target >= 0
    ensures Animated(n, target) == if n < target then n else target
  {
    if n > 0 {
      AnimatedClimbs(n - 1, target);
    }
  }

  class SeatChart {
    var total: int
    var available: int
    var occupied: int
    var animatedAvailable: int
    /** The targets of the 50 ms counters still running, oldest first: every
        fetch starts one and none is stopped by a later fetch. */
    var counters: seq<int>

    constructor ()
      ensures total == 0 && available == 0 && occupied == 0 && animatedAvailable == 0 && counters == []
    {
      total := 0;
      available := 0;
      occupied := 0;
      animatedAvailable := 0;
      counters := [];
    }

    /** `fetchData`: a reading replaces the three counts, resets the counter
        to 0 and starts a counter towards the new free-seat count; a failed
        fetch changes nothing. */
    method ApplyFetch(sample: Option<Api.SeatSample>)
      modifies this
      ensures sample.None? ==>
                total == old(total) && occupied == old(occupied) && available == old(available) &&
                animatedAvailable == old(animatedAvailable) && counters == old(counters)
      ensures sample.Some? ==>
                && total == sample.value.totalSeats
                && occupied == sample.value.occupiedSeats
                && available == sample.value.availableSeats
                && animatedAvailable == 0
                && counters == old(counters) + [sample.value.availableSeats]
    {
      if sample.None? {
        return;
      }
      var latest := sample.value;
      total := latest.totalSeats;
      occupied := latest.occupiedSeats;
      available := latest.availableSeats;
      animatedAvailable := 0;
      counters := counters + [latest.availableSeats];
    }

    /** A tick of the running counter `k`: one step towards its target, and
        the counter stops once it has been reached. */
    method CounterTick(k: nat)
      requires k < |counters|
      modifies this`animatedAvailable, this`counters
      ensures animatedAvailable == CounterStep(old(animatedAvailable), old(counters[k]))
      ensures old(animatedAvailable) >= old(counters[k]) ==> counters == old(counters[..k] + counters[k + 1..])
      ensures old(animatedAvailable) < old(counters[k]) ==> counters == old(counters)
    {
      var target := counters[k];
      if animatedAvailable >= target {
        animatedAvailable := target;
        counters := counters[..k] + counters[k + 1..];
      } else {
        animatedAvailable := animatedAvailable + 1;
      }
    }
  }
}
