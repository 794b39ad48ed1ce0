/**
 Periodic ticks (src/time.rs): `sleep_until`, `interval_at` and `Interval::tick`.

 Instants and durations are natural numbers of nanoseconds.  The clock never runs backwards,
 it may advance by any amount between two readings, and a sleep never ends early.
 */
module Intervals {
  import opened Wrappers

  const NANOS_WIDTH: nat := 0x1_0000_0000_0000_0000

  /** The instant `tick` computes after the first one; the remainder is cast to 64 bits. */
  function NextTick(start: nat, period: nat, now: nat): int
    requires period > 0
  {
    now + period - (Since(now, start) % period) % NANOS_WIDTH
  }

  /** `instant` is the first point of the grid `start + k * period` strictly after `now`. */
  ghost predicate FirstGridPointAfter(start: nat, period: nat, now: nat, instant: int) {
    && now < instant <= now + period
    && OnGrid(start, period, instant)
  }

  ghost predicate OnGrid(start: nat, period: nat, instant: int) {
    exists k: nat :: instant == start + k * period
  }

  lemma GridPointsAreApart(start: nat, period: nat, a: int, b: int)
    requires OnGrid(start, period, a) && OnGrid(start, period, b) && a < b
    ensures a + period <= b
  {
    var i: nat :| a == start + i * period;
    var j: nat :| b == start + j * period;
    if j <= i {
      MulMonotone(j, i, period);
    } else {
      MulMonotone(i + 1, j, period);
    }
  }

  lemma MulMonotone(a: nat, b: nat, c: nat)
    requires a <= b
    ensures a * c <= b * c
  {
  }

  /** At most one instant qualifies, so the predicate pins down the tick. */
  lemma FirstGridPointIsUnique(start: nat, period: nat, now: nat, a: int, b: int)
    requires FirstGridPointAfter(start, period, now, a)
    requires FirstGridPointAfter(start, period, now, b)
    ensures a == b
  {
    if a < b {
      GridPointsAreApart(start, period, a, b);
    } else if b < a {
      GridPointsAreApart(start, period, b, a);
    }
  }

  /**
   The computed instant is the first grid point after `now` exactly when the remainder
   survives the cast to 64 bits.
   */
  lemma NextTickIsFirstGridPoint(start: nat, period: nat, now: nat)
    requires period > 0 && start <= now
    ensures FirstGridPointAfter(start, period, now, NextTick(start, period, now))
            <==> (now - start) % period < NANOS_WIDTH
  {
    var elapsed := now - start;
    var k := elapsed / period + 1;
    var exact := now + period - elapsed % period;
    assert exact == start + k * period by {
      assert elapsed == elapsed / period * period + elapsed % period;
      assert k * period == elapsed / period * period + period;
    }
    assert FirstGridPointAfter(start, period, now, exact);
    if elapsed % period >= NANOS_WIDTH && FirstGridPointAfter(start, period, now, NextTick(start, period, now)) {
      FirstGridPointIsUnique(start, period, now, exact, NextTick(start, period, now));
      assert false;
    }
  }

  /** With a period over 2^64 nanoseconds a tick can miss the grid. */
  lemma WidePeriodMissesTheGrid()
    ensures var period := NANOS_WIDTH + 2;
            var now := NANOS_WIDTH;
            && NextTick(0, period, now) == now + period
            && !FirstGridPointAfter(0, period, now, NextTick(0, period, now))
  {
    NextTickIsFirstGridPoint(0, NANOS_WIDTH + 2, NANOS_WIDTH);
  }

  // ---------------------------------------------------------------- whole runs

  /**
   `ticks` are the instants returned by successive calls, the first being `start`; `readings[i]`
   is the clock as read by the call after tick `i`, which is no earlier than that tick.
   */
  ghost predicate TickRun(start: nat, period: nat, ticks: seq<int>, readings: seq<nat>)
    requires period > 0
  {
    && |ticks| == |readings| + 1
    && ticks[0] == start
    && forall i :: 0 <= i < |readings| ==>
                     ticks[i] <= readings[i] && ticks[i + 1] == NextTick(start, period, readings[i])
  }

  /** For any period, a tick is after the reading it was computed from and within a period of it. */
  lemma NextTickIsAhead(start: nat, period: nat, now: nat)
    requires period > 0
    ensures now < NextTick(start, period, now) <= now + period
  {
    var remainder := Since(now, start) % period;
    assert remainder % NANOS_WIDTH <= remainder < period;
  }

  lemma {:induction false} TicksIncrease(start: nat, period: nat, ticks: seq<int>, readings: seq<nat>, i: nat)
    requires 0 < period && TickRun(start, period, ticks, readings)
    requires i < |ticks|
    ensures start <= ticks[i]
    ensures i < |readings| ==> ticks[i] < ticks[i + 1]
  {
    if i > 0 {
      TicksIncrease(start, period, ticks, readings, i - 1);
    }
    if i < |readings| {
      NextTickIsAhead(start, period, readings[i]);
    }
  }

  /**
   However long the caller dawdles between calls, every tick stays on the grid, and two
   successive ticks are one period apart plus one period for every tick the caller slept through.
   */
  lemma TicksDoNotDrift(start: nat, period: nat, ticks: seq<int>, readings: seq<nat>, i: nat)
    requires 0 < period <= NANOS_WIDTH && TickRun(start, period, ticks, readings)
    requires i < |ticks|
    ensures OnGrid(start, period, ticks[i])
    ensures i < |readings| ==>
              ticks[i + 1] == ticks[i] + ((readings[i] - ticks[i]) / period + 1) * period
  {
    if i == 0 {
      assert ticks[0] == start + 0 * period;
    } else {
      TicksIncrease(start, period, ticks, readings, i - 1);
      NextTickIsFirstGridPoint(start, period, readings[i - 1]);
    }
    if i < |readings| {
      var k: nat :| ticks[i] == start + k * period;
      StepFromGrid(start, period, k, readings[i]);
    }
  }

  lemma StepFromGrid(start: nat, period: nat, k: nat, now: nat)
    requires 0 < period <= NANOS_WIDTH && start + k * period <= now
    ensures NextTick(start, period, now)
            == start + k * period + ((now - (start + k * period)) / period + 1) * period
  {
    var base := start + k * period;
    var over := now - base;
    var missed := over / period;
    var guess := base + (missed + 1) * period;
    assert over == missed * period + over % period;
    assert guess == start + (k + missed + 1) * period;
    assert FirstGridPointAfter(start, period, now, guess);
    NextTickIsFirstGridPoint(start, period, now);
    FirstGridPointIsUnique(start, period, now, guess, NextTick(start, period, now));
  }

  // ---------------------------------------------------------------- the source's objects

  class Clock {
    var time: nat

    constructor (time: nat)
      ensures this.time == time
    {
      this.time := time;
    }

    /** `Instant::now()`: any amount of time may have passed. */
    method Now() returns (reading: nat)
      modifies this
      ensures old(time) <= time == reading
    {
      var elapsed: int :| 0 <= elapsed;
      time := time + elapsed;
      reading := time;
    }

    /** `sleep(duration).await`: never early, possibly late. */
    method Sleep(duration: nat)
      modifies this
      ensures old(time) + duration <= time
    {
      var late: int :| 0 <= late;
      time := time + duration + late;
    }

    /** Returns no earlier than the deadline, also when the deadline has already passed. */
    method SleepUntil(deadline: nat)
      modifies this
      ensures old(time) <= time && deadline <= time
    {
      var now := Now();
      Sleep(Since(deadline, now));
    }
  }

  class Interval {
    const start: nat
    const period: nat
    var firstTicked: bool
    ghost var ticks: seq<int>
    ghost var readings: seq<nat>

    ghost predicate Valid()
      reads this
    {
      && 0 < period
      && (firstTicked <==> ticks != [])
      && (if firstTicked then TickRun(start, period, ticks, readings) else readings == [])
    }

    /** The instant before which the interval has no business being polled again. */
    ghost function LastTick(): int
      reads this
    {
      if ticks == [] then 0 else ticks[|ticks| - 1]
    }

    /** `interval_at`, which panics on a zero period. */
    constructor (start: nat, period: nat)
      requires period > 0
      ensures Valid() && this.start == start && this.period == period && !firstTicked && ticks == []
    {
      this.start := start;
      this.period := period;
      firstTicked := false;
      ticks, readings := [], [];
    }

    /**
     One tick: it joins the run recorded so far, is slept for, is later than every earlier one,
     and from the second one on is the first grid point after the clock reading the call took
     exactly when the remainder of that reading fits 64 bits.
     */
    method Tick(clock: Clock) returns (instant: int)
      requires Valid() && LastTick() <= clock.time
      modifies this, clock
      ensures Valid() && firstTicked && ticks == old(ticks) + [instant]
      ensures old(clock.time) <= clock.time && LastTick() == instant <= clock.time
      ensures !old(firstTicked) ==> instant == start
      ensures old(firstTicked) ==>
                && |readings| == old(|readings|) + 1
                && old(clock.time) <= readings[|readings| - 1] <= clock.time
                && start <= readings[|readings| - 1]
                && (FirstGridPointAfter(start, period, readings[|readings| - 1], instant)
                    <==> (readings[|readings| - 1] - start) % period < NANOS_WIDTH)
                && old(LastTick()) < instant
    {
      if !firstTicked {
        clock.SleepUntil(start);
        firstTicked := true;
        instant := start;
        ticks := [instant];
      } else {
        var now := clock.Now();
        ghost var last := |ticks| - 1;
        TicksIncrease(start, period, ticks, readings, last);
        NextTickIsFirstGridPoint(start, period, now);
        NextTickIsAhead(start, period, now);
        instant := NextTick(start, period, now);
        clock.SleepUntil(instant);
        ticks, readings := ticks + [instant], readings + [now];
      }
    }
  }
}
