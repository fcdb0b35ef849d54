/**
 The ACPI power management timer (src/acpi.c): when TMR_STS is set (Table 4-9
 of ACPI 1.0), and what a read of the counter costs.

 Times are ticks of the 3.579545 MHz counter. `half` is half its period:
 2^23 ticks, or 2^31 for the 32-bit timer.
 */
module PmTimer {

  const TIMER_FREQ: int := 3579545

  predicate IsHalf(half: int) {
    half == 0x80_0000 || half == 0x8000_0000
  }

  /** The counter's top bit at tick t. */
  predicate TopBit(half: int, t: int)
    requires IsHalf(half)
  {
    t / half % 2 == 1
  }

  /** acpi_get_overflow_period, as the tick it aims at. */
  function NextTarget(half: int, t: int): (next: int)
    requires IsHalf(half) && 0 <= t
    ensures next % half == 0 && 0x100 <= next - t < half + 0x100
  {
    var next := (t / half + 1) * half;
    assert next - half <= t < next && next % half == 0 by { Multiple(half, t / half + 1); }
    if next - t >= 0x100 then next
    else
      Multiple(half, t / half + 2);
      assert next + half == (t / half + 2) * half;
      next + half
  }

  lemma Multiple(half: int, k: int)
    requires IsHalf(half)
    ensures k * half % half == 0 && k * half / half == k
  {
    if half == 0x80_0000 { } else { }
  }

  /** Every multiple of `half` is a toggle of the top bit, and no other tick is. */
  lemma TogglesAreMultiples(half: int, t: int)
    requires IsHalf(half) && 0 < t
    ensures TopBit(half, t) != TopBit(half, t - 1) <==> t % half == 0
  {
    if half == 0x80_0000 { } else { }
  }

  /** A callback set for `target` that runs at tick t reports the toggle it was
      set for and aims at the next one exactly when it is less than 256 ticks
      early and at most half a period less 256 ticks late. Earlier, it aims at
      the same toggle again; later, it misses one. */
  lemma NextIsFollowing(half: int, target: int, t: int)
    requires IsHalf(half) && 0 <= t && target % half == 0
    ensures NextTarget(half, t) == target + half <==> target - 0x100 < t <= target + half - 0x100
    ensures t <= target - 0x100 ==> NextTarget(half, t) <= target
    ensures t > target + half - 0x100 ==> NextTarget(half, t) >= target + 2 * half
  {
    var k := target / half;
    assert target == k * half;
    var q, next := t / half, (t / half + 1) * half;
    assert q * half <= t < q * half + half && next == q * half + half;
    if q <= k - 2 {
      assert (k - q) * half >= 2 * half;
    } else if q >= k + 1 {
      assert (q - k) * half >= half;
    }
  }

  /** Callbacks keep their time: each runs within the window of its target. */
  ghost predicate OnTime(half: int, start: int, times: seq<int>)
    requires IsHalf(half) && 0 <= start
  {
    forall k :: 0 <= k < |times| ==>
      && 0 <= times[k]
      && var target := TargetAt(half, start, times, k); target - 0x100 < times[k] <= target + half - 0x100
  }

  /** The toggle callback k was set for: armed at `start`, then by each callback. */
  function TargetAt(half: int, start: int, times: seq<int>, k: int): int
    requires IsHalf(half) && 0 <= start && 0 <= k <= |times|
  {
    if k == 0 then NextTarget(half, start)
    else if times[k - 1] < 0 then 0
    else NextTarget(half, times[k - 1])
  }

  /** Callback k reports toggle number k after the first: none twice, none
      missed. */
  lemma {:induction false} CallbackTargets(half: int, start: int, times: seq<int>, k: int)
    requires IsHalf(half) && 0 <= start && OnTime(half, start, times) && 0 <= k <= |times|
    ensures TargetAt(half, start, times, k) == NextTarget(half, start) + k * half
  {
    hide NextTarget;
    if k > 0 {
      CallbackTargets(half, start, times, k - 1);
      assert (k - 1) * half + half == k * half;
      MultipleSum(half, NextTarget(half, start), k - 1);
      NextIsFollowing(half, TargetAt(half, start, times, k - 1), times[k - 1]);
    }
  }

  lemma MultipleSum(half: int, a: int, k: int)
    requires IsHalf(half) && a % half == 0
    ensures (a + k * half) % half == 0 && (a + k * half) / half == a / half + k
  {
    assert a + k * half == (a / half + k) * half;
    Multiple(half, a / half + k);
  }

  /** A toggle after the timer is armed comes before the first target exactly if
      it is less than 256 ticks away. */
  lemma BeforeTarget(half: int, start: int, toggle: int)
    requires IsHalf(half) && 0 <= start < toggle && toggle % half == 0
    ensures toggle < NextTarget(half, start) <==> toggle - start < 0x100
  {
    var q, k := start / half, toggle / half;
    assert toggle == k * half && q * half <= start < q * half + half;
    if half == 0x80_0000 { } else { }
  }

  /** Every toggle after the timer is armed, up to the last callback's, is
      reported by exactly one callback, unless it was less than 256 ticks away
      when the timer was armed: then by none. */
  lemma EveryToggleOnce(half: int, start: int, times: seq<int>, toggle: int) returns (k: int)
    requires IsHalf(half) && 0 <= start < toggle && OnTime(half, start, times) && 0 < |times|
    requires toggle % half == 0 && toggle <= TargetAt(half, start, times, |times| - 1)
    ensures toggle - start >= 0x100 ==> 0 <= k < |times| && TargetAt(half, start, times, k) == toggle
    ensures forall j :: 0 <= j < |times| && TargetAt(half, start, times, j) == toggle ==>
                          j == k && toggle - start >= 0x100
  {
    hide NextTarget, TargetAt, OnTime;
    var first := NextTarget(half, start);
    k := ToggleNumber(half, first, toggle);
    BeforeTarget(half, start, toggle);
    CallbackTargets(half, start, times, |times| - 1);
    if first <= toggle {
      InRange(half, k, |times| - 1);
      CallbackTargets(half, start, times, k);
    }
    forall j | 0 <= j < |times| && TargetAt(half, start, times, j) == toggle
      ensures j == k && toggle - start >= 0x100
    {
      CallbackTargets(half, start, times, j);
      assert (j - k) * half == j * half - k * half == 0;
      Cancel(half, j - k);
    }
  }

  lemma ToggleNumber(half: int, first: int, toggle: int) returns (k: int)
    requires IsHalf(half) && first % half == 0 && toggle % half == 0
    ensures toggle == first + k * half
  {
    k := toggle / half - first / half;
    assert toggle == toggle / half * half && first == first / half * half;
    assert k * half == toggle / half * half - first / half * half;
  }

  lemma InRange(half: int, k: int, last: int)
    requires IsHalf(half) && 0 <= k * half <= last * half
    ensures 0 <= k <= last
  {
    if half == 0x80_0000 { } else { }
  }

  lemma Cancel(half: int, d: int)
    requires IsHalf(half) && d * half == 0
    ensures d == 0
  {
    if half == 0x80_0000 { } else { }
  }

  // ---- Reads ----

  /** acpi_clock_get: the counter at CPU cycle `tsc`, for a CPU at `clock` Hz. */
  function Ticks(clock: real, tsc: int): int
    requires clock > 0.0
  {
    (tsc as real * TIMER_FREQ as real / clock).Floor
  }

  /** The cycles a read is charged (acpi_speed_changed). */
  function ReadCycles(clock: real): int
    requires clock > 0.0
  {
    (clock / TIMER_FREQ as real).Floor + 1
  }

  /** A read at least that many cycles after another sees a later tick. */
  lemma ReadsAdvance(clock: real, first: int, second: int)
    requires clock > 0.0 && first + ReadCycles(clock) <= second
    ensures Ticks(clock, first) + 1 <= Ticks(clock, second)
  {
    var f := TIMER_FREQ as real;
    var gap := (second - first) as real;
    assert gap >= ReadCycles(clock) as real > clock / f;
    Scale(gap, clock, f);
    var a, b := first as real * f / clock, second as real * f / clock;
    assert b - a == gap * f / clock by { Distribute(first as real, second as real, f, clock); }
    assert b > a + 1.0;
  }

  /** That is the fewest whole cycles that last longer than a tick. */
  lemma FewestCycles(clock: real, n: int)
    requires clock > 0.0
    ensures n as real * TIMER_FREQ as real > clock <==> n >= ReadCycles(clock)
  {
    var f := TIMER_FREQ as real;
    var q := clock / f;
    assert q * f == clock;
    assert n as real > q <==> n >= ReadCycles(clock);
    if n as real > q { MulStrict(n as real, q, f); } else if n as real < q { MulStrict(q, n as real, f); }
  }

  lemma Scale(gap: real, clock: real, f: real)
    requires clock > 0.0 && f > 0.0 && gap > clock / f
    ensures gap * f / clock > 1.0
  {
    assert gap * f > clock by { MulStrict(gap, clock / f, f); assert clock / f * f == clock; }
    DivStrict(gap * f, clock);
  }

  lemma MulStrict(a: real, b: real, f: real)
    requires a > b && f > 0.0
    ensures a * f > b * f
  {
  }

  lemma DivStrict(x: real, clock: real)
    requires x > clock > 0.0
    ensures x / clock > 1.0
  {
  }

  lemma Distribute(a: real, b: real, f: real, clock: real)
    requires clock > 0.0
    ensures b * f / clock - a * f / clock == (b - a) * f / clock
  {
  }

  /** So two reads return different values unless the ticks between them are a
      whole number of counter periods: with fewer than 2^24 (2^32) of them,
      always. */
  lemma ReadsDiffer(clock: real, half: int, first: int, second: int)
    requires IsHalf(half) && clock > 0.0 && first + ReadCycles(clock) <= second
    ensures var a, b, period := Ticks(clock, first), Ticks(clock, second), 2 * half;
            && (a % period == b % period <==> (b - a) % period == 0)
            && (b - a < period ==> a % period != b % period)
  {
    ReadsAdvance(clock, first, second);
    var a, b := Ticks(clock, first), Ticks(clock, second);
    if half == 0x80_0000 { SameRemainder(a, b, 0x100_0000); } else { SameRemainder(a, b, 0x1_0000_0000); }
  }

  lemma SameRemainder(a: int, b: int, period: int)
    requires period == 0x100_0000 || period == 0x1_0000_0000
    ensures a % period == b % period <==> (b - a) % period == 0
    ensures 0 < b - a < period ==> (b - a) % period != 0
  {
    if period == 0x100_0000 { } else { }
  }
}
