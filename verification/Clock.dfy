/** Times are whole nanoseconds since the epoch, in UTC: conflict-service/service.go,
    lines 293-305 and 393-400. */
module Clock {
  import opened Rounding

  const MINUTE: int := 60_000_000_000
  const SLOT: int := 30 * MINUTE
  const JOURNEY_BUFFER: int := 5 * MINUTE

  /** The minute of the hour shown by the clock. */
  function MinuteOf(t: int): int {
    (t / MINUTE) % 60
  }

  function HourStart(t: int): int {
    t - t % (60 * MINUTE)
  }

  function SlotStart(t: int): int {
    HourStart(t) + (MinuteOf(t) / 30) * 30 * MINUTE
  }

  /** Time at which cell i of n is reached. */
  function CellTime(departure: int, arrival: int, i: int, n: int): int {
    if n <= 1 then departure
    else departure + Truncate(Elapsed(arrival - departure, i, n - 1))
  }

  /** The same in whole numbers: t - departure is i of n - 1 equal parts of the drive, less a
      fraction of a nanosecond; where arrival precedes departure, the mirror image. */
  predicate ReachedAt(departure: int, arrival: int, i: int, n: int, t: int) {
    if n <= 1 then t == departure
    else if departure <= arrival then
      (t - departure) * (n - 1) <= i * (arrival - departure) < (t - departure + 1) * (n - 1)
    else
      (departure - t) * (n - 1) <= i * (departure - arrival) < (departure - t + 1) * (n - 1)
  }

  /** The share i/n of a duration. */
  function Elapsed(duration: int, i: int, n: int): real
    requires n >= 1
  {
    duration as real * (i as real / n as real)
  }

  lemma MinuteIsOffset(t: int, h: int, r: int)
    requires t == 60 * MINUTE * h + r && 0 <= r < 60 * MINUTE
    ensures MinuteOf(t) == r / MINUTE && HourStart(t) == 60 * MINUTE * h
  {
    assert t / MINUTE == 60 * h + r / MINUTE;
    assert 0 <= r / MINUTE < 60;
  }

  lemma SlotOfOffset(t: int, h: int, r: int)
    requires t == 60 * MINUTE * h + r && 0 <= r < 60 * MINUTE
    ensures SlotStart(t) == if r < SLOT then SLOT * (2 * h) else SLOT * (2 * h + 1)
  {
    MinuteIsOffset(t, h, r);
    assert (r / MINUTE) / 30 == if r < SLOT then 0 else 1;
  }

  lemma Aligned(start: int, k: int)
    requires k == start / 1_800_000_000_000 || start == SLOT * k
    ensures start % 1_800_000_000_000 == 0 <==> start == SLOT * k
  {}

  lemma OneSlotContains(t: int, k: int, j: int)
    requires SLOT * k <= t < SLOT * k + SLOT && SLOT * j <= t < SLOT * j + SLOT
    ensures k == j
  {}

  /** The slot of t is the one half-hour, aligned to the half-hour, that contains t. */
  lemma SlotContains(t: int, start: int)
    ensures start == SlotStart(t) <==> start % 1_800_000_000_000 == 0 && start <= t < start + 1_800_000_000_000
  {
    hide SlotStart;
    var h, r := t / (60 * MINUTE), t % (60 * MINUTE);
    SlotOfOffset(t, h, r);
    var k := if r < SLOT then 2 * h else 2 * h + 1;
    assert SlotStart(t) == SLOT * k <= t < SLOT * k + SLOT;
    Aligned(SLOT * k, k);
    if start % 1_800_000_000_000 == 0 && start <= t < start + 1_800_000_000_000 {
      Aligned(start, start / SLOT);
      OneSlotContains(t, k, start / SLOT);
    }
  }

  lemma ScaleOrder(x: real, y: real, r: real, xr: real, yr: real)
    requires r > 0.0 && xr == x * r && yr == y * r
    ensures x <= y <==> xr <= yr
  {
    assert yr - xr == (y - x) * r;
  }

  lemma WholeProduct(k: int, m: int)
    ensures (k * m) as real == k as real * m as real
  {}

  lemma FloorBetween(x: real, k: int, p: int, low: int, high: int)
    requires k as real <= x <==> low as real <= p as real
    requires k as real + 1.0 <= x <==> high as real <= p as real
    ensures k == x.Floor <==> low <= p < high
  {}

  /** The integer below a quotient is found by multiplying out. */
  lemma QuotientFloor(x: real, r: real, p: int, k: int, low: int, high: int)
    requires r > 0.0 && x * r == p as real && low as real == k as real * r && high as real == (k as real + 1.0) * r
    ensures k == x.Floor <==> low <= p < high
  {
    ScaleOrder(k as real, x, r, low as real, p as real);
    ScaleOrder(k as real + 1.0, x, r, high as real, p as real);
    FloorBetween(x, k, p, low, high);
  }

  lemma FractionTimes(d: real, i: real, r: real)
    requires r > 0.0
    ensures (d * (i / r)) * r == i * d
    ensures (-d) * (i / r) == -(d * (i / r))
    ensures d >= 0.0 && i >= 0.0 ==> d * (i / r) >= 0.0
  {
    var f := i / r;
    assert f * r == i;
    assert i >= 0.0 ==> f >= 0.0;
    assert (d * f) * r == d * (f * r);
  }

  lemma ElapsedParts(duration: int, i: int, n: int, k: int)
    requires n >= 1 && duration >= 0 && i >= 0
    ensures k == Truncate(Elapsed(duration, i, n)) <==> k * n <= i * duration < (k + 1) * n
    ensures Truncate(Elapsed(-duration, i, n)) == -Truncate(Elapsed(duration, i, n))
  {
    FractionTimes(duration as real, i as real, n as real);
    assert (-duration) as real == -(duration as real);
    var x := Elapsed(duration, i, n);
    hide Elapsed;
    WholeProduct(i, duration);
    WholeProduct(k, n);
    WholeProduct(k + 1, n);
    QuotientFloor(x, n as real, i * duration, k, k * n, (k + 1) * n);
  }

  /** Cell i is reached at exactly the moment that whole numbers give. */
  lemma CellTimeIff(departure: int, arrival: int, i: int, n: int, t: int)
    requires 0 <= i < n
    ensures t == CellTime(departure, arrival, i, n) <==> ReachedAt(departure, arrival, i, n, t)
  {
    hide Elapsed;
    hide Truncate;
    if n >= 2 {
      if departure <= arrival {
        ElapsedParts(arrival - departure, i, n - 1, t - departure);
      } else {
        assert arrival - departure == -(departure - arrival);
        ElapsedParts(departure - arrival, i, n - 1, departure - t);
      }
    }
  }

  lemma CellTimeEnds(departure: int, arrival: int, n: int)
    requires n >= 2
    ensures CellTime(departure, arrival, 0, n) == departure
    ensures CellTime(departure, arrival, n - 1, n) == arrival
  {
    var x := (n - 1) as real;
    assert 0 as real / x == 0.0 && x / x == 1.0;
    assert (arrival - departure) as real * 0.0 == 0.0;
    TruncateOfInt(arrival - departure);
  }

  lemma ScaleOrdered(d: real, f: real, g: real)
    requires 0.0 <= f <= g
    ensures d >= 0.0 ==> 0.0 <= d * f <= d * g
    ensures d <= 0.0 ==> d * g <= d * f <= 0.0
  {
    var rest := g - f;
    assert d * g == d * f + d * rest;
    if d >= 0.0 {
      assert d * f >= 0.0 && d * rest >= 0.0;
    } else {
      assert d * f <= 0.0 && d * rest <= 0.0;
    }
  }

  lemma TruncateOrdered(x: real, y: real)
    requires x <= y
    ensures Truncate(x) <= Truncate(y)
  {}

  lemma FractionOrdered(i: int, j: int, n: int)
    requires 0 <= i <= j && n >= 1
    ensures 0.0 <= i as real / n as real <= j as real / n as real
  {}

  lemma ElapsedOrdered(duration: int, i: int, j: int, n: int)
    requires 0 <= i <= j && n >= 1
    ensures duration >= 0 ==> Elapsed(duration, i, n) <= Elapsed(duration, j, n)
    ensures duration <= 0 ==> Elapsed(duration, j, n) <= Elapsed(duration, i, n)
  {
    FractionOrdered(i, j, n);
    ScaleOrdered(duration as real, i as real / n as real, j as real / n as real);
  }

  /** Later cells are never reached earlier, whichever way the clock runs between the ends. */
  lemma CellTimeOrdered(departure: int, arrival: int, i: int, j: int, n: int)
    requires 0 <= i <= j < n
    ensures departure <= arrival ==> CellTime(departure, arrival, i, n) <= CellTime(departure, arrival, j, n)
    ensures arrival <= departure ==> CellTime(departure, arrival, j, n) <= CellTime(departure, arrival, i, n)
  {
    if n >= 2 {
      hide Elapsed;
      ElapsedOrdered(arrival - departure, i, j, n - 1);
      if departure <= arrival {
        TruncateOrdered(Elapsed(arrival - departure, i, n - 1), Elapsed(arrival - departure, j, n - 1));
      }
      if arrival <= departure {
        TruncateOrdered(Elapsed(arrival - departure, j, n - 1), Elapsed(arrival - departure, i, n - 1));
      }
    }
  }
}
