/** Exactly when the walk meets every cell that the straight line crosses. */
module PathCover {
  import opened Rounding
  import opened Collections
  import opened Grid
  import opened PathShape

  // ---- one step in one axis, in units of a cell ------------------------------------------

  /** The point a share u of the way from x to y. */
  function Mix(x: real, y: real, u: real): real {
    x + u * (y - x)
  }

  predicate Between(x: real, m: real, y: real) {
    (x <= m <= y) || (y <= m <= x)
  }

  lemma ProductSign(p: real, q: real)
    requires p >= 0.0
    ensures q >= 0.0 ==> p * q >= 0.0
    ensures q <= 0.0 ==> p * q <= 0.0
  {}

  lemma MixBetween(x: real, y: real, u: real)
    requires 0.0 <= u <= 1.0
    ensures Between(x, Mix(x, y, u), y)
  {
    var w, d := 1.0 - u, y - x;
    assert u * d == d - w * d;
    ProductSign(u, d);
    ProductSign(w, d);
  }

  /** The boundary between two adjacent rows. */
  function Boundary(x: real, y: real): real {
    (RoundHalfAway(x) + RoundHalfAway(y)) as real / 2.0
  }

  /** The share of the step at which the boundary is met. */
  function Entry(x: real, y: real): real
    requires x != y
  {
    (Boundary(x, y) - x) / (y - x)
  }

  /** Whether the boundary point itself already counts as the new row. */
  predicate BoundaryIsNew(x: real, y: real) {
    RoundHalfAway(Boundary(x, y)) == RoundHalfAway(y)
  }

  predicate Adjoining(x: real, y: real) {
    RoundHalfAway(y) == RoundHalfAway(x) + 1 || RoundHalfAway(y) == RoundHalfAway(x) - 1
  }

  /** Between adjoining rows the row is the old one up to the boundary, then the new one. */
  lemma RowOnStep(x: real, y: real, m: real)
    requires Adjoining(x, y) && Between(x, m, y)
    ensures RoundHalfAway(m) == RoundHalfAway(x) || RoundHalfAway(m) == RoundHalfAway(y)
    ensures x < y ==> (RoundHalfAway(m) == RoundHalfAway(y)
                       <==> m > Boundary(x, y) || (m == Boundary(x, y) && BoundaryIsNew(x, y)))
    ensures y < x ==> (RoundHalfAway(m) == RoundHalfAway(y)
                       <==> m < Boundary(x, y) || (m == Boundary(x, y) && BoundaryIsNew(x, y)))
  {
    RoundIsNearest(m);
    if x <= y {
      RoundMonotone(x, m);
      RoundMonotone(m, y);
    }
    if y <= x {
      RoundMonotone(y, m);
      RoundMonotone(m, x);
    }
  }

  lemma MixOrder(x: real, y: real, u: real, b: real)
    requires x != y
    ensures var e := (b - x) / (y - x);
            && (x < y ==> (u > e <==> Mix(x, y, u) > b) && (u == e <==> Mix(x, y, u) == b))
            && (y < x ==> (u > e <==> Mix(x, y, u) < b) && (u == e <==> Mix(x, y, u) == b))
  {
    var d, e := y - x, (b - x) / (y - x);
    assert e * d == b - x;
    assert Mix(x, y, u) - b == (u - e) * d;
    if u > e {
      assert if d > 0.0 then (u - e) * d > 0.0 else (u - e) * d < 0.0;
    } else if u < e {
      assert if d > 0.0 then (u - e) * d < 0.0 else (u - e) * d > 0.0;
    }
  }

  predicate After(u: real, entry: real, boundaryIsNew: bool) {
    u > entry || (u == entry && boundaryIsNew)
  }

  lemma NewRowAfterEntry(x: real, y: real, u: real)
    requires Adjoining(x, y) && 0.0 <= u <= 1.0
    ensures x != y
    ensures RoundHalfAway(Mix(x, y, u)) == RoundHalfAway(x) || RoundHalfAway(Mix(x, y, u)) == RoundHalfAway(y)
    ensures RoundHalfAway(Mix(x, y, u)) == RoundHalfAway(y) <==> After(u, Entry(x, y), BoundaryIsNew(x, y))
  {
    assert x != y;
    MixBetween(x, y, u);
    RowOnStep(x, y, Mix(x, y, u));
    MixOrder(x, y, u, Boundary(x, y));
  }

  lemma EntryInStep(x: real, y: real)
    requires Adjoining(x, y)
    ensures x != y && 0.0 <= Entry(x, y) <= 1.0
  {
    assert x != y;
    RoundIsNearest(x);
    RoundIsNearest(y);
    var d, b := y - x, Boundary(x, y);
    assert Between(x, b, y);
    DivideBetween(b - x, d);
  }

  lemma DivideBetween(p: real, d: real)
    requires d != 0.0 && (0.0 <= p <= d || d <= p <= 0.0)
    ensures 0.0 <= p / d <= 1.0
  {
    if d > 0.0 {
      DivideInUnit(p, d);
    } else {
      DivideInUnit(-p, -d);
      assert (-p) / (-d) == p / d;
    }
  }

  lemma ProductPositive(x: real, d: real)
    requires d > 0.0
    ensures x > 0.0 ==> x * d > 0.0
    ensures x < 0.0 ==> x * d < 0.0
  {}

  lemma DivideInUnit(p: real, d: real)
    requires 0.0 <= p <= d && d > 0.0
    ensures 0.0 <= p / d <= 1.0
  {
    var q := p / d;
    assert q * d == p && (q - 1.0) * d == p - d;
    ProductPositive(q, d);
    ProductPositive(q - 1.0, d);
  }

  lemma SameRowOnStep(x: real, y: real, u: real)
    requires RoundHalfAway(x) == RoundHalfAway(y) && 0.0 <= u <= 1.0
    ensures RoundHalfAway(Mix(x, y, u)) == RoundHalfAway(x)
  {
    MixBetween(x, y, u);
    var m := Mix(x, y, u);
    if x <= y {
      RoundMonotone(x, m);
      RoundMonotone(m, y);
    } else {
      RoundMonotone(y, m);
      RoundMonotone(m, x);
    }
  }

  // ---- one step in both axes ----------------------------------------------------------------

  /** The line stays in the two sampled cells: at most one row and one column further, and if
      both change, they change at the same point and on the same side of it. */
  predicate StepClean(x: real, y: real, v: real, w: real) {
    var sameRow, sameColumn := RoundHalfAway(x) == RoundHalfAway(y), RoundHalfAway(v) == RoundHalfAway(w);
    && (sameRow || Adjoining(x, y)) && (sameColumn || Adjoining(v, w))
    && (sameRow || sameColumn ||
        (x != y && v != w && Entry(x, y) == Entry(v, w) && BoundaryIsNew(x, y) == BoundaryIsNew(v, w)))
  }

  predicate OnSampledCell(x: real, y: real, v: real, w: real, u: real) {
    var row, column := RoundHalfAway(Mix(x, y, u)), RoundHalfAway(Mix(v, w, u));
    || (row == RoundHalfAway(x) && column == RoundHalfAway(v))
    || (row == RoundHalfAway(y) && column == RoundHalfAway(w))
  }

  lemma CleanStepStays(x: real, y: real, v: real, w: real, u: real)
    requires StepClean(x, y, v, w) && 0.0 <= u <= 1.0
    ensures OnSampledCell(x, y, v, w, u)
  {
    if RoundHalfAway(x) == RoundHalfAway(y) {
      SameRowOnStep(x, y, u);
      if RoundHalfAway(v) == RoundHalfAway(w) { SameRowOnStep(v, w, u); } else { NewRowAfterEntry(v, w, u); }
    } else {
      NewRowAfterEntry(x, y, u);
      if RoundHalfAway(v) == RoundHalfAway(w) { SameRowOnStep(v, w, u); } else { NewRowAfterEntry(v, w, u); }
    }
  }

  /** A step of one cell that rounds two rows apart starts and ends half a cell from zero. */
  lemma SkippedRow(x: real, y: real)
    requires -1.0 <= y - x <= 1.0
    requires RoundHalfAway(x) != RoundHalfAway(y) && !Adjoining(x, y)
    ensures (x == -0.5 && y == 0.5) || (x == 0.5 && y == -0.5)
  {
    if x <= y {
      RoundWithinOneUnit(x, y);
      RoundMonotone(x, y);
    } else {
      RoundWithinOneUnit(y, x);
      RoundMonotone(y, x);
    }
  }

  lemma UncleanStepLeaves(x: real, y: real, v: real, w: real) returns (u: real)
    requires !StepClean(x, y, v, w) && -1.0 <= y - x <= 1.0 && -1.0 <= w - v <= 1.0
    ensures 0.0 <= u <= 1.0 && !OnSampledCell(x, y, v, w, u)
  {
    if RoundHalfAway(x) != RoundHalfAway(y) && !Adjoining(x, y) {
      SkippedRow(x, y);
      u := 0.5;
      assert Mix(x, y, u) == 0.0;
    } else if RoundHalfAway(v) != RoundHalfAway(w) && !Adjoining(v, w) {
      SkippedRow(v, w);
      u := 0.5;
      assert Mix(v, w, u) == 0.0;
    } else {
      EntryInStep(x, y);
      EntryInStep(v, w);
      u := (Entry(x, y) + Entry(v, w)) / 2.0;
      NewRowAfterEntry(x, y, u);
      NewRowAfterEntry(v, w, u);
    }
  }

  // ---- the whole line ---------------------------------------------------------------------

  /** Position on the line after t steps, t any share of the way. */
  function Travelled(o: real, d: real, n: int, t: real): real
    requires n >= 1
  {
    o + (t / n as real) * (d - o)
  }

  function CellAfter(a: Point, b: Point, t: real): Cell {
    var n := StepCount(a, b);
    CellOf(Point(Travelled(a.lat, b.lat, n, t), Travelled(a.lng, b.lng, n, t)))
  }

  /** Every cell that the straight line from a to b crosses is in the list. */
  ghost predicate Covered(a: Point, b: Point) {
    forall t: real :: 0.0 <= t <= StepCount(a, b) as real ==> CellAfter(a, b, t) in PathCells(a, b)
  }

  /** Step i, measured in cells. */
  predicate CleanAt(a: Point, b: Point, i: int) {
    var p, q := PointAt(a, b, i), PointAt(a, b, i + 1);
    StepClean(p.lat / GRID_RESOLUTION, q.lat / GRID_RESOLUTION, p.lng / GRID_RESOLUTION, q.lng / GRID_RESOLUTION)
  }

  lemma ShareOrdered(s: real, t: real, n: int, delta: real)
    requires s <= t && n >= 1
    ensures delta >= 0.0 ==> (s / n as real) * delta <= (t / n as real) * delta
    ensures delta <= 0.0 ==> (s / n as real) * delta >= (t / n as real) * delta
  {
    var p, q := s / n as real, t / n as real;
    assert q - p >= 0.0;
    assert q * delta - p * delta == (q - p) * delta;
    ProductSign(q - p, delta);
  }

  lemma TravelledOrdered(o: real, d: real, n: int, s: real, t: real)
    requires n >= 1 && s <= t
    ensures o <= d ==> Travelled(o, d, n, s) <= Travelled(o, d, n, t)
    ensures d <= o ==> Travelled(o, d, n, t) <= Travelled(o, d, n, s)
  {
    ShareOrdered(s, t, n, d - o);
  }

  lemma CellsOnward(a: Point, b: Point, s: real, t: real)
    requires s <= t
    ensures Onward(a, b, CellAfter(a, b, s), CellAfter(a, b, t))
  {
    var n := StepCount(a, b);
    var p := Point(Travelled(a.lat, b.lat, n, s), Travelled(a.lng, b.lng, n, s));
    var q := Point(Travelled(a.lat, b.lat, n, t), Travelled(a.lng, b.lng, n, t));
    TravelledOrdered(a.lat, b.lat, n, s, t);
    TravelledOrdered(a.lng, b.lng, n, s, t);
    hide Travelled;
    if a.lat <= b.lat { RoundGridMonotone(p.lat, q.lat); }
    if a.lat >= b.lat { RoundGridMonotone(q.lat, p.lat); }
    if a.lng <= b.lng { RoundGridMonotone(p.lng, q.lng); }
    if a.lng >= b.lng { RoundGridMonotone(q.lng, p.lng); }
  }

  lemma SampleIsCellAfter(a: Point, b: Point, i: nat)
    requires i <= StepCount(a, b)
    ensures Samples(a, b)[i] == CellAfter(a, b, i as real)
  {
    TravelledIsAlong(a.lat, b.lat, StepCount(a, b), i);
    TravelledIsAlong(a.lng, b.lng, StepCount(a, b), i);
    hide Along;
    hide Travelled;
    hide CellOf;
  }

  lemma TravelledIsAlong(o: real, d: real, n: int, i: int)
    requires n >= 1
    ensures Travelled(o, d, n, i as real) == Along(o, d, n, i)
  {}

  /** A crossed cell that is listed at all is one of the two samples around it. */
  lemma ListedIsSampled(a: Point, b: Point, i: nat, t: real)
    requires i < StepCount(a, b) && i as real <= t <= (i + 1) as real
    ensures CellAfter(a, b, t) in PathCells(a, b)
       <==> CellAfter(a, b, t) == Samples(a, b)[i] || CellAfter(a, b, t) == Samples(a, b)[i + 1]
  {
    var s, c := Samples(a, b), CellAfter(a, b, t);
    FirstOccurrencesKeepsValues(s);
    SampleIsCellAfter(a, b, i);
    SampleIsCellAfter(a, b, i + 1);
    CellsOnward(a, b, i as real, t);
    CellsOnward(a, b, t, (i + 1) as real);
    if c in PathCells(a, b) {
      var j :| 0 <= j < |s| && s[j] == c;
      if j <= i {
        SamplesOnward(a, b, j, i);
      } else {
        SamplesOnward(a, b, i + 1, j);
      }
    }
  }

  lemma TravelledInStep(o: real, d: real, n: int, i: int, u: real)
    requires n >= 1
    ensures Travelled(o, d, n, i as real + u) / GRID_RESOLUTION
         == Mix(Along(o, d, n, i) / GRID_RESOLUTION, Along(o, d, n, i + 1) / GRID_RESOLUTION, u)
  {
    var x, delta := n as real, d - o;
    var p := Along(o, d, n, i);
    AlongStep(o, d, n, i);
    assert ((i as real + u) / x) * delta == (i as real / x) * delta + u * (delta / x);
    assert Travelled(o, d, n, i as real + u) == p + u * (Along(o, d, n, i + 1) - p);
    ScaledMix(p, Along(o, d, n, i + 1), u);
  }

  lemma ScaledMix(p: real, q: real, u: real)
    ensures (p + u * (q - p)) / GRID_RESOLUTION == Mix(p / GRID_RESOLUTION, q / GRID_RESOLUTION, u)
  {
    var x, y := p / GRID_RESOLUTION, q / GRID_RESOLUTION;
    assert q - p == (y - x) * GRID_RESOLUTION;
    assert u * (q - p) == (u * (y - x)) * GRID_RESOLUTION;
  }

  lemma SameCell(v: real, w: real)
    ensures RoundGrid(v) == RoundGrid(w) <==> RoundHalfAway(v / GRID_RESOLUTION) == RoundHalfAway(w / GRID_RESOLUTION)
  {}

  lemma ShareOfStep(a: Point, b: Point, i: nat, u: real)
    requires i < StepCount(a, b)
    ensures var p, q := PointAt(a, b, i), PointAt(a, b, i + 1);
            (CellAfter(a, b, i as real + u) == Samples(a, b)[i]
             || CellAfter(a, b, i as real + u) == Samples(a, b)[i + 1])
            <==> OnSampledCell(p.lat / GRID_RESOLUTION, q.lat / GRID_RESOLUTION,
                               p.lng / GRID_RESOLUTION, q.lng / GRID_RESOLUTION, u)
  {
    var n, p, q := StepCount(a, b), PointAt(a, b, i), PointAt(a, b, i + 1);
    var lat, lng := Travelled(a.lat, b.lat, n, i as real + u), Travelled(a.lng, b.lng, n, i as real + u);
    TravelledInStep(a.lat, b.lat, n, i, u);
    TravelledInStep(a.lng, b.lng, n, i, u);
    hide RoundHalfAway;
    hide Travelled;
    hide Along;
    SameCell(lat, p.lat);
    SameCell(lat, q.lat);
    SameCell(lng, p.lng);
    SameCell(lng, q.lng);
  }

  lemma StepShort(o: real, d: real, n: int, i: int)
    requires n >= 1 && Abs(d - o) / n as real <= GRID_RESOLUTION
    ensures -1.0 <= Along(o, d, n, i + 1) / GRID_RESOLUTION - Along(o, d, n, i) / GRID_RESOLUTION <= 1.0
  {
    AlongStep(o, d, n, i);
    assert (d - o) / n as real <= GRID_RESOLUTION && -GRID_RESOLUTION <= (d - o) / n as real by {
      AbsQuotient(d - o, n);
    }
  }

  lemma AbsQuotient(x: real, n: int)
    requires n >= 1
    ensures -(Abs(x) / n as real) <= x / n as real <= Abs(x) / n as real
  {
    if x < 0.0 {
      assert (-x) / n as real == -(x / n as real);
    }
    assert Abs(x) / n as real >= 0.0;
  }

  lemma UncleanIsUncovered(a: Point, b: Point, i: nat)
    requires i < StepCount(a, b) && !CleanAt(a, b, i)
    ensures !Covered(a, b)
  {
    var n, p, q := StepCount(a, b), PointAt(a, b, i), PointAt(a, b, i + 1);
    StepAtMostOneCell(a, b);
    StepShort(a.lat, b.lat, n, i);
    StepShort(a.lng, b.lng, n, i);
    var u := UncleanStepLeaves(p.lat / GRID_RESOLUTION, q.lat / GRID_RESOLUTION,
                               p.lng / GRID_RESOLUTION, q.lng / GRID_RESOLUTION);
    var t := i as real + u;
    ShareOfStep(a, b, i, u);
    ListedIsSampled(a, b, i, t);
    assert CellAfter(a, b, t) !in PathCells(a, b);
  }

  lemma CleanIsCovered(a: Point, b: Point, t: real)
    requires forall i :: 0 <= i < StepCount(a, b) ==> CleanAt(a, b, i)
    requires 0.0 <= t <= StepCount(a, b) as real
    ensures CellAfter(a, b, t) in PathCells(a, b)
  {
    var n := StepCount(a, b);
    var i := if t == n as real then n - 1 else t.Floor;
    var p, q, u := PointAt(a, b, i), PointAt(a, b, i + 1), t - i as real;
    assert CleanAt(a, b, i);
    CleanStepStays(p.lat / GRID_RESOLUTION, q.lat / GRID_RESOLUTION,
                   p.lng / GRID_RESOLUTION, q.lng / GRID_RESOLUTION, u);
    ShareOfStep(a, b, i, u);
    ListedIsSampled(a, b, i, t);
  }

  /** The list holds every cell the straight line crosses if and only if no step leaves the
      two cells sampled at its ends: no step over a whole row or column, and no step that
      enters the new row and the new column at different points. */
  lemma CoveredIff(a: Point, b: Point)
    ensures Covered(a, b) <==> forall i :: 0 <= i < StepCount(a, b) ==> CleanAt(a, b, i)
  {
    if forall i :: 0 <= i < StepCount(a, b) ==> CleanAt(a, b, i) {
      forall t: real | 0.0 <= t <= StepCount(a, b) as real ensures CellAfter(a, b, t) in PathCells(a, b) {
        CleanIsCovered(a, b, t);
      }
    } else {
      var i: nat :| i < StepCount(a, b) && !CleanAt(a, b, i);
      UncleanIsUncovered(a, b, i);
    }
  }

  lemma StaysInRow(a: Point, b: Point, i: nat)
    requires RoundGrid(a.lat) == RoundGrid(b.lat) && i <= StepCount(a, b)
    ensures RoundHalfAway(PointAt(a, b, i).lat / GRID_RESOLUTION) == RoundHalfAway(a.lat / GRID_RESOLUTION)
  {
    var n := StepCount(a, b);
    AlongEnds(a.lat, b.lat, n);
    AlongOrdered(a.lat, b.lat, n, 0, i);
    AlongOrdered(a.lat, b.lat, n, i, n);
    var m := Along(a.lat, b.lat, n, i);
    SameCell(a.lat, b.lat);
    hide Along;
    if a.lat <= b.lat {
      RoundMonotone(a.lat / GRID_RESOLUTION, m / GRID_RESOLUTION);
      RoundMonotone(m / GRID_RESOLUTION, b.lat / GRID_RESOLUTION);
    } else {
      RoundMonotone(b.lat / GRID_RESOLUTION, m / GRID_RESOLUTION);
      RoundMonotone(m / GRID_RESOLUTION, a.lat / GRID_RESOLUTION);
    }
  }

  lemma CloseIsAdjoining(o: real, d: real, n: int, i: int)
    requires n >= 1
    ensures CloseAt(o, d, n, i)
       <==> (var x, y := Along(o, d, n, i) / GRID_RESOLUTION, Along(o, d, n, i + 1) / GRID_RESOLUTION;
             RoundHalfAway(x) == RoundHalfAway(y) || Adjoining(x, y))
  {}

  /** Along one row the list misses nothing, unless the walk goes in whole cells across zero. */
  lemma SameRowCoveredIff(a: Point, b: Point)
    requires RoundGrid(a.lat) == RoundGrid(b.lat)
    ensures Covered(a, b) <==> !SkipsZero(a.lng, b.lng, StepCount(a, b))
  {
    var n := StepCount(a, b);
    CoveredIff(a, b);
    StepAtMostOneCell(a, b);
    AxisEither(a.lng, b.lng, n);
    forall i | 0 <= i < n ensures CleanAt(a, b, i) <==> CloseAt(a.lng, b.lng, n, i) {
      StaysInRow(a, b, i);
      StaysInRow(a, b, i + 1);
      CloseIsAdjoining(a.lng, b.lng, n, i);
    }
  }

  /** A diagonal step cuts a corner: the line from (0, 0.004) to (0.01, 0.014) crosses the cell
      (0, 0.01), which the list [(0, 0), (0.01, 0.01)] does not hold. */
  lemma CornerIsCut()
    ensures !Covered(Point(0.0, 0.004), Point(0.01, 0.014))
    ensures PathCells(Point(0.0, 0.004), Point(0.01, 0.014)) == [Cell(0.0, 0.0), Cell(0.01, 0.01)]
  {
    var a, b := Point(0.0, 0.004), Point(0.01, 0.014);
    assert StepCount(a, b) == 1;
    assert PointAt(a, b, 0) == a && PointAt(a, b, 1) == b;
    assert Samples(a, b) == [Cell(0.0, 0.0), Cell(0.01, 0.01)];
    assert Samples(a, b)[..1] == [Cell(0.0, 0.0)];
    PathIsCompressedWalk(a, b);
    UncleanIsUncovered(a, b, 0);
  }
}
