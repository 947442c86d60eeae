/** What the walked cell list looks like: where it starts and ends, that it never turns
    back, and exactly when it steps over a row or a column. */
module PathShape {
  import opened Rounding
  import opened Collections
  import opened Grid

  lemma RoundGridIdempotent(v: real)
    ensures RoundGrid(RoundGrid(v)) == RoundGrid(v)
  {
    RoundOfInt(GridIndex(v));
    assert RoundGrid(v) / GRID_RESOLUTION == GridIndex(v) as real;
  }

  lemma RoundGridIsNearest(v: real)
    ensures Abs(RoundGrid(v) - v) <= GRID_RESOLUTION / 2.0
  {
    RoundIsNearest(v / GRID_RESOLUTION);
  }

  lemma FractionsOrdered(i: nat, j: nat, n: int, delta: real)
    requires i <= j && n >= 1
    ensures delta >= 0.0 ==> (i as real / n as real) * delta <= (j as real / n as real) * delta
    ensures delta <= 0.0 ==> (i as real / n as real) * delta >= (j as real / n as real) * delta
  {
    assert i as real / n as real <= j as real / n as real;
  }

  lemma AlongOrdered(o: real, d: real, n: int, i: nat, j: nat)
    requires n >= 1 && i <= j
    ensures o <= d ==> Along(o, d, n, i) <= Along(o, d, n, j)
    ensures d <= o ==> Along(o, d, n, j) <= Along(o, d, n, i)
  {
    FractionsOrdered(i, j, n, d - o);
  }

  lemma AlongEnds(o: real, d: real, n: int)
    requires n >= 1
    ensures Along(o, d, n, 0) == o && Along(o, d, n, n) == d
  {
    assert n as real / n as real == 1.0;
  }

  lemma AlongStep(o: real, d: real, n: int, i: int)
    requires n >= 1
    ensures Along(o, d, n, i + 1) - Along(o, d, n, i) == (d - o) / n as real
  {
    var x := n as real;
    assert (i + 1) as real / x == i as real / x + 1.0 / x;
    assert (i as real / x + 1.0 / x) * (d - o) == (i as real / x) * (d - o) + (1.0 / x) * (d - o);
    assert (1.0 / x) * (d - o) == (d - o) / x;
  }

  lemma AlongIs(o: real, d: real, n: int, i: int)
    requires n >= 1
    ensures Along(o, d, n, i) == o + i as real * ((d - o) / n as real)
  {
    var x := n as real;
    assert (i as real / x) * (d - o) == i as real * ((d - o) / x);
  }

  /** No step is longer than one cell in either axis. */
  lemma StepAtMostOneCell(a: Point, b: Point)
    ensures Abs(b.lat - a.lat) / StepCount(a, b) as real <= GRID_RESOLUTION
    ensures Abs(b.lng - a.lng) / StepCount(a, b) as real <= GRID_RESOLUTION
  {
    var n := StepCount(a, b);
    CeilBounds(Max(Abs(b.lat - a.lat) / GRID_RESOLUTION, Abs(b.lng - a.lng) / GRID_RESOLUTION));
    DivideBound(Abs(b.lat - a.lat), n);
    DivideBound(Abs(b.lng - a.lng), n);
  }

  lemma SpanInCells(span: real, n: int)
    ensures span / GRID_RESOLUTION <= n as real <==> span <= n as real * GRID_RESOLUTION
  {}

  /** The walk takes the least number of steps, at least one, that are no longer than a cell. */
  lemma StepCountIsLeast(a: Point, b: Point, n: int)
    ensures n == StepCount(a, b) <==>
      && n >= 1 && Abs(b.lat - a.lat) <= n as real * 0.01 && Abs(b.lng - a.lng) <= n as real * 0.01
      && (n == 1 || Abs(b.lat - a.lat) > (n - 1) as real * 0.01 || Abs(b.lng - a.lng) > (n - 1) as real * 0.01)
  {
    CeilBounds(Max(Abs(b.lat - a.lat) / GRID_RESOLUTION, Abs(b.lng - a.lng) / GRID_RESOLUTION));
    SpanInCells(Abs(b.lat - a.lat), n);
    SpanInCells(Abs(b.lng - a.lng), n);
    SpanInCells(Abs(b.lat - a.lat), n - 1);
    SpanInCells(Abs(b.lng - a.lng), n - 1);
  }

  lemma DivideBound(span: real, n: int)
    requires n >= 1 && span / GRID_RESOLUTION <= n as real
    ensures span / n as real <= GRID_RESOLUTION
  {
    assert span <= n as real * GRID_RESOLUTION;
    assert (n as real * GRID_RESOLUTION) / n as real == GRID_RESOLUTION;
    assert (n as real * GRID_RESOLUTION - span) / n as real >= 0.0;
  }

  lemma RoundGridMonotone(v: real, w: real)
    requires v <= w
    ensures RoundGrid(v) <= RoundGrid(w)
  {
    RoundMonotone(v / GRID_RESOLUTION, w / GRID_RESOLUTION);
  }

  /** From x to y no further away from b, in the direction from a to b. */
  predicate Onward(a: Point, b: Point, x: Cell, y: Cell) {
    && (a.lat <= b.lat ==> x.lat <= y.lat)
    && (a.lat >= b.lat ==> x.lat >= y.lat)
    && (a.lng <= b.lng ==> x.lng <= y.lng)
    && (a.lng >= b.lng ==> x.lng >= y.lng)
  }

  lemma SamplesOnward(a: Point, b: Point, i: nat, j: nat)
    requires i <= j <= StepCount(a, b)
    ensures Onward(a, b, Samples(a, b)[i], Samples(a, b)[j])
  {
    var n := StepCount(a, b);
    AlongOrdered(a.lat, b.lat, n, i, j);
    AlongOrdered(a.lng, b.lng, n, i, j);
    var p, q := PointAt(a, b, i), PointAt(a, b, j);
    if a.lat <= b.lat { RoundGridMonotone(p.lat, q.lat); }
    if a.lat >= b.lat { RoundGridMonotone(q.lat, p.lat); }
    if a.lng <= b.lng { RoundGridMonotone(p.lng, q.lng); }
    if a.lng >= b.lng { RoundGridMonotone(q.lng, p.lng); }
  }

  lemma SamplesContiguous(a: Point, b: Point)
    ensures Contiguous(Samples(a, b))
  {
    var s := Samples(a, b);
    forall i, j, k | 0 <= i < j < k < |s| && s[i] == s[k] ensures s[j] == s[k] {
      SamplesOnward(a, b, i, j);
      SamplesOnward(a, b, j, k);
    }
  }

  /** The seen-table only ever removes a cell equal to the one before it. */
  lemma PathIsCompressedWalk(a: Point, b: Point)
    ensures PathCells(a, b) == Compress(Samples(a, b))
  {
    SamplesContiguous(a, b);
    FirstOccurrencesIsCompress(Samples(a, b));
  }

  lemma PathEnds(a: Point, b: Point)
    ensures PathCells(a, b) != []
    ensures PathCells(a, b)[0] == CellOf(a)
    ensures PathCells(a, b)[|PathCells(a, b)| - 1] == CellOf(b)
    ensures NoRepeats(PathCells(a, b))
  {
    PathIsCompressedWalk(a, b);
    CompressEnds(Samples(a, b));
    FirstOccurrencesKeepsValues(Samples(a, b));
    var n := StepCount(a, b);
    AlongEnds(a.lat, b.lat, n);
    AlongEnds(a.lng, b.lng, n);
  }

  lemma PathOnward(a: Point, b: Point, i: nat, j: nat)
    requires i <= j < |PathCells(a, b)|
    ensures Onward(a, b, PathCells(a, b)[i], PathCells(a, b)[j])
  {
    var related := (x, y) => Onward(a, b, x, y);
    forall k | 0 <= k < |Samples(a, b)| - 1 ensures related(Samples(a, b)[k], Samples(a, b)[k + 1]) {
      SamplesOnward(a, b, k, k + 1);
    }
    PathIsCompressedWalk(a, b);
    CompressStepwise(Samples(a, b), related);
    StepwiseTransitive(PathCells(a, b), related, i, j);
  }

  /** A path from a single point is that point's cell. */
  lemma PathOfOnePoint(a: Point)
    ensures PathCells(a, a) == [CellOf(a)]
  {
    assert StepCount(a, a) == 1;
    assert PointAt(a, a, 0) == a && PointAt(a, a, 1) == a;
    assert Samples(a, a) == [CellOf(a), CellOf(a)];
    PathIsCompressedWalk(a, a);
    assert Samples(a, a)[..1] == [CellOf(a)];
  }

  // ---- stepping over a row or a column -------------------------------------------

  predicate Adjacent(x: Cell, y: Cell) {
    Abs(x.lat - y.lat) <= GRID_RESOLUTION && Abs(x.lng - y.lng) <= GRID_RESOLUTION
  }

  predicate HalfCell(v: real) {
    IsWhole(v / GRID_RESOLUTION - 0.5)
  }

  /** In this axis the walk goes in whole cells from one half-cell boundary across zero:
      it samples -1/2 and +1/2 of a cell, and both round away from zero. */
  predicate SkipsZero(o: real, d: real, n: int) {
    && Abs(d - o) == n as real * GRID_RESOLUTION
    && (o < 0.0 < d || d < 0.0 < o)
    && HalfCell(o)
  }

  lemma WholeInt(x: real, k: int)
    requires x == k as real
    ensures IsWhole(x)
  {}

  lemma MultiplyBack(x: real, n: int, q: real)
    requires n >= 1 && x / n as real == q
    ensures x == n as real * q
  {}

  lemma CrossingIsSkip(o: real, d: real, n: int, i: nat)
    requires 0 <= i < n && o <= d
    requires Along(o, d, n, i) / GRID_RESOLUTION == -0.5
    requires Along(o, d, n, i + 1) / GRID_RESOLUTION == 0.5
    ensures SkipsZero(o, d, n)
  {
    hide Along;
    AlongStep(o, d, n, i);
    MultiplyBack(d - o, n, GRID_RESOLUTION);
    AlongIs(o, d, n, i);
    assert o == (-0.5 - i as real) * GRID_RESOLUTION;
    AlongOrdered(o, d, n, i + 1, n);
    AlongEnds(o, d, n);
    assert d >= 0.5 * GRID_RESOLUTION;
    WholeInt(o / GRID_RESOLUTION - 0.5, -1 - i);
  }

  lemma SkipIsCrossing(o: real, d: real, n: int) returns (i: nat)
    requires n >= 1 && o <= d && SkipsZero(o, d, n)
    ensures i < n
    ensures Along(o, d, n, i) / GRID_RESOLUTION == -0.5
    ensures Along(o, d, n, i + 1) / GRID_RESOLUTION == 0.5
  {
    var m := (o / GRID_RESOLUTION - 0.5).Floor;
    assert o == (m as real + 0.5) * GRID_RESOLUTION;
    assert m <= -1;
    i := -1 - m;
    assert (d - o) / n as real == GRID_RESOLUTION by {
      assert n as real * GRID_RESOLUTION / n as real == GRID_RESOLUTION;
    }
    AlongIs(o, d, n, i);
    AlongStep(o, d, n, i);
    assert d == (m as real + 0.5 + n as real) * GRID_RESOLUTION;
    assert i < n;
  }

  /** One axis, going up: consecutive samples differ by more than one cell
      exactly when they sit on the two sides of zero. */
  lemma AxisStepUp(o: real, d: real, n: int, i: nat)
    requires 0 <= i < n && o <= d && (d - o) / n as real <= GRID_RESOLUTION
    ensures var x, y := Along(o, d, n, i), Along(o, d, n, i + 1);
            (Abs(RoundGrid(x) - RoundGrid(y)) <= GRID_RESOLUTION)
            <==> !(x / GRID_RESOLUTION == -0.5 && y / GRID_RESOLUTION == 0.5)
  {
    var x, y := Along(o, d, n, i), Along(o, d, n, i + 1);
    AlongOrdered(o, d, n, i, i + 1);
    AlongStep(o, d, n, i);
    RoundWithinOneUnit(x / GRID_RESOLUTION, y / GRID_RESOLUTION);
    RoundMonotone(x / GRID_RESOLUTION, y / GRID_RESOLUTION);
  }

  lemma RoundIsOdd(x: real)
    ensures RoundHalfAway(-x) == -RoundHalfAway(x)
  {}

  /** Going down mirrors going up. */
  lemma AlongMirrors(o: real, d: real, n: int, i: int)
    requires n >= 1
    ensures Along(-o, -d, n, i) == -Along(o, d, n, i)
    ensures RoundGrid(-Along(o, d, n, i)) == -RoundGrid(Along(o, d, n, i))
  {
    var f := i as real / n as real;
    assert f * (-d - -o) == -(f * (d - o));
    RoundIsOdd(Along(o, d, n, i) / GRID_RESOLUTION);
    assert (-Along(o, d, n, i)) / GRID_RESOLUTION == -(Along(o, d, n, i) / GRID_RESOLUTION);
  }

  lemma SkipMirrors(o: real, d: real, n: int)
    ensures SkipsZero(-o, -d, n) <==> SkipsZero(o, d, n)
  {
    HalfMirrors(o);
    HalfMirrors(-o);
  }

  lemma HalfMirrors(v: real)
    ensures HalfCell(v) ==> HalfCell(-v)
  {
    if HalfCell(v) {
      var q := v / GRID_RESOLUTION;
      var m := (q - 0.5).Floor;
      assert (-v) / GRID_RESOLUTION == -q;
      WholeInt(-q - 0.5, -m - 1);
    }
  }

  predicate CloseAt(o: real, d: real, n: int, i: int)
    requires n >= 1
  {
    Abs(RoundGrid(Along(o, d, n, i)) - RoundGrid(Along(o, d, n, i + 1))) <= GRID_RESOLUTION
  }

  ghost predicate AxisAdjacent(o: real, d: real, n: int)
    requires n >= 1
  {
    forall i :: 0 <= i < n ==> CloseAt(o, d, n, i)
  }

  lemma AxisUp(o: real, d: real, n: int)
    requires n >= 1 && o <= d && (d - o) / n as real <= GRID_RESOLUTION
    ensures AxisAdjacent(o, d, n) <==> !SkipsZero(o, d, n)
  {
    if SkipsZero(o, d, n) {
      var i := SkipIsCrossing(o, d, n);
      AxisStepUp(o, d, n, i);
      assert !CloseAt(o, d, n, i);
    } else {
      forall i | 0 <= i < n ensures CloseAt(o, d, n, i) {
        AxisStepUp(o, d, n, i);
        if Along(o, d, n, i) / GRID_RESOLUTION == -0.5 && Along(o, d, n, i + 1) / GRID_RESOLUTION == 0.5 {
          CrossingIsSkip(o, d, n, i);
        }
      }
    }
  }

  lemma CloseMirrors(o: real, d: real, n: int, i: int)
    requires n >= 1
    ensures CloseAt(-o, -d, n, i) <==> CloseAt(o, d, n, i)
  {
    AlongMirrors(o, d, n, i);
    AlongMirrors(o, d, n, i + 1);
  }

  lemma MirrorAdjacent(o: real, d: real, n: int, o': real, d': real)
    requires n >= 1 && o' == -o && d' == -d
    ensures AxisAdjacent(o', d', n) <==> AxisAdjacent(o, d, n)
  {
    forall i | 0 <= i < n ensures CloseAt(o', d', n, i) <==> CloseAt(o, d, n, i) {
      CloseMirrors(o, d, n, i);
    }
  }

  lemma AxisEither(o: real, d: real, n: int)
    requires n >= 1 && Abs(d - o) / n as real <= GRID_RESOLUTION
    ensures AxisAdjacent(o, d, n) <==> !SkipsZero(o, d, n)
  {
    if o <= d {
      AxisUp(o, d, n);
    } else {
      assert -d - -o == Abs(d - o);
      AxisUp(-o, -d, n);
      SkipMirrors(o, d, n);
      MirrorAdjacent(o, d, n, -o, -d);
    }
  }

  lemma AdjacentIsClose(a: Point, b: Point, i: nat, n: int, s: seq<Cell>)
    requires n == StepCount(a, b) && s == Samples(a, b) && i < n
    ensures Adjacent(s[i], s[i + 1]) <==> CloseAt(a.lat, b.lat, n, i) && CloseAt(a.lng, b.lng, n, i)
  {
    assert s[i] == CellOf(PointAt(a, b, i)) && s[i + 1] == CellOf(PointAt(a, b, i + 1));
  }

  lemma WalkIsClose(a: Point, b: Point, n: int, s: seq<Cell>)
    requires n == StepCount(a, b) && s == Samples(a, b) && Stepwise(s, Adjacent)
    ensures AxisAdjacent(a.lat, b.lat, n) && AxisAdjacent(a.lng, b.lng, n)
  {
    assert |s| == n + 1;
    forall i | 0 <= i < n ensures CloseAt(a.lat, b.lat, n, i) && CloseAt(a.lng, b.lng, n, i) {
      assert Adjacent(s[i], s[i + 1]);
      AdjacentIsClose(a, b, i, n, s);
    }
  }

  lemma CloseIsWalk(a: Point, b: Point, n: int, s: seq<Cell>)
    requires n == StepCount(a, b) && s == Samples(a, b)
    requires AxisAdjacent(a.lat, b.lat, n) && AxisAdjacent(a.lng, b.lng, n)
    ensures Stepwise(s, Adjacent)
  {
    assert |s| == n + 1;
    forall i | 0 <= i < n ensures Adjacent(s[i], s[i + 1]) {
      assert CloseAt(a.lat, b.lat, n, i) && CloseAt(a.lng, b.lng, n, i);
      AdjacentIsClose(a, b, i, n, s);
    }
  }

  /** Neighbouring cells of a path differ by at most one row and one column exactly when
      neither axis crosses zero in whole cells from a half-cell boundary. */
  lemma PathNeverSkips(a: Point, b: Point)
    ensures Stepwise(PathCells(a, b), Adjacent)
       <==> !SkipsZero(a.lat, b.lat, StepCount(a, b)) && !SkipsZero(a.lng, b.lng, StepCount(a, b))
  {
    var n := StepCount(a, b);
    StepAtMostOneCell(a, b);
    AxisEither(a.lat, b.lat, n);
    AxisEither(a.lng, b.lng, n);
    if Stepwise(Samples(a, b), Adjacent) {
      WalkIsClose(a, b, n, Samples(a, b));
    } else if AxisAdjacent(a.lat, b.lat, n) && AxisAdjacent(a.lng, b.lng, n) {
      CloseIsWalk(a, b, n, Samples(a, b));
    }
    PathIsCompressedWalk(a, b);
    CompressStepwise(Samples(a, b), Adjacent);
  }

  /** Such a path: from half a cell south of zero to half a cell north of it, row 0 is left out. */
  lemma RowZeroIsSkipped()
    ensures var a, b := Point(-0.005, 0.0), Point(0.005, 0.0);
            && PathCells(a, b) == [Cell(-0.01, 0.0), Cell(0.01, 0.0)]
            && SkipsZero(a.lat, b.lat, StepCount(a, b)) && !Stepwise(PathCells(a, b), Adjacent)
  {
    var a, b := Point(-0.005, 0.0), Point(0.005, 0.0);
    assert StepCount(a, b) == 1;
    assert PointAt(a, b, 0) == a && PointAt(a, b, 1) == b;
    assert RoundHalfAway(-0.5) == -1 && RoundHalfAway(0.5) == 1;
    assert CellOf(a) == Cell(-0.01, 0.0) && CellOf(b) == Cell(0.01, 0.0);
    assert Samples(a, b) == [Cell(-0.01, 0.0), Cell(0.01, 0.0)];
    assert Samples(a, b)[..1] == [Cell(-0.01, 0.0)];
    PathIsCompressedWalk(a, b);
    assert !Adjacent(Cell(-0.01, 0.0), Cell(0.01, 0.0));
  }

  // ---- polylines -----------------------------------------------------------------

  ghost predicate OnGrid(cells: seq<Cell>) {
    forall c :: c in cells ==> RoundGrid(c.lat) == c.lat && RoundGrid(c.lng) == c.lng
  }

  lemma PathOnGrid(a: Point, b: Point)
    ensures OnGrid(PathCells(a, b))
  {
    var s := Samples(a, b);
    FirstOccurrencesKeepsValues(s);
    forall c | c in PathCells(a, b) ensures RoundGrid(c.lat) == c.lat && RoundGrid(c.lng) == c.lng {
      var i :| 0 <= i < |s| && s[i] == c;
      RoundGridIdempotent(PointAt(a, b, i).lat);
      RoundGridIdempotent(PointAt(a, b, i).lng);
    }
  }

  lemma {:induction false} LegsOnGrid(waypoints: seq<Point>)
    ensures OnGrid(LegCells(waypoints))
    ensures |waypoints| >= 2 ==> LegCells(waypoints) != []
  {
    if |waypoints| >= 2 {
      var a, b := waypoints[|waypoints| - 2], waypoints[|waypoints| - 1];
      LegsOnGrid(waypoints[..|waypoints| - 1]);
      PathOnGrid(a, b);
      PathEnds(a, b);
    }
  }

  /** A route of two points is their straight line; each further point adds the cells of the last
      leg that are not on the way yet, in the order of that leg. */
  lemma RouteGrowsByLegs(waypoints: seq<Point>, next: Point)
    requires waypoints != []
    ensures var last := waypoints[|waypoints| - 1];
            WaypointCells(waypoints + [next])
            == WaypointCells(waypoints) + Without(PathCells(last, next), WaypointCells(waypoints))
    ensures |waypoints| == 1 ==> WaypointCells(waypoints + [next]) == PathCells(waypoints[0], next)
  {
    var last := waypoints[|waypoints| - 1];
    assert (waypoints + [next])[..|waypoints|] == waypoints;
    assert LegCells(waypoints + [next]) == LegCells(waypoints) + PathCells(last, next);
    PathEnds(last, next);
    FirstOccurrencesAppend(LegCells(waypoints), PathCells(last, next));
    FirstOccurrencesKeepsValues(LegCells(waypoints));
    WithoutSame(PathCells(last, next), LegCells(waypoints), WaypointCells(waypoints));
    WithoutNone(PathCells(last, next));
  }

  /** A route visits each cell of each of its legs, each cell once, and it has at least one. */
  lemma WaypointPath(waypoints: seq<Point>)
    ensures OnGrid(WaypointCells(waypoints)) && NoRepeats(WaypointCells(waypoints))
    ensures forall c :: c in WaypointCells(waypoints) <==> c in LegCells(waypoints)
    ensures |waypoints| >= 2 ==> WaypointCells(waypoints) != []
  {
    LegsOnGrid(waypoints);
    FirstOccurrencesKeepsValues(LegCells(waypoints));
  }
}
