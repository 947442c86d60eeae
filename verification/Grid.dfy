/** Turning a road path into ~1 km grid cells: conflict-service/service.go, lines 194-291. */
module Grid {
  import opened Rounding
  import opened Collections

  const GRID_RESOLUTION: real := 0.01

  datatype Point = Point(lat: real, lng: real)

  datatype Cell = Cell(lat: real, lng: real)

  function GridIndex(v: real): int {
    RoundHalfAway(v / GRID_RESOLUTION)
  }

  function RoundGrid(v: real): real {
    GridIndex(v) as real * GRID_RESOLUTION
  }

  /** Number of steps in which the line from a to b is walked. */
  function StepCount(a: Point, b: Point): (n: int)
    ensures n >= 1
  {
    var n := Ceil(Max(Abs(b.lat - a.lat) / GRID_RESOLUTION, Abs(b.lng - a.lng) / GRID_RESOLUTION));
    if n == 0 then 1 else n
  }

  /** The coordinate reached after i of n equal steps from o to d. */
  function Along(o: real, d: real, n: int, i: int): real
    requires n >= 1
  {
    o + (i as real / n as real) * (d - o)
  }

  function CellOf(p: Point): Cell {
    Cell(RoundGrid(p.lat), RoundGrid(p.lng))
  }

  function PointAt(a: Point, b: Point, i: int): Point {
    var n := StepCount(a, b);
    Point(Along(a.lat, b.lat, n, i), Along(a.lng, b.lng, n, i))
  }

  /** The cell sampled at every step, repeats included. */
  function Samples(a: Point, b: Point): (s: seq<Cell>)
  {
    seq(StepCount(a, b) + 1, i => CellOf(PointAt(a, b, i)))
  }

  function PathCells(a: Point, b: Point): seq<Cell> {
    FirstOccurrences(Samples(a, b))
  }

  /** The samples of every leg of a polyline, each leg de-duplicated, one after another. */
  function LegCells(waypoints: seq<Point>): seq<Cell> {
    if |waypoints| < 2 then []
    else LegCells(waypoints[..|waypoints| - 1])
         + PathCells(waypoints[|waypoints| - 2], waypoints[|waypoints| - 1])
  }

  function WaypointCells(waypoints: seq<Point>): seq<Cell> {
    FirstOccurrences(LegCells(waypoints))
  }

  /** One more value offered to the seen-table. */
  lemma OfferOne<T>(s: seq<T>, x: T)
    ensures FirstOccurrences(s + [x])
         == if x in FirstOccurrences(s) then FirstOccurrences(s) else FirstOccurrences(s) + [x]
  {
    FirstOccurrencesKeepsValues(s);
    assert (s + [x])[..|s|] == s;
  }

  lemma SampleAt(a: Point, b: Point, i: nat)
    requires i <= StepCount(a, b)
    ensures Samples(a, b)[..i + 1] == Samples(a, b)[..i] + [CellOf(PointAt(a, b, i))]
  {}

  method PathGridCells(origin: Point, dest: Point) returns (cells: seq<Cell>)
    ensures cells == PathCells(origin, dest)
  {
    var stepsLat := Abs(dest.lat - origin.lat) / GRID_RESOLUTION;
    var stepsLng := Abs(dest.lng - origin.lng) / GRID_RESOLUTION;
    var steps := Ceil(Max(stepsLat, stepsLng));
    if steps == 0 {
      steps := 1;
    }
    cells := WalkSamples(origin, dest, steps);
  }

  method WalkSamples(origin: Point, dest: Point, steps: int) returns (cells: seq<Cell>)
    requires steps == StepCount(origin, dest)
    ensures cells == PathCells(origin, dest)
  {
    ghost var samples := Samples(origin, dest);
    var seen: set<Cell> := {};
    cells := [];
    for i := 0 to steps + 1
      invariant cells == FirstOccurrences(samples[..i])
      invariant forall c :: c in seen <==> c in cells
    {
      var cell := Cell(RoundGrid(Along(origin.lat, dest.lat, steps, i)),
                       RoundGrid(Along(origin.lng, dest.lng, steps, i)));
      SampleAt(origin, dest, i);
      OfferOne(samples[..i], cell);
      if cell !in seen {
        seen := seen + {cell};
        cells := cells + [cell];
      }
    }
    assert samples[..steps + 1] == samples;
  }

  method PathGridCellsFromWaypoints(waypoints: seq<Point>) returns (cells: seq<Cell>)
    ensures cells == WaypointCells(waypoints)
  {
    var seen: set<Cell> := {};
    cells := [];
    var i := 0;
    while i < |waypoints| - 1
      invariant 0 <= i && (i == 0 || i < |waypoints|)
      invariant i < |waypoints| ==> cells == FirstOccurrences(LegCells(waypoints[..i + 1]))
      invariant waypoints == [] ==> cells == []
      invariant forall c :: c in seen <==> c in cells
    {
      assert waypoints[..i + 2][..i + 1] == waypoints[..i + 1];
      var segment := PathGridCells(waypoints[i], waypoints[i + 1]);
      seen, cells := OfferAll(seen, cells, segment, LegCells(waypoints[..i + 1]));
      i := i + 1;
    }
    assert waypoints != [] ==> waypoints[..|waypoints|] == waypoints;
  }

  /** The inner loop: each cell of one segment is offered to the table shared by all segments. */
  method OfferAll(seen0: set<Cell>, cells0: seq<Cell>, segment: seq<Cell>, ghost before: seq<Cell>)
    returns (seen: set<Cell>, cells: seq<Cell>)
    requires cells0 == FirstOccurrences(before)
    requires forall c :: c in seen0 <==> c in cells0
    ensures cells == FirstOccurrences(before + segment)
    ensures forall c :: c in seen <==> c in cells
  {
    seen, cells := seen0, cells0;
    assert before + segment[..0] == before;
    for j := 0 to |segment|
      invariant cells == FirstOccurrences(before + segment[..j])
      invariant forall c :: c in seen <==> c in cells
    {
      assert before + segment[..j + 1] == (before + segment[..j]) + [segment[j]];
      OfferOne(before + segment[..j], segment[j]);
      if segment[j] !in seen {
        seen := seen + {segment[j]};
        cells := cells + [segment[j]];
      }
    }
    assert before + segment[..|segment|] == before + segment;
  }
}
