/** Requests that run one after another: every order of them keeps the road counters exact.
    RegionThreads takes the same handlers apart and lets them interleave. */
module RegionLaws {
  import opened Collections
  import opened Trips
  import opened RegionTables

  /** The roads of a path are its consecutive pairs of cities, in order. */
  lemma LegsArePairs(path: seq<City>)
    ensures |Legs(path)| == if |path| < 2 then 0 else |path| - 1
    ensures forall i :: 0 <= i < |path| - 1 ==> Legs(path)[i] == {path[i], path[i + 1]}
    ensures forall e :: e in Legs(path) <==> exists i :: 0 <= i < |path| - 1 && e == {path[i], path[i + 1]}
  {
    var legs := Legs(path);
    forall e | exists i :: 0 <= i < |path| - 1 && e == {path[i], path[i + 1]} ensures e in legs {
      var i :| 0 <= i < |path| - 1 && e == {path[i], path[i + 1]};
      assert legs[i] == e;
    }
  }

  /** A simple path takes no road twice. */
  lemma SimpleLegs(path: seq<City>)
    requires NoRepeats(path)
    ensures NoRepeats(Legs(path))
  {
    var legs := Legs(path);
    forall i, j | 0 <= i < j < |legs| ensures legs[i] != legs[j] {
      assert path[i] in legs[i];
      assert path[i] !in legs[j];
    }
  }

  lemma {:induction false} ReserveCounts(roads: map<Edge, Road>, legs: seq<Edge>, e: Edge)
    requires NoRepeats(legs) && e in roads
    ensures e in Reserve(roads, legs)
    ensures Reserve(roads, legs)[e] == roads[e].(bookings := roads[e].bookings + if e in legs then 1 else 0)
  {
    if legs != [] {
      ReserveCounts(roads, legs[..|legs| - 1], e);
      assert legs == legs[..|legs| - 1] + [legs[|legs| - 1]];
    }
  }

  lemma {:induction false} SameRoads(roads: map<Edge, Road>, legs: seq<Edge>)
    ensures Reserve(roads, legs).Keys == roads.Keys && Release(roads, legs).Keys == roads.Keys
  {
    if legs != [] {
      SameRoads(roads, legs[..|legs| - 1]);
    }
  }

  lemma {:induction false} ReleaseCounts(roads: map<Edge, Road>, legs: seq<Edge>, e: Edge)
    requires NoRepeats(legs) && e in roads && (e in legs ==> roads[e].bookings >= 1)
    ensures e in Release(roads, legs)
    ensures Release(roads, legs)[e] == roads[e].(bookings := roads[e].bookings - if e in legs then 1 else 0)
  {
    if legs != [] {
      ReleaseCounts(roads, legs[..|legs| - 1], e);
      assert legs == legs[..|legs| - 1] + [legs[|legs| - 1]];
    }
  }

  /** Released once, a counter falls by one, but not below zero. */
  lemma {:induction false} ReleaseClamps(roads: map<Edge, Road>, legs: seq<Edge>, e: Edge)
    requires NoRepeats(legs) && e in roads
    ensures e in Release(roads, legs)
    ensures Release(roads, legs)[e].capacity == roads[e].capacity
    ensures Release(roads, legs)[e].bookings
         == if e !in legs then roads[e].bookings else if roads[e].bookings > 1 then roads[e].bookings - 1 else 0
  {
    if legs != [] {
      ReleaseClamps(roads, legs[..|legs| - 1], e);
      assert legs == legs[..|legs| - 1] + [legs[|legs| - 1]];
    }
  }

  /** Every road of the path has delta bookings more, every other road is as before. */
  ghost predicate RoadsWith(before: map<Edge, Road>, after: map<Edge, Road>, path: seq<City>, delta: int) {
    && after.Keys == before.Keys
    && forall e :: e in before ==>
         after[e] == before[e].(bookings := before[e].bookings + if e in Legs(path) then delta else 0)
  }

  lemma ReserveAddsOne(roads: map<Edge, Road>, path: seq<City>)
    requires NoRepeats(path)
    ensures RoadsWith(roads, Reserve(roads, Legs(path)), path, 1)
  {
    SimpleLegs(path);
    SameRoads(roads, Legs(path));
    forall e | e in roads
      ensures Reserve(roads, Legs(path))[e]
           == roads[e].(bookings := roads[e].bookings + if e in Legs(path) then 1 else 0)
    {
      ReserveCounts(roads, Legs(path), e);
    }
  }

  /** The same over pairs of cities: a simple path's own roads gain one booking each. */
  lemma ReservedByPairs(roads: map<Edge, Road>, path: seq<City>)
    requires NoRepeats(path)
    ensures var after := Reserve(roads, Legs(path));
            after.Keys == roads.Keys
            && forall e :: e in roads ==>
                 after[e].capacity == roads[e].capacity
                 && after[e].bookings == roads[e].bookings
                    + if exists i :: 0 <= i < |path| - 1 && e == {path[i], path[i + 1]} then 1 else 0
  {
    LegsArePairs(path);
    ReserveAddsOne(roads, path);
    hide Legs;
    hide Reserve;
  }

  /** And lose one each when it is given back, but not below zero. */
  lemma ReleasedByPairs(roads: map<Edge, Road>, path: seq<City>)
    requires NoRepeats(path)
    ensures var after := Release(roads, Legs(path));
            after.Keys == roads.Keys
            && forall e :: e in roads ==>
                 after[e].capacity == roads[e].capacity
                 && after[e].bookings
                    == if !exists i :: 0 <= i < |path| - 1 && e == {path[i], path[i + 1]} then roads[e].bookings
                       else if roads[e].bookings > 1 then roads[e].bookings - 1 else 0
  {
    LegsArePairs(path);
    SimpleLegs(path);
    SameRoads(roads, Legs(path));
    hide Legs;
    hide Release;
    forall e | e in roads
      ensures Release(roads, Legs(path))[e].capacity == roads[e].capacity
      ensures Release(roads, Legs(path))[e].bookings
           == if e !in Legs(path) then roads[e].bookings
              else if roads[e].bookings > 1 then roads[e].bookings - 1 else 0
    {
      ReleaseClamps(roads, Legs(path), e);
    }
  }

  /** A live booking is counted on every road of its route. */
  lemma ReleaseTakesOne(t: Tables, id: Id)
    requires Exact(t) && id in t.bookings && Live(t.bookings[id])
    ensures RoadsWith(t.roads, Release(t.roads, Legs(t.bookings[id].route)), t.bookings[id].route, -1)
  {
    var legs := Legs(t.bookings[id].route);
    SimpleLegs(t.bookings[id].route);
    SameRoads(t.roads, legs);
    forall e | e in t.roads
      ensures Release(t.roads, legs)[e] == t.roads[e].(bookings := t.roads[e].bookings + if e in legs then -1 else 0)
    {
      if e in legs {
        assert id in Users(t.bookings, e);
      }
      ReleaseCounts(t.roads, legs, e);
    }
  }

  lemma ChangeUsers(bookings: map<Id, Booking>, id: Id, b: Booking, e: Edge)
    ensures |Users(bookings[id := b], e)|
         == |Users(bookings, e)| - (if id in bookings && Uses(bookings[id], e) then 1 else 0)
                                 + (if Uses(b, e) then 1 else 0)
  {
    var using := (x: Booking) => Uses(x, e);
    assert Users(bookings, e) == KeysWhere(bookings, using);
    assert Users(bookings[id := b], e) == KeysWhere(bookings[id := b], using);
    ChangeOneValue(bookings, id, b, using);
  }

  lemma InsertKeepsExact(t: Tables, id: Id, b: Booking)
    requires Exact(t) && id !in t.bookings && Live(b) && NoRepeats(b.route) && HasRoom(t.roads, Legs(b.route))
    ensures Exact(Insert(t, id, b))
  {
    var legs, after := Legs(b.route), Insert(t, id, b);
    SimpleLegs(b.route);
    SameRoads(t.roads, legs);
    forall e | e in after.roads
      ensures after.roads[e].bookings == |Users(after.bookings, e)|
      ensures after.roads[e].bookings <= after.roads[e].capacity
    {
      ReserveCounts(t.roads, legs, e);
      ChangeUsers(t.bookings, id, b, e);
    }
  }

  lemma SetStatusKeepsExact(t: Tables, id: Id, status: Status)
    requires Exact(t) && id in t.bookings && Live(t.bookings[id]) && status != Cancelled
    ensures Exact(SetStatus(t, id, status))
  {
    forall e | e in t.roads ensures t.roads[e].bookings == |Users(SetStatus(t, id, status).bookings, e)| {
      ChangeUsers(t.bookings, id, SetStatus(t, id, status).bookings[id], e);
    }
  }

  lemma DropKeepsExact(t: Tables, id: Id)
    requires Exact(t) && id in t.bookings && Live(t.bookings[id])
    ensures Exact(Drop(t, id))
  {
    var legs, after := Legs(t.bookings[id].route), Drop(t, id);
    SimpleLegs(t.bookings[id].route);
    SameRoads(t.roads, legs);
    forall e | e in after.roads
      ensures after.roads[e].bookings == |Users(after.bookings, e)|
      ensures after.roads[e].bookings <= after.roads[e].capacity
    {
      if e in legs {
        assert id in Users(t.bookings, e);
      }
      ReleaseCounts(t.roads, legs, e);
      ChangeUsers(t.bookings, id, after.bookings[id], e);
    }
  }

  lemma ApplyKeepsExact(cities: set<City>, t: Tables, op: Op)
    requires Exact(t) && Fresh(t, op) && SimplePath(op)
    ensures Exact(Apply(cities, t, op))
  {
    match op
    case Book(id, trip, path) =>
      if Apply(cities, t, op) != t {
        InsertKeepsExact(t, id, Booking(trip, Confirmed, path, 1));
      }
    case Cancel(id) =>
      if id in t.bookings && Live(t.bookings[id]) { DropKeepsExact(t, id); }
    case Prepare(txn, id, trip, path) =>
      var route := HeldRoute(cities, trip, path);
      if !Conflicts(t.bookings, trip) && HasRoom(t.roads, Legs(route)) {
        InsertKeepsExact(t, id, Booking(trip, Held, route, 1));
      }
    case Commit(txn) =>
      if txn in t.held { ConfirmKeepsExact(t, t.held[txn]); }
    case Abort(txn) =>
      if txn in t.held { AbortKeepsExact(t, t.held[txn]); }
    case ConfirmOwn(id) => ConfirmKeepsExact(t, id);
    case AbortOwn(id) => AbortKeepsExact(t, id);
  }

  lemma ConfirmKeepsExact(t: Tables, id: Id)
    requires Exact(t)
    ensures Exact(Confirm(t, id))
  {
    if id in t.bookings && t.bookings[id].status == Held { SetStatusKeepsExact(t, id, Confirmed); }
  }

  lemma AbortKeepsExact(t: Tables, id: Id)
    requires Exact(t)
    ensures Exact(AbortHeld(t, id))
  {
    if id in t.bookings && t.bookings[id].status == Held { DropKeepsExact(t, id); }
  }

  lemma ApplyKeepsNoClash(cities: set<City>, t: Tables, op: Op)
    requires NoClash(t) && Fresh(t, op)
    ensures NoClash(Apply(cities, t, op))
  {
    var t' := Apply(cities, t, op);
    forall i, j | i in t'.bookings && j in t'.bookings && i != j && Live(t'.bookings[i]) && Live(t'.bookings[j])
      ensures !Clash(t'.bookings[i].trip, t'.bookings[j].trip)
    {
      assert i in t.bookings ==> Live(t.bookings[i]) && t.bookings[i].trip == t'.bookings[i].trip;
      assert j in t.bookings ==> Live(t.bookings[j]) && t.bookings[j].trip == t'.bookings[j].trip;
    }
  }

  // ---- runs ------------------------------------------------------------------------------

  function ApplyAll(cities: set<City>, t: Tables, ops: seq<Op>): Tables {
    if ops == [] then t else Apply(cities, ApplyAll(cities, t, ops[..|ops| - 1]), ops[|ops| - 1])
  }

  ghost predicate Proper(cities: set<City>, t: Tables, ops: seq<Op>) {
    ops == [] ||
    var front, last := ops[..|ops| - 1], ops[|ops| - 1];
    Proper(cities, t, front) && Fresh(ApplyAll(cities, t, front), last) && SimplePath(last)
  }

  /** Whatever order requests are served in, one after another, each road counts exactly the CONFIRMED and HELD
      bookings that take it, stays within capacity, and no two of them clash. */
  lemma {:induction false} EveryOrderIsExact(cities: set<City>, roads: map<Edge, Road>, ops: seq<Op>)
    requires forall e :: e in roads ==> roads[e].bookings == 0 && roads[e].capacity >= 0
    requires Proper(cities, Tables(roads, map[], map[]), ops)
    ensures Exact(ApplyAll(cities, Tables(roads, map[], map[]), ops))
    ensures NoClash(ApplyAll(cities, Tables(roads, map[], map[]), ops))
  {
    var t := Tables(roads, map[], map[]);
    if ops == [] {
      assert forall e :: Users(t.bookings, e) == {};
    } else {
      EveryOrderIsExact(cities, roads, ops[..|ops| - 1]);
      ApplyKeepsExact(cities, ApplyAll(cities, t, ops[..|ops| - 1]), ops[|ops| - 1]);
      ApplyKeepsNoClash(cities, ApplyAll(cities, t, ops[..|ops| - 1]), ops[|ops| - 1]);
    }
  }

  /** A request that starts after a booking was cancelled leaves it as it is, so its road is
      given back once. */
  lemma CancelledIsFinal(cities: set<City>, t: Tables, op: Op, id: Id)
    requires Fresh(t, op) && id in t.bookings && t.bookings[id].status == Cancelled
    ensures id in Apply(cities, t, op).bookings && Apply(cities, t, op).bookings[id] == t.bookings[id]
  {}

  lemma RouteStays(cities: set<City>, t: Tables, op: Op, id: Id)
    requires Fresh(t, op) && id in t.bookings
    ensures id in Apply(cities, t, op).bookings && Apply(cities, t, op).bookings[id].route == t.bookings[id].route
  {}

  /** One request gives a road back only by cancelling a live booking, which it changes from
      live to cancelled in the same step. */
  lemma ReleaseMeansCancel(cities: set<City>, t: Tables, op: Op, e: Edge)
    requires Exact(t) && Fresh(t, op) && SimplePath(op) && e in t.roads
    requires e in Apply(cities, t, op).roads && Apply(cities, t, op).roads[e].bookings < t.roads[e].bookings
    ensures exists id :: id in t.bookings && Uses(t.bookings[id], e)
                      && id in Apply(cities, t, op).bookings && Apply(cities, t, op).bookings[id].status == Cancelled
  {
    var t' := Apply(cities, t, op);
    ApplyKeepsExact(cities, t, op);
    if forall id :: id in Users(t.bookings, e) ==> id in Users(t'.bookings, e) {
      SubsetSize(Users(t.bookings, e), Users(t'.bookings, e));
      assert false;
    }
    var id :| id in Users(t.bookings, e) && id !in Users(t'.bookings, e);
    RouteStays(cities, t, op, id);
  }

  lemma SubsetSize(a: set<Id>, b: set<Id>)
    requires a <= b
    ensures |a| <= |b|
  {
    assert b == a + (b - a);
  }
}
