/** The node itself: bookings and road counters changed in place. A method is one handler that
    nothing interrupts; RegionSerial proves that this is what a handler of the threaded node does
    when it runs alone. */
module RegionNode {
  import opened Collections
  import opened Trips
  import opened RegionTables
  import opened RegionLaws

  datatype Reply = Booked | Clashes | NoRoute | RoadsFull | Delegated

  datatype CancelReply = NotFound | AlreadyCancelled | NowCancelled

  class Node {
    const cities: set<City>
    var roads: map<Edge, Road>
    var bookings: map<Id, Booking>
    var held: map<Id, Id>

    ghost function Store(): Tables
      reads this
    {
      Tables(roads, bookings, held)
    }

    ghost predicate Valid()
      reads this
    {
      Exact(Store()) && NoClash(Store())
    }

    constructor (cities: set<City>, roads: map<Edge, Road>)
      requires forall e :: e in roads ==> roads[e].bookings == 0 && roads[e].capacity >= 0
      ensures Valid() && Store() == Tables(roads, map[], map[]) && this.cities == cities
    {
      this.cities, this.roads := cities, roads;
      bookings, held := map[], map[];
      new;
      EveryOrderIsExact(cities, roads, []);
    }

    /** A HELD or CONFIRMED booking of the same trip less than 1797.12 seconds away. */
    method CheckConflict(trip: Trip) returns (found: bool)
      ensures found <==> Conflicts(bookings, trip)
      ensures found <==>
        exists id ::
          && id in bookings && bookings[id].status != Cancelled
          && bookings[id].trip.origin == trip.origin && bookings[id].trip.dest == trip.dest
          && -1_797_120_000 < bookings[id].trip.departure - trip.departure < 1_797_120_000
    {
      found := exists id :: id in bookings && Live(bookings[id]) && Clash(bookings[id].trip, trip);
    }

    /** True if every road on the path has spare capacity. */
    method CheckRoadCapacity(path: seq<City>) returns (room: bool)
      ensures room <==> HasRoom(roads, Legs(path))
      ensures room <==> forall i :: 0 <= i < |path| - 1 && {path[i], path[i + 1]} in roads ==>
                roads[{path[i], path[i + 1]}].bookings < roads[{path[i], path[i + 1]}].capacity
    {
      LegsArePairs(path);
      ghost var legs := Legs(path);
      var i := 0;
      while i < |path| - 1
        invariant 0 <= i <= |legs|
        invariant forall j :: 0 <= j < i && legs[j] in roads ==> roads[legs[j]].bookings < roads[legs[j]].capacity
      {
        var e := Leg(path, i);
        assert e == legs[i] && e in legs;
        if e in roads && roads[e].bookings >= roads[e].capacity {
          return false;
        }
        i := i + 1;
      }
      room := true;
    }

    method ReserveRoad(path: seq<City>)
      modifies this`roads
      ensures roads == Reserve(old(roads), Legs(path)) && roads.Keys == old(roads).Keys
      ensures NoRepeats(path) ==> forall e :: e in roads ==>
                roads[e].capacity == old(roads)[e].capacity
                && roads[e].bookings == old(roads)[e].bookings
                   + if exists i :: 0 <= i < |path| - 1 && e == {path[i], path[i + 1]} then 1 else 0
    {
      ghost var legs := Legs(path);
      var i := 0;
      while i < |path| - 1
        invariant 0 <= i <= |legs| && roads == Reserve(old(roads), legs[..i])
      {
        var e := Leg(path, i);
        assert legs[..i + 1][..i] == legs[..i];
        if e in roads {
          roads := roads[e := roads[e].(bookings := roads[e].bookings + 1)];
        }
        i := i + 1;
      }
      assert legs[..|legs|] == legs;
      hide *;
      SameRoads(old(roads), legs);
      if NoRepeats(path) {
        ReservedByPairs(old(roads), path);
      }
    }

    method ReleaseRoad(path: seq<City>)
      modifies this`roads
      ensures roads == Release(old(roads), Legs(path)) && roads.Keys == old(roads).Keys
      ensures NoRepeats(path) ==> forall e :: e in roads ==>
                roads[e].capacity == old(roads)[e].capacity
                && roads[e].bookings
                   == if !exists i :: 0 <= i < |path| - 1 && e == {path[i], path[i + 1]} then old(roads)[e].bookings
                      else if old(roads)[e].bookings > 1 then old(roads)[e].bookings - 1 else 0
    {
      ghost var legs := Legs(path);
      var i := 0;
      while i < |path| - 1
        invariant 0 <= i <= |legs| && roads == Release(old(roads), legs[..i])
      {
        var e := Leg(path, i);
        assert legs[..i + 1][..i] == legs[..i];
        if e in roads {
          var cur := roads[e].bookings;
          roads := roads[e := roads[e].(bookings := if cur - 1 > 0 then cur - 1 else 0)];
        }
        i := i + 1;
      }
      assert legs[..|legs|] == legs;
      hide *;
      SameRoads(old(roads), legs);
      if NoRepeats(path) {
        ReleasedByPairs(old(roads), path);
      }
    }

    method UpdateBookingStatus(id: Id, status: Status)
      requires id in bookings
      modifies this`bookings
      ensures Store() == SetStatus(old(Store()), id, status)
      ensures bookings.Keys == old(bookings).Keys
      ensures forall other :: other in bookings && other != id ==> bookings[other] == old(bookings)[other]
      ensures bookings[id].trip == old(bookings)[id].trip && bookings[id].route == old(bookings)[id].route
      ensures bookings[id].status == status && bookings[id].version == old(bookings)[id].version + 1
      ensures forall e :: Users(bookings, e) - {id} == Users(old(bookings), e) - {id}
      ensures forall e :: (Live(old(bookings)[id]) <==> status != Cancelled) ==>
                Users(bookings, e) == Users(old(bookings), e)
    {
      var b := bookings[id];
      bookings := bookings[id := b.(status := status, version := b.version + 1)];
    }

    /** path is what the shortest-path search finds, [] if there is no route. */
    method BookJourney(id: Id, trip: Trip, path: seq<City>) returns (reply: Reply)
      requires Valid() && id !in bookings && NoRepeats(path)
      modifies this
      ensures Valid() && Store() == Apply(cities, old(Store()), Book(id, trip, path))
      ensures reply == Booked <==>
        && trip.origin in cities && trip.dest in cities && !Conflicts(old(bookings), trip)
        && path != [] && HasRoom(old(roads), Legs(path))
      ensures reply == Booked ==>
        && bookings == old(bookings)[id := Booking(trip, Confirmed, path, 1)]
        && RoadsWith(old(roads), roads, path, 1) && held == old(held)
      ensures reply != Booked ==> Store() == old(Store())
      ensures reply == Delegated <==> !(trip.origin in cities && trip.dest in cities)
      ensures reply == Clashes ==> Conflicts(bookings, trip)
      ensures reply == RoadsFull ==> !HasRoom(roads, Legs(path))
      ensures reply == NoRoute ==> path == []
    {
      ApplyKeepsExact(cities, Store(), Book(id, trip, path));
      ApplyKeepsNoClash(cities, Store(), Book(id, trip, path));
      if !(trip.origin in cities && trip.dest in cities) {
        return Delegated;
      }
      var conflict := CheckConflict(trip);
      if conflict {
        return Clashes;
      }
      if path == [] {
        return NoRoute;
      }
      var room := CheckRoadCapacity(path);
      if !room {
        return RoadsFull;
      }
      ReserveAddsOne(roads, path);
      ReserveRoad(path);
      bookings := bookings[id := Booking(trip, Confirmed, path, 1)];
      reply := Booked;
    }

    method CancelBooking(id: Id) returns (reply: CancelReply)
      requires Valid()
      modifies this
      ensures Valid() && Store() == Apply(cities, old(Store()), Cancel(id))
      ensures reply == NotFound <==> id !in old(bookings)
      ensures reply == NowCancelled <==> id in old(bookings) && Live(old(bookings)[id])
      ensures reply == NowCancelled ==>
        var was := old(bookings)[id];
        && bookings == old(bookings)[id := was.(status := Cancelled, version := was.version + 1)]
        && RoadsWith(old(roads), roads, was.route, -1) && held == old(held)
      ensures reply != NowCancelled ==> Store() == old(Store())
    {
      ApplyKeepsExact(cities, Store(), Cancel(id));
      ApplyKeepsNoClash(cities, Store(), Cancel(id));
      if id !in bookings {
        return NotFound;
      }
      if bookings[id].status == Cancelled {
        return AlreadyCancelled;
      }
      ReleaseTakesOne(Store(), id);
      ReleaseRoad(bookings[id].route);
      UpdateBookingStatus(id, Cancelled);
      reply := NowCancelled;
    }

    /** PREPARE: a HELD booking and its transaction row, or a NO vote and no change. Of a trip
        between regions only the city in this one is kept as route. */
    method HandlePrepare(txn: Id, id: Id, trip: Trip, path: seq<City>) returns (yes: bool)
      requires Valid() && id !in bookings && NoRepeats(path)
      modifies this
      ensures Valid() && Store() == Apply(cities, old(Store()), Prepare(txn, id, trip, path))
      ensures yes <==>
        && !Conflicts(old(bookings), trip)
        && (trip.origin in cities && trip.dest in cities ==> HasRoom(old(roads), Legs(path)))
      ensures yes ==>
        var route := if trip.origin in cities && trip.dest in cities then path
                     else if trip.origin in cities then [trip.origin]
                     else if trip.dest in cities then [trip.dest] else [];
        && bookings == old(bookings)[id := Booking(trip, Held, route, 1)]
        && held == old(held)[txn := id] && RoadsWith(old(roads), roads, route, 1)
      ensures !yes ==> Store() == old(Store())
    {
      ApplyKeepsExact(cities, Store(), Prepare(txn, id, trip, path));
      ApplyKeepsNoClash(cities, Store(), Prepare(txn, id, trip, path));
      var conflict := CheckConflict(trip);
      if conflict {
        return false;
      }
      var route := HeldRoute(cities, trip, path);
      ReserveAddsOne(roads, route);
      if |route| > 1 {
        var room := CheckRoadCapacity(route);
        if !room {
          return false;
        }
        ReserveRoad(route);
      }
      bookings := bookings[id := Booking(trip, Held, route, 1)];
      held := held[txn := id];
      yes := true;
    }

    method ConfirmHeldBooking(id: Id) returns (done: bool)
      requires Valid()
      modifies this`bookings
      ensures Valid() && Store() == Apply(cities, old(Store()), ConfirmOwn(id))
      ensures done <==> id in old(bookings) && old(bookings)[id].status == Held
      ensures done ==>
        var was := old(bookings)[id];
        bookings == old(bookings)[id := was.(status := Confirmed, version := was.version + 1)]
      ensures !done ==> bookings == old(bookings)
    {
      ApplyKeepsExact(cities, Store(), ConfirmOwn(id));
      ApplyKeepsNoClash(cities, Store(), ConfirmOwn(id));
      done := id in bookings && bookings[id].status == Held;
      if done {
        UpdateBookingStatus(id, Confirmed);
      }
    }

    method AbortHeldBooking(id: Id) returns (done: bool)
      requires Valid()
      modifies this`bookings, this`roads
      ensures Valid() && Store() == Apply(cities, old(Store()), AbortOwn(id))
      ensures done <==> id in old(bookings) && old(bookings)[id].status == Held
      ensures done ==>
        var was := old(bookings)[id];
        && bookings == old(bookings)[id := was.(status := Cancelled, version := was.version + 1)]
        && RoadsWith(old(roads), roads, was.route, -1)
      ensures !done ==> bookings == old(bookings) && roads == old(roads)
    {
      ApplyKeepsExact(cities, Store(), AbortOwn(id));
      ApplyKeepsNoClash(cities, Store(), AbortOwn(id));
      done := id in bookings && bookings[id].status == Held;
      if done {
        ReleaseTakesOne(Store(), id);
        if |bookings[id].route| > 1 {
          ReleaseRoad(bookings[id].route);
        }
        UpdateBookingStatus(id, Cancelled);
      }
    }

    /** The transaction's booking, if it is still HELD, becomes CONFIRMED. */
    method HandleCommit(txn: Id)
      requires Valid()
      modifies this
      ensures Valid() && Store() == Apply(cities, old(Store()), Commit(txn))
      ensures roads == old(roads) && held == old(held)
      ensures txn in old(held) && old(held)[txn] in old(bookings) && old(bookings)[old(held)[txn]].status == Held ==>
        var id := old(held)[txn];
        var was := old(bookings)[id];
        bookings == old(bookings)[id := was.(status := Confirmed, version := was.version + 1)]
      ensures !(txn in old(held) && old(held)[txn] in old(bookings) && old(bookings)[old(held)[txn]].status == Held) ==>
        bookings == old(bookings)
    {
      if txn in held {
        var _ := ConfirmHeldBooking(held[txn]);
      }
    }

    /** The transaction's booking, if it is still HELD, is cancelled and its road given back. */
    method HandleAbort(txn: Id)
      requires Valid()
      modifies this
      ensures Valid() && Store() == Apply(cities, old(Store()), Abort(txn))
      ensures held == old(held)
      ensures txn in old(held) && old(held)[txn] in old(bookings) && old(bookings)[old(held)[txn]].status == Held ==>
        var id := old(held)[txn];
        var was := old(bookings)[id];
        && bookings == old(bookings)[id := was.(status := Cancelled, version := was.version + 1)]
        && RoadsWith(old(roads), roads, was.route, -1)
      ensures !(txn in old(held) && old(held)[txn] in old(bookings) && old(bookings)[old(held)[txn]].status == Held) ==>
        bookings == old(bookings) && roads == old(roads)
    {
      if txn in held {
        var _ := AbortHeldBooking(held[txn]);
      }
    }
  }
}
