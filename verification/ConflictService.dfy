/** The conflict service's transactions on its two tables: conflict-service/service.go, lines
    60-483, and replication.go, lines 253-390. A pushed slot is looked for and stored by two
    methods, since others can commit in between. */
module ConflictService {
  import opened Grid
  import opened PathShape
  import opened Clock
  import opened Allocator
  import opened AllocatorLaws

  datatype Option<+T> = None | Some(value: T)

  datatype Outcome =
    | Clear
    | TimeOverlap(departure: int, arrival: int)
    | RoadCapacity(cell: Cell, time: int, segment: nat, total: nat)

  /** The row looked for by the capacity query. */
  predicate FullRow(capacity: Capacity, key: Key, cell: Cell, t: int) {
    && key in capacity
    && key.lat == cell.lat && key.lng == cell.lng
    && key.start <= t < capacity[key].slotEnd
    && capacity[key].current >= capacity[key].max
  }

  /** Searching by time range finds a full row exactly when the one counter of that cell
      and half-hour is full. */
  lemma FullRowIsFullCounter(capacity: Capacity, cell: Cell, t: int)
    requires Shaped(capacity)
    ensures (exists key :: FullRow(capacity, key, cell, t))
       <==> Current(capacity, Key(cell.lat, cell.lng, SlotStart(t))) >= DEFAULT_MAX_CAPACITY
  {
    var slot := Key(cell.lat, cell.lng, SlotStart(t));
    SlotContains(t, SlotStart(t));
    if key :| FullRow(capacity, key, cell, t) {
      SlotContains(t, key.start);
      assert key == slot;
    }
    if Current(capacity, slot) >= DEFAULT_MAX_CAPACITY {
      assert FullRow(capacity, slot, cell, t);
    }
  }

  /** Some segment of the request's path is full at the moment it is reached. */
  ghost predicate RoadFull(routes: Routes, capacity: Capacity, req: Request) {
    var cells := CellsFor(routes, req.origin, req.dest, req.routeId);
    exists i, t, key ::
      && 0 <= i < |cells|
      && ReachedAt(req.departure, req.departure + req.minutes * 60_000_000_000, i, |cells|, t)
      && FullRow(capacity, key, cells[i], t)
  }

  lemma RoadFullIff(routes: Routes, capacity: Capacity, req: Request)
    requires Shaped(capacity)
    ensures RoadFull(routes, capacity, req) <==> !CountersBelowMax(routes, capacity, req.AsSlot())
  {
    hide CellsFor;
    hide ReachedAt;
    hide CellTime;
    hide SlotStart;
    hide FullRow;
    var cells := CellsFor(routes, req.origin, req.dest, req.routeId);
    var keys := SlotKeys(routes, req.AsSlot());
    forall i, t | 0 <= i < |cells| && ReachedAt(req.departure, req.Arrival(), i, |cells|, t)
      ensures Current(capacity, keys[i]) >= DEFAULT_MAX_CAPACITY <==> exists key :: FullRow(capacity, key, cells[i], t)
    {
      CellTimeIff(req.departure, req.Arrival(), i, |cells|, t);
      FullRowIsFullCounter(capacity, cells[i], t);
    }
    forall i | 0 <= i < |cells|
      ensures ReachedAt(req.departure, req.Arrival(), i, |cells|, CellTime(req.departure, req.Arrival(), i, |cells|))
    {
      CellTimeIff(req.departure, req.Arrival(), i, |cells|, CellTime(req.departure, req.Arrival(), i, |cells|));
    }
    if !CountersBelowMax(routes, capacity, req.AsSlot()) {
      var i :| 0 <= i < |keys| && Current(capacity, keys[i]) >= DEFAULT_MAX_CAPACITY;
      var t := CellTime(req.departure, req.Arrival(), i, |cells|);
      var key :| FullRow(capacity, key, cells[i], t);
    }
    if RoadFull(routes, capacity, req) {
      var i, t, key :| 0 <= i < |cells| && ReachedAt(req.departure, req.Arrival(), i, |cells|, t)
                       && FullRow(capacity, key, cells[i], t);
      assert keys[i] in keys;
    }
  }

  /** A stored slot raises the counters of what it passes, and no other. */
  lemma KeysRaised(routes: Routes, capacity: Capacity, s: Slot)
    requires Shaped(capacity)
    ensures Shaped(IncrementAll(capacity, SlotKeys(routes, s)))
    ensures forall key ::
              Current(IncrementAll(capacity, SlotKeys(routes, s)), key)
              == Current(capacity, key) + if PassedBy(routes, s, key) then 1 else 0
  {
    KeysOncePerSlot(routes, s);
    IncrementAllShape(capacity, SlotKeys(routes, s));
    hide *;
    forall key
      ensures Current(IncrementAll(capacity, SlotKeys(routes, s)), key)
           == Current(capacity, key) + if PassedBy(routes, s, key) then 1 else 0
    {
      IncrementAllCurrent(capacity, SlotKeys(routes, s), key);
      KeysIffPassed(routes, s, key);
    }
  }

  /** A cancelled slot lowers them again, where they are above zero. */
  lemma KeysLowered(routes: Routes, capacity: Capacity, s: Slot)
    requires Shaped(capacity)
    ensures Shaped(DecrementAll(capacity, SlotKeys(routes, s)))
    ensures forall key ::
              Current(DecrementAll(capacity, SlotKeys(routes, s)), key)
              == Current(capacity, key) - if PassedBy(routes, s, key) && Current(capacity, key) > 0 then 1 else 0
  {
    KeysOncePerSlot(routes, s);
    DecrementAllShape(capacity, SlotKeys(routes, s));
    forall key ensures Current(capacity, key) >= 0 {}
    hide *;
    forall key
      ensures Current(DecrementAll(capacity, SlotKeys(routes, s)), key)
           == Current(capacity, key) - if PassedBy(routes, s, key) && Current(capacity, key) > 0 then 1 else 0
    {
      DecrementAllCurrent(capacity, SlotKeys(routes, s), key);
      KeysIffPassed(routes, s, key);
    }
  }

  /** The WHERE clause shared by the two overlap queries. */
  predicate Blocks(s: Slot, departure: int, arrival: int, exclude: string) {
    s.active && s.journeyId != exclude && s.departure < arrival && s.arrival > departure
  }

  predicate FirstOffered(pushes: seq<Slot>, i: nat, row: Slot) {
    && i < |pushes| && row == pushes[i].(routeId := "", active := true)
    && forall j :: 0 <= j < i ==> pushes[j].journeyId != row.journeyId
  }

  /** The row stands for the first of the first n pushed slots of its journey. */
  ghost predicate Offered(pushes: seq<Slot>, n: nat, row: Slot) {
    exists i: nat :: i < n && FirstOffered(pushes, i, row)
  }

  /** The first n pushes have been applied: every journey of theirs has a row, and the new rows
      are one for each journey that had none before. */
  ghost predicate CaughtUp(before: seq<Slot>, pushes: seq<Slot>, n: nat, slots: seq<Slot>)
    requires n <= |pushes|
  {
    && before <= slots
    && (forall j :: 0 <= j < n ==> Known(slots, pushes[j].journeyId))
    && (forall k :: |before| <= k < |slots| ==> Offered(pushes, n, slots[k]) && !Known(slots[..k], slots[k].journeyId))
  }

  lemma OneCaughtUp(before: seq<Slot>, pushes: seq<Slot>, n: nat, slots: seq<Slot>)
    requires n < |pushes| && CaughtUp(before, pushes, n, slots)
    ensures var r := pushes[n];
            CaughtUp(before, pushes, n + 1, if Known(slots, r.journeyId) then slots else slots + [Stored(r)])
  {
    var r := pushes[n];
    if !Known(slots, r.journeyId) {
      var after := slots + [Stored(r)];
      assert FirstOffered(pushes, n, Stored(r));
      assert after[|slots|] == Stored(r);
      forall j | 0 <= j < n ensures Known(after, pushes[j].journeyId) {
        var k :| 0 <= k < |slots| && slots[k].journeyId == pushes[j].journeyId;
        assert after[k] == slots[k];
      }
      forall k | |before| <= k < |after|
        ensures Offered(pushes, n + 1, after[k]) && !Known(after[..k], after[k].journeyId)
      {
        assert after[..k] == slots[..k];
        assert k < |slots| ==> Offered(pushes, n, slots[k]);
      }
    }
  }

  class Service {
    const routes: Routes
    var slots: seq<Slot>
    var capacity: Capacity

    ghost function Store(): Tables
      reads this
    {
      Tables(slots, capacity)
    }

    ghost predicate Valid()
      reads this
    {
      Shaped(capacity)
    }

    constructor (routes: Routes)
      ensures Valid() && Store() == EMPTY && this.routes == routes
    {
      this.routes := routes;
      slots, capacity := [], map[];
    }

    method CheckDriverOverlap(userId: string, departure: int, arrival: int, exclude: string)
      returns (found: Option<Slot>)
      ensures found.Some? ==>
        && found.value in slots && found.value.active && found.value.userId == userId
        && found.value.journeyId != exclude && found.value.departure < arrival && departure < found.value.arrival
      ensures found.None? ==>
        forall s :: s in slots && s.active && s.userId == userId && s.journeyId != exclude ==>
          s.departure >= arrival || s.arrival <= departure
    {
      for i := 0 to |slots|
        invariant forall j :: 0 <= j < i && slots[j].userId == userId ==>
                    !Blocks(slots[j], departure, arrival, exclude)
      {
        if slots[i].userId == userId && Blocks(slots[i], departure, arrival, exclude) {
          return Some(slots[i]);
        }
      }
      found := None;
    }

    method CheckVehicleOverlap(vehicle: string, departure: int, arrival: int, exclude: string)
      returns (found: Option<Slot>)
      ensures found.Some? ==>
        && found.value in slots && found.value.active && found.value.vehicle == vehicle
        && found.value.journeyId != exclude && found.value.departure < arrival && departure < found.value.arrival
      ensures found.None? ==>
        forall s :: s in slots && s.active && s.vehicle == vehicle && s.journeyId != exclude ==>
          s.departure >= arrival || s.arrival <= departure
    {
      for i := 0 to |slots|
        invariant forall j :: 0 <= j < i && slots[j].vehicle == vehicle ==>
                    !Blocks(slots[j], departure, arrival, exclude)
      {
        if slots[i].vehicle == vehicle && Blocks(slots[i], departure, arrival, exclude) {
          return Some(slots[i]);
        }
      }
      found := None;
    }

    method PathFor(origin: Point, dest: Point, routeId: string) returns (cells: seq<Cell>)
      ensures cells == CellsFor(routes, origin, dest, routeId)
      ensures routeId != "" && routeId in routes && |routes[routeId]| >= 2 ==> cells == WaypointCells(routes[routeId])
      ensures routeId == "" || routeId !in routes || |routes[routeId]| < 2 ==> cells == PathCells(origin, dest)
    {
      if routeId != "" {
        var waypoints := WaypointsOf(routes, routeId);
        if |waypoints| >= 2 {
          cells := PathGridCellsFromWaypoints(waypoints);
          return;
        }
      }
      cells := PathGridCells(origin, dest);
    }

    /** The first segment of the path whose counter is full, if any. */
    method CheckRoadCapacity(req: Request) returns (full: Outcome)
      requires Valid()
      ensures full.Clear? || full.RoadCapacity?
      ensures full.Clear? <==> CountersBelowMax(routes, capacity, req.AsSlot())
      ensures full.Clear? <==> !RoadFull(routes, capacity, req)
      ensures full.RoadCapacity? ==>
        var cells := CellsFor(routes, req.origin, req.dest, req.routeId);
        var arrival := req.departure + req.minutes * 60_000_000_000;
        && 1 <= full.segment <= full.total == |cells| && full.cell == cells[full.segment - 1]
        && ReachedAt(req.departure, arrival, full.segment - 1, full.total, full.time)
        && (exists key :: FullRow(capacity, key, full.cell, full.time))
        && forall i, t, key ::
             0 <= i < full.segment - 1 && ReachedAt(req.departure, arrival, i, full.total, t) ==>
               !FullRow(capacity, key, cells[i], t)
    {
      var cells := PathFor(req.origin, req.dest, req.routeId);
      ghost var keys := SlotKeys(routes, req.AsSlot());
      RoadFullIff(routes, capacity, req);
      hide RoadFull;
      hide CellsFor;
      hide ReachedAt;
      hide CellTime;
      hide SlotStart;
      for i := 0 to |cells|
        invariant forall j :: 0 <= j < i ==> Current(capacity, keys[j]) < DEFAULT_MAX_CAPACITY
        invariant forall j, t, key ::
                    0 <= j < i && ReachedAt(req.departure, req.Arrival(), j, |cells|, t) ==>
                      !FullRow(capacity, key, cells[j], t)
      {
        var t := CellTime(req.departure, req.Arrival(), i, |cells|);
        forall at ensures ReachedAt(req.departure, req.Arrival(), i, |cells|, at) <==> at == t {
          CellTimeIff(req.departure, req.Arrival(), i, |cells|, at);
        }
        assert keys[i] == Key(cells[i].lat, cells[i].lng, SlotStart(t));
        FullRowIsFullCounter(capacity, cells[i], t);
        if exists key :: key in capacity && FullRow(capacity, key, cells[i], t) {
          assert keys[i] in keys;
          return RoadCapacity(cells[i], t, i + 1, |cells|);
        }
      }
      full := Clear;
    }

    method IncrementCapacity(lat: real, lng: real, t: int)
      modifies this`capacity
      ensures capacity == Increment(old(capacity), Key(RoundGrid(lat), RoundGrid(lng), SlotStart(t)))
    {
      var key := Key(RoundGrid(lat), RoundGrid(lng), SlotStart(t));
      if key in capacity {
        capacity := capacity[key := capacity[key].(current := capacity[key].current + 1)];
      } else {
        capacity := capacity[key := CapacityRow(key.start + SLOT, 1, DEFAULT_MAX_CAPACITY)];
      }
    }

    method DecrementCapacity(lat: real, lng: real, t: int)
      modifies this`capacity
      ensures capacity == Decrement(old(capacity), Key(RoundGrid(lat), RoundGrid(lng), SlotStart(t)))
    {
      var key := Key(RoundGrid(lat), RoundGrid(lng), SlotStart(t));
      if key in capacity {
        var less := capacity[key].current - 1;
        capacity := capacity[key := capacity[key].(current := if less > 0 then less else 0)];
      }
    }

    method IncrementPath(cells: seq<Cell>, departure: int, arrival: int)
      requires OnGrid(cells)
      modifies this`capacity
      ensures capacity == IncrementAll(old(capacity), KeysAlong(cells, departure, arrival))
    {
      ghost var keys := KeysAlong(cells, departure, arrival);
      for i := 0 to |cells|
        invariant capacity == IncrementAll(old(capacity), keys[..i])
      {
        assert cells[i] in cells;
        assert keys[..i + 1][..i] == keys[..i];
        IncrementCapacity(cells[i].lat, cells[i].lng, CellTime(departure, arrival, i, |cells|));
      }
      assert keys[..|cells|] == keys;
    }

    method DecrementPath(cells: seq<Cell>, departure: int, arrival: int)
      requires OnGrid(cells)
      modifies this`capacity
      ensures capacity == DecrementAll(old(capacity), KeysAlong(cells, departure, arrival))
    {
      ghost var keys := KeysAlong(cells, departure, arrival);
      for i := 0 to |cells|
        invariant capacity == DecrementAll(old(capacity), keys[..i])
      {
        assert cells[i] in cells;
        assert keys[..i + 1][..i] == keys[..i];
        DecrementCapacity(cells[i].lat, cells[i].lng, CellTime(departure, arrival, i, |cells|));
      }
      assert keys[..|cells|] == keys;
    }

    method RecordBookingSlot(req: Request)
      requires Valid()
      modifies this
      ensures Valid() && Store() == Booked(routes, old(Store()), req.AsSlot())
      ensures slots == old(slots) + [Slot(req.journeyId, req.userId, req.vehicle, req.departure,
                                          req.departure + req.minutes * 60_000_000_000,
                                          req.origin, req.dest, req.routeId, true)]
      ensures forall key ::
                Current(capacity, key)
                == Current(old(capacity), key) + if PassedBy(routes, slots[|old(slots)|], key) then 1 else 0
    {
      slots := slots + [req.AsSlot()];
      var cells := PathFor(req.origin, req.dest, req.routeId);
      CellsForPath(routes, req.AsSlot());
      KeysRaised(routes, capacity, req.AsSlot());
      hide *;
      IncrementPath(cells, req.departure, req.Arrival());
    }

    /** Accepts exactly when no rival is too close in time and no counter on the path is
        full; while the counters are exact this is the decision over the active slots.
        A rejection changes nothing. */
    method CheckConflicts(req: Request) returns (outcome: Outcome)
      requires Valid()
      modifies this
      ensures Valid()
      ensures outcome.Clear? <==>
        PartyFree(old(slots), req.AsSlot()) && CountersBelowMax(routes, old(capacity), req.AsSlot())
      ensures outcome.TimeOverlap? <==>
        exists s ::
          && s in old(slots) && s.active && s.journeyId != req.journeyId
          && (s.userId == req.userId || s.vehicle == req.vehicle)
          && s.departure < req.departure + req.minutes * 60_000_000_000 + 300_000_000_000
          && req.departure - 300_000_000_000 < s.arrival
      ensures outcome.TimeOverlap? ==>
        exists s ::
          && s in old(slots) && s.active && s.journeyId != req.journeyId
          && (s.userId == req.userId || s.vehicle == req.vehicle)
          && outcome.departure == s.departure < req.departure + req.minutes * 60_000_000_000 + 300_000_000_000
          && req.departure - 300_000_000_000 < s.arrival == outcome.arrival
      ensures outcome.Clear? <==> !outcome.TimeOverlap? && !RoadFull(routes, old(capacity), req)
      ensures outcome.Clear? ==>
        && slots == old(slots) + [Slot(req.journeyId, req.userId, req.vehicle, req.departure,
                                       req.departure + req.minutes * 60_000_000_000,
                                       req.origin, req.dest, req.routeId, true)]
        && forall key ::
             Current(capacity, key)
             == Current(old(capacity), key) + if PassedBy(routes, slots[|old(slots)|], key) then 1 else 0
      ensures old(Conserved(routes, Store())) ==>
        (outcome.Clear? <==> Acceptable(routes, old(slots), req.AsSlot()))
      ensures Step(routes, old(Store()), Book(req), Store())
      ensures !outcome.Clear? ==> slots == old(slots) && capacity == old(capacity)
      ensures outcome.TimeOverlap? ==> !PartyFree(old(slots), req.AsSlot())
      ensures outcome.RoadCapacity? ==> PartyFree(old(slots), req.AsSlot())
    {
      var arrival := req.Arrival();
      var bufferedDeparture := req.departure - JOURNEY_BUFFER;
      var bufferedArrival := arrival + JOURNEY_BUFFER;
      ghost var s := req.AsSlot();

      var driver := CheckDriverOverlap(req.userId, bufferedDeparture, bufferedArrival, req.journeyId);
      if driver.Some? {
        assert RivalOf(driver.value, s) && !Apart(driver.value, s);
        return TimeOverlap(driver.value.departure, driver.value.arrival);
      }
      var vehicle := CheckVehicleOverlap(req.vehicle, bufferedDeparture, bufferedArrival, req.journeyId);
      if vehicle.Some? {
        assert RivalOf(vehicle.value, s) && !Apart(vehicle.value, s);
        return TimeOverlap(vehicle.value.departure, vehicle.value.arrival);
      }
      assert PartyFree(slots, s);
      outcome := CheckRoadCapacity(req);
      if outcome.Clear? {
        RecordBookingSlot(req);
      }
    }

    /** False stands for ErrNotFound. The row returned by the UPDATE is any of those it changed. */
    method CancelBookingSlot(journeyId: string) returns (found: bool)
      requires Valid()
      modifies this
      ensures Valid()
      ensures Step(routes, old(Store()), Cancel(journeyId), Store())
      ensures found <==> exists s :: s in old(slots) && s.active && s.journeyId == journeyId
      ensures |slots| == |old(slots)|
      ensures forall i :: 0 <= i < |slots| ==>
                var was := old(slots)[i];
                slots[i] == if was.journeyId == journeyId then was.(active := false) else was
      ensures found ==>
        exists row ::
          && row in old(slots) && row.active && row.journeyId == journeyId
          && forall key ::
               Current(capacity, key)
               == Current(old(capacity), key)
                  - if PassedBy(routes, row, key) && Current(old(capacity), key) > 0 then 1 else 0
      ensures !found ==> slots == old(slots) && capacity == old(capacity)
    {
      if k :| 0 <= k < |slots| && ActiveAt(slots, journeyId, k) {
        var row := slots[k];
        assert row in slots;
        slots := Deactivate(slots, journeyId);
        var cells := PathFor(row.origin, row.dest, row.routeId);
        CellsForPath(routes, row);
        KeysLowered(routes, capacity, row);
        DecrementPath(cells, row.departure, row.arrival);
        found := true;
        assert Store() == Cancelled(routes, old(Store()), journeyId, k);
      } else {
        forall s | s in slots ensures !(s.active && s.journeyId == journeyId) {
          var i :| 0 <= i < |slots| && slots[i] == s;
          assert !ActiveAt(slots, journeyId, i);
        }
        found := false;
      }
    }

    /** The first half of a push. */
    method SlotExists(journeyId: string) returns (exists_: bool)
      ensures exists_ <==> Known(slots, journeyId)
      ensures exists_ <==> exists s :: s in slots && s.journeyId == journeyId
    {
      exists_ := exists k :: 0 <= k < |slots| && slots[k].journeyId == journeyId;
    }

    /** The second half, up to the commit: nothing is asked again. */
    method StoreReplicatedSlot(r: Slot)
      requires Valid()
      modifies this
      ensures Valid() && Store() == Inserted(routes, old(Store()), r)
      ensures slots == old(slots) + [r.(routeId := "", active := true)]
      ensures forall key ::
                Current(capacity, key) == Current(old(capacity), key) + if PassedBy(routes, r, key) then 1 else 0
    {
      slots := slots + [r.(routeId := "", active := true)];
      var cells := PathFor(r.origin, r.dest, r.routeId);
      CellsForPath(routes, r);
      KeysRaised(routes, capacity, r);
      IncrementPath(cells, r.departure, r.arrival);
    }

    /** Both halves with nothing in between. */
    method ApplyReplicatedSlot(r: Slot)
      requires Valid()
      modifies this
      ensures Valid() && Step(routes, old(Store()), Push(r), Store())
      ensures (exists s :: s in old(slots) && s.journeyId == r.journeyId) ==>
        slots == old(slots) && capacity == old(capacity)
      ensures !(exists s :: s in old(slots) && s.journeyId == r.journeyId) ==>
        && slots == old(slots) + [r.(routeId := "", active := true)]
        && forall key ::
             Current(capacity, key) == Current(old(capacity), key) + if PassedBy(routes, r, key) then 1 else 0
    {
      var known := SlotExists(r.journeyId);
      if !known {
        StoreReplicatedSlot(r);
      }
    }

    method GetActiveSlots(now: int) returns (sent: seq<Slot>)
      ensures sent == Snapshot(slots, now)
    {
      sent := [];
      for i := 0 to |slots|
        invariant sent == Snapshot(slots[..i], now)
      {
        assert slots[..i + 1][..i] == slots[..i];
        if slots[i].active && slots[i].arrival > now - 60 * MINUTE {
          sent := sent + [slots[i].(routeId := "")];
        }
      }
      assert slots[..|slots|] == slots;
    }

    method SyncFromPeer(pushes: seq<Slot>)
      requires Valid()
      modifies this
      ensures Valid() && Store() == ReplicatedAll(routes, old(Store()), pushes)
      ensures CaughtUp(old(slots), pushes, |pushes|, slots)
    {
      for i := 0 to |pushes|
        invariant Valid() && Store() == ReplicatedAll(routes, old(Store()), pushes[..i])
        invariant CaughtUp(old(slots), pushes, i, slots)
      {
        assert pushes[..i + 1][..i] == pushes[..i];
        OneCaughtUp(old(slots), pushes, i, slots);
        hide CaughtUp;
        hide SlotKeys;
        ApplyReplicatedSlot(pushes[i]);
      }
      assert pushes[..|pushes|] == pushes;
    }
  }
}
