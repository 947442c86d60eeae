/** The two tables of the conflict service as values: the booked slots and the road
    capacity counters that index them (conflict-service/service.go and replication.go). */
module Allocator {
  import opened Grid
  import opened Clock

  const DEFAULT_MAX_CAPACITY: int := 1

  datatype Slot = Slot(
    journeyId: string, userId: string, vehicle: string,
    departure: int, arrival: int,
    origin: Point, dest: Point,
    routeId: string,              // "" stands for SQL NULL
    active: bool)

  datatype Request = Request(
    journeyId: string, userId: string, vehicle: string,
    departure: int, minutes: int,
    origin: Point, dest: Point, routeId: string)
  {
    function Arrival(): int { departure + minutes * MINUTE }

    function AsSlot(): Slot {
      Slot(journeyId, userId, vehicle, departure, Arrival(), origin, dest, routeId, true)
    }
  }

  datatype Key = Key(lat: real, lng: real, start: int)

  datatype CapacityRow = CapacityRow(slotEnd: int, current: int, max: int)

  type Capacity = map<Key, CapacityRow>

  type Routes = map<string, seq<Point>>

  datatype Tables = Tables(slots: seq<Slot>, capacity: Capacity)

  const EMPTY: Tables := Tables([], map[])

  // ---- paths and keys ----------------------------------------------------------

  function WaypointsOf(routes: Routes, routeId: string): seq<Point> {
    if routeId in routes then routes[routeId] else []
  }

  function CellsFor(routes: Routes, origin: Point, dest: Point, routeId: string): seq<Cell> {
    if routeId != "" && |WaypointsOf(routes, routeId)| >= 2
    then WaypointCells(WaypointsOf(routes, routeId))
    else PathCells(origin, dest)
  }

  function KeyAt(cells: seq<Cell>, departure: int, arrival: int, i: nat): Key
    requires i < |cells|
  {
    Key(cells[i].lat, cells[i].lng, SlotStart(CellTime(departure, arrival, i, |cells|)))
  }

  function KeysAlong(cells: seq<Cell>, departure: int, arrival: int): seq<Key> {
    seq(|cells|, i requires 0 <= i < |cells| => KeyAt(cells, departure, arrival, i))
  }

  /** The (cell, half-hour) pairs a slot passes. */
  function SlotKeys(routes: Routes, s: Slot): seq<Key> {
    KeysAlong(CellsFor(routes, s.origin, s.dest, s.routeId), s.departure, s.arrival)
  }

  predicate Passes(routes: Routes, s: Slot, key: Key) {
    s.active && key in SlotKeys(routes, s)
  }

  /** Number of active slots that pass the key. */
  function Uses(routes: Routes, slots: seq<Slot>, key: Key): nat {
    if slots == [] then 0
    else Uses(routes, slots[..|slots| - 1], key)
         + if Passes(routes, slots[|slots| - 1], key) then 1 else 0
  }

  // ---- the capacity table --------------------------------------------------------

  function Current(capacity: Capacity, key: Key): int {
    if key in capacity then capacity[key].current else 0
  }

  function Increment(capacity: Capacity, key: Key): Capacity {
    if key in capacity
    then capacity[key := capacity[key].(current := capacity[key].current + 1)]
    else capacity[key := CapacityRow(key.start + SLOT, 1, DEFAULT_MAX_CAPACITY)]
  }

  function Decrement(capacity: Capacity, key: Key): Capacity {
    if key !in capacity then capacity
    else
      var row := capacity[key];
      capacity[key := row.(current := if row.current - 1 > 0 then row.current - 1 else 0)]
  }

  function IncrementAll(capacity: Capacity, keys: seq<Key>): Capacity {
    if keys == [] then capacity
    else Increment(IncrementAll(capacity, keys[..|keys| - 1]), keys[|keys| - 1])
  }

  function DecrementAll(capacity: Capacity, keys: seq<Key>): Capacity {
    if keys == [] then capacity
    else Decrement(DecrementAll(capacity, keys[..|keys| - 1]), keys[|keys| - 1])
  }

  /** Every row covers one aligned half-hour, carries the default capacity and never
      counts below zero. */
  ghost predicate Shaped(capacity: Capacity) {
    forall key :: key in capacity ==>
      && key.start % SLOT == 0
      && capacity[key].slotEnd == key.start + SLOT
      && capacity[key].max == DEFAULT_MAX_CAPACITY
      && capacity[key].current >= 0
  }

  ghost predicate Bounded(capacity: Capacity) {
    forall key :: key in capacity ==> capacity[key].current <= capacity[key].max
  }

  /** The counter table is an index over the active slots. */
  ghost predicate Conserved(routes: Routes, t: Tables) {
    forall key :: Current(t.capacity, key) == Uses(routes, t.slots, key)
  }

  // ---- what a request is checked against -----------------------------------------

  predicate Apart(a: Slot, b: Slot) {
    b.departure >= a.arrival + JOURNEY_BUFFER || a.departure >= b.arrival + JOURNEY_BUFFER
  }

  predicate SameParty(a: Slot, b: Slot) {
    a.userId == b.userId || a.vehicle == b.vehicle
  }

  predicate RivalOf(a: Slot, s: Slot) {
    a.active && a.journeyId != s.journeyId && SameParty(a, s)
  }

  /** No active slot of another journey shares the driver or the vehicle within the buffer. */
  ghost predicate PartyFree(slots: seq<Slot>, s: Slot) {
    forall i :: 0 <= i < |slots| && RivalOf(slots[i], s) ==> Apart(slots[i], s)
  }

  ghost predicate RoadFree(routes: Routes, slots: seq<Slot>, s: Slot) {
    forall key :: key in SlotKeys(routes, s) ==> Uses(routes, slots, key) < DEFAULT_MAX_CAPACITY
  }

  /** The decision, said over the set of active slots alone. */
  ghost predicate Acceptable(routes: Routes, slots: seq<Slot>, s: Slot) {
    PartyFree(slots, s) && RoadFree(routes, slots, s)
  }

  // ---- effects of the transactions -------------------------------------------------

  function Booked(routes: Routes, t: Tables, s: Slot): Tables {
    Tables(t.slots + [s], IncrementAll(t.capacity, SlotKeys(routes, s)))
  }

  predicate ActiveAt(slots: seq<Slot>, journeyId: string, k: int) {
    0 <= k < |slots| && slots[k].active && slots[k].journeyId == journeyId
  }

  ghost predicate HasActive(slots: seq<Slot>, journeyId: string) {
    exists k :: ActiveAt(slots, journeyId, k)
  }

  function Deactivate(slots: seq<Slot>, journeyId: string): seq<Slot> {
    seq(|slots|, i requires 0 <= i < |slots| =>
      if slots[i].journeyId == journeyId then slots[i].(active := false) else slots[i])
  }

  /** The UPDATE deactivates every active row of the journey; only the row that is
      returned first, row k, gives its road back. */
  function Cancelled(routes: Routes, t: Tables, journeyId: string, k: int): Tables
    requires ActiveAt(t.slots, journeyId, k)
  {
    Tables(Deactivate(t.slots, journeyId), DecrementAll(t.capacity, SlotKeys(routes, t.slots[k])))
  }

  predicate Known(slots: seq<Slot>, journeyId: string) {
    exists k :: 0 <= k < |slots| && slots[k].journeyId == journeyId
  }

  /** What a push leaves in the table: the slot without its route. */
  function Stored(r: Slot): Slot {
    r.(routeId := "", active := true)
  }

  /** A pushed slot is inserted, whether or not the journey is known. The counters are raised
      along the route that the row does not keep. */
  function Inserted(routes: Routes, t: Tables, r: Slot): Tables {
    Tables(t.slots + [Stored(r)], IncrementAll(t.capacity, SlotKeys(routes, r)))
  }

  /** A push that nothing interrupts. */
  function Replicated(routes: Routes, t: Tables, r: Slot): Tables {
    if Known(t.slots, r.journeyId) then t else Inserted(routes, t, r)
  }

  function ReplicatedAll(routes: Routes, t: Tables, pushes: seq<Slot>): Tables {
    if pushes == [] then t
    else Replicated(routes, ReplicatedAll(routes, t, pushes[..|pushes| - 1]), pushes[|pushes| - 1])
  }

  /** What a node tells a peer that asks for its state: active slots that ended less than
      an hour ago or later, without their routes. */
  function Snapshot(slots: seq<Slot>, now: int): seq<Slot> {
    if slots == [] then []
    else
      var last := slots[|slots| - 1];
      Snapshot(slots[..|slots| - 1], now)
      + if last.active && last.arrival > now - 60 * MINUTE then [last.(routeId := "")] else []
  }

  // ---- transactions as steps ---------------------------------------------------------

  ghost predicate CountersBelowMax(routes: Routes, capacity: Capacity, s: Slot) {
    forall key :: key in SlotKeys(routes, s) ==> Current(capacity, key) < DEFAULT_MAX_CAPACITY
  }

  /** A push looks for its journey and inserts later, in a transaction that is only READ
      COMMITTED: others commit in between. p tells pushes apart. */
  datatype Op =
    | Book(req: Request)
    | Cancel(journeyId: string)
    | Push(r: Slot)                // both halves, nothing in between
    | Look(p: nat, r: Slot)
    | Store(p: nat, r: Slot)
  {
    predicate FromPeer() { Push? || Store? }
  }

  /** One step, as the service's methods leave the committed tables. */
  ghost predicate Step(routes: Routes, t: Tables, op: Op, t': Tables) {
    match op
    case Book(req) =>
      var s := req.AsSlot();
      t' == if PartyFree(t.slots, s) && CountersBelowMax(routes, t.capacity, s) then Booked(routes, t, s) else t
    case Cancel(journeyId) =>
      if HasActive(t.slots, journeyId)
      then exists k :: ActiveAt(t.slots, journeyId, k) && t' == Cancelled(routes, t, journeyId, k)
      else t' == t
    case Push(r) =>
      t' == Replicated(routes, t, r)
    case Look(_, _) =>
      t' == t
    case Store(_, r) =>
      t' == Inserted(routes, t, r)
  }
}
