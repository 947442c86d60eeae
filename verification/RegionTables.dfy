/** One region node's bookings, 2PC rows and road counters as values:
    Archive/services/booking_service.py, models/road_network.py and database/db.py. */
module RegionTables {
  import opened Collections
  import opened Trips

  /** An undirected road between two cities. */
  type Edge = set<City>

  datatype Road = Road(capacity: int, bookings: int)

  datatype Booking = Booking(trip: Trip, status: Status, route: seq<City>, version: int)

  datatype Tables = Tables(
    roads: map<Edge, Road>,
    bookings: map<Id, Booking>,
    held: map<Id, Id>)            // transaction id to booking id

  /** path: what the shortest-path search returned, [] for none. */
  datatype Op =
    | Book(id: Id, trip: Trip, path: seq<City>)
    | Cancel(id: Id)
    | Prepare(txn: Id, id: Id, trip: Trip, path: seq<City>)
    | Commit(txn: Id)
    | Abort(txn: Id)
    | ConfirmOwn(id: Id)        // the coordinator settles its own HELD booking by id
    | AbortOwn(id: Id)

  // ---- roads ---------------------------------------------------------------------------

  function Leg(path: seq<City>, i: nat): Edge
    requires i < |path| - 1
  {
    {path[i], path[i + 1]}
  }

  function Legs(path: seq<City>): seq<Edge> {
    if |path| < 2 then [] else seq(|path| - 1, i requires 0 <= i < |path| - 1 => Leg(path, i))
  }

  function ReserveOne(roads: map<Edge, Road>, e: Edge): map<Edge, Road> {
    if e in roads then roads[e := roads[e].(bookings := roads[e].bookings + 1)] else roads
  }

  function ReleaseOne(roads: map<Edge, Road>, e: Edge): map<Edge, Road> {
    if e !in roads then roads
    else roads[e := roads[e].(bookings := if roads[e].bookings - 1 > 0 then roads[e].bookings - 1 else 0)]
  }

  function Reserve(roads: map<Edge, Road>, legs: seq<Edge>): map<Edge, Road> {
    if legs == [] then roads else ReserveOne(Reserve(roads, legs[..|legs| - 1]), legs[|legs| - 1])
  }

  function Release(roads: map<Edge, Road>, legs: seq<Edge>): map<Edge, Road> {
    if legs == [] then roads else ReleaseOne(Release(roads, legs[..|legs| - 1]), legs[|legs| - 1])
  }

  predicate HasRoom(roads: map<Edge, Road>, legs: seq<Edge>) {
    forall e :: e in legs && e in roads ==> roads[e].bookings < roads[e].capacity
  }

  // ---- bookings --------------------------------------------------------------------------

  predicate Live(b: Booking) {
    b.status != Cancelled
  }

  predicate Conflicts(bookings: map<Id, Booking>, trip: Trip) {
    exists id :: id in bookings && Live(bookings[id]) && Clash(bookings[id].trip, trip)
  }

  /** The part of the trip that lies in this region. */
  function HeldRoute(cities: set<City>, trip: Trip, path: seq<City>): seq<City> {
    if trip.origin in cities && trip.dest in cities then path
    else if trip.origin in cities then [trip.origin]
    else if trip.dest in cities then [trip.dest]
    else []
  }

  function WithStatus(bookings: map<Id, Booking>, id: Id, status: Status): map<Id, Booking>
    requires id in bookings
  {
    var b := bookings[id];
    bookings[id := b.(status := status, version := b.version + 1)]
  }

  function SetStatus(t: Tables, id: Id, status: Status): Tables
    requires id in t.bookings
  {
    t.(bookings := WithStatus(t.bookings, id, status))
  }

  function Insert(t: Tables, id: Id, b: Booking): Tables {
    t.(roads := Reserve(t.roads, Legs(b.route)), bookings := t.bookings[id := b])
  }

  function Confirm(t: Tables, id: Id): Tables {
    if id in t.bookings && t.bookings[id].status == Held then SetStatus(t, id, Confirmed) else t
  }

  /** Gives the road back and cancels. */
  function Drop(t: Tables, id: Id): Tables
    requires id in t.bookings
  {
    SetStatus(t.(roads := Release(t.roads, Legs(t.bookings[id].route))), id, Cancelled)
  }

  function AbortHeld(t: Tables, id: Id): Tables {
    if id in t.bookings && t.bookings[id].status == Held then Drop(t, id) else t
  }

  /** A booking id is new when a booking is made. */
  predicate Fresh(t: Tables, op: Op) {
    (op.Book? || op.Prepare?) ==> op.id !in t.bookings
  }

  /** The whole effect of one request that nothing interrupts. */
  function Apply(cities: set<City>, t: Tables, op: Op): Tables {
    match op
    case Book(id, trip, path) =>
      if trip.origin in cities && trip.dest in cities && !Conflicts(t.bookings, trip)
         && path != [] && HasRoom(t.roads, Legs(path))
      then Insert(t, id, Booking(trip, Confirmed, path, 1))
      else t
    case Cancel(id) =>
      if id in t.bookings && Live(t.bookings[id]) then Drop(t, id) else t
    case Prepare(txn, id, trip, path) =>
      var route := HeldRoute(cities, trip, path);
      if !Conflicts(t.bookings, trip) && HasRoom(t.roads, Legs(route))
      then Insert(t, id, Booking(trip, Held, route, 1)).(held := t.held[txn := id])
      else t
    case Commit(txn) =>
      if txn in t.held then Confirm(t, t.held[txn]) else t
    case Abort(txn) =>
      if txn in t.held then AbortHeld(t, t.held[txn]) else t
    case ConfirmOwn(id) => Confirm(t, id)
    case AbortOwn(id) => AbortHeld(t, id)
  }

  // ---- the counters index the bookings ---------------------------------------------------

  predicate Uses(b: Booking, e: Edge) {
    Live(b) && e in Legs(b.route)
  }

  function Users(bookings: map<Id, Booking>, e: Edge): set<Id> {
    set id | id in bookings && Uses(bookings[id], e)
  }

  /** Every road counts the live bookings whose route takes it, and is within capacity. */
  ghost predicate Exact(t: Tables) {
    && (forall e :: e in t.roads ==> t.roads[e].bookings == |Users(t.bookings, e)|)
    && (forall e :: e in t.roads ==> t.roads[e].bookings <= t.roads[e].capacity)
    && (forall id :: id in t.bookings ==> NoRepeats(t.bookings[id].route))
  }

  /** No two live bookings of one trip within the window. */
  ghost predicate NoClash(t: Tables) {
    forall i, j :: i in t.bookings && j in t.bookings && i != j && Live(t.bookings[i]) && Live(t.bookings[j]) ==>
      !Clash(t.bookings[i].trip, t.bookings[j].trip)
  }

  /** The shortest-path search returns a path that visits no city twice. */
  ghost predicate SimplePath(op: Op) {
    (op.Book? || op.Prepare?) ==> NoRepeats(op.path)
  }
}
