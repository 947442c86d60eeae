/** One region node with its handlers running in parallel, split at every access to the booking
    table or to a road counter: Archive/services/booking_service.py, lines 29-212, and
    models/road_network.py, lines 89-110. */
module RegionThreads {
  import opened Collections
  import opened Trips
  import opened RegionTables

  type Handler = nat

  /** What a handler is asked to do. route: what the shortest-path search returns, or the part
      of the trip in this region for a HELD booking. */
  datatype Job =
    | Add(id: Id, trip: Trip, route: seq<City>, status: Status)   // book_journey, create_held_booking
    | Remove(id: Id, heldOnly: bool)                              // cancel_booking, abort_held_booking
    | Settle(id: Id)                                              // confirm_held_booking

  type Jobs = map<Handler, Job>

  datatype Stage =
    | Start
    | Looking(n: nat)                       // no conflict found; room found on the first n legs
    | Taking(n: nat)                        // the first n legs are reserved, the row is not inserted
    | Freeing(route: seq<City>, n: nat)     // the row was read live; its first n legs are released
    | Confirming                            // the row was read HELD
    | Finished

  datatype State = State(roads: map<Edge, Road>, bookings: map<Id, Booking>, stage: map<Handler, Stage>)

  /** Every new booking has an id of its own, and the path search visits no city twice. */
  ghost predicate Valid(jobs: Jobs) {
    && (forall h :: h in jobs && jobs[h].Add? ==> NoRepeats(jobs[h].route) && jobs[h].status != Cancelled)
    && (forall g, h :: g in jobs && h in jobs && g != h && jobs[g].Add? && jobs[h].Add? ==> jobs[g].id != jobs[h].id)
  }

  function Init(roads: map<Edge, Road>): State {
    State(roads, map[], map[])
  }

  function StageOf(s: State, h: Handler): Stage {
    if h in s.stage then s.stage[h] else Start
  }

  function Moved(s: State, h: Handler, to: Stage): State {
    s.(stage := s.stage[h := to])
  }

  /** Between its conflict check and its insert. */
  predicate Inserting(s: State, h: Handler) {
    StageOf(s, h).Looking? || StageOf(s, h).Taking?
  }

  /** book_journey works under the node's lock; create_held_booking does not ask for it. */
  predicate LockTaken(jobs: Jobs, s: State) {
    exists g :: g in jobs && jobs[g].Add? && jobs[g].status == Confirmed && Inserting(s, g)
  }

  predicate Full(roads: map<Edge, Road>, e: Edge) {
    e in roads && roads[e].bookings >= roads[e].capacity
  }

  function NextAdd(jobs: Jobs, s: State, h: Handler, job: Job): State
    requires job.Add?
  {
    var legs := Legs(job.route);
    match StageOf(s, h)
    case Start =>
      if job.status == Confirmed && LockTaken(jobs, s) then s
      else if Conflicts(s.bookings, job.trip) || (job.status == Confirmed && job.route == []) then Moved(s, h, Finished)
      else Moved(s, h, Looking(0))
    case Looking(n) =>
      if n >= |legs| then Moved(s, h, Taking(0))
      else if Full(s.roads, legs[n]) then Moved(s, h, Finished)
      else Moved(s, h, Looking(n + 1))
    case Taking(n) =>
      if n < |legs| then Moved(s, h, Taking(n + 1)).(roads := ReserveOne(s.roads, legs[n]))
      else Moved(s, h, Finished).(bookings := s.bookings[job.id := Booking(job.trip, job.status, job.route, 1)])
    case _ => s
  }

  function NextRemove(s: State, h: Handler, job: Job): State
    requires job.Remove?
  {
    match StageOf(s, h)
    case Start =>
      if job.id in s.bookings && (if job.heldOnly then s.bookings[job.id].status == Held else Live(s.bookings[job.id]))
      then Moved(s, h, Freeing(s.bookings[job.id].route, 0))
      else Moved(s, h, Finished)
    case Freeing(route, n) =>
      if n < |Legs(route)| then Moved(s, h, Freeing(route, n + 1)).(roads := ReleaseOne(s.roads, Legs(route)[n]))
      else if job.id in s.bookings then
        Moved(s, h, Finished).(bookings := WithStatus(s.bookings, job.id, Cancelled))
      else Moved(s, h, Finished)
    case _ => s
  }

  function NextSettle(s: State, h: Handler, job: Job): State
    requires job.Settle?
  {
    match StageOf(s, h)
    case Start =>
      Moved(s, h, if job.id in s.bookings && s.bookings[job.id].status == Held then Confirming else Finished)
    case Confirming =>
      if job.id in s.bookings then
        Moved(s, h, Finished).(bookings := WithStatus(s.bookings, job.id, Confirmed))
      else Moved(s, h, Finished)
    case _ => s
  }

  /** Handler h makes its next access. */
  function Next(jobs: Jobs, s: State, h: Handler): State {
    if h !in jobs then s
    else
      match jobs[h]
      case Add(_, _, _, _) => NextAdd(jobs, s, h, jobs[h])
      case Remove(_, _) => NextRemove(s, h, jobs[h])
      case Settle(_) => NextSettle(s, h, jobs[h])
  }

  /** The node after the handlers have moved in the given order. */
  function After(jobs: Jobs, roads: map<Edge, Road>, schedule: seq<Handler>): State {
    if schedule == [] then Init(roads)
    else Next(jobs, After(jobs, roads, schedule[..|schedule| - 1]), schedule[|schedule| - 1])
  }

  // ---- what always holds ---------------------------------------------------------------

  ghost predicate StageFits(jobs: Jobs, s: State, h: Handler)
    requires h in jobs
  {
    match jobs[h]
    case Add(id, _, route, _) =>
      && (StageOf(s, h) == Finished || id !in s.bookings)
      && (match StageOf(s, h)
          case Looking(n) => n <= |Legs(route)|
          case Taking(n) => n <= |Legs(route)|
          case Freeing(_, _) => false
          case Confirming => false
          case _ => true)
    case Remove(id, _) =>
      (match StageOf(s, h)
       case Freeing(route, n) => id in s.bookings && s.bookings[id].route == route && n <= |Legs(route)|
       case Start => true
       case Finished => true
       case _ => false)
    case Settle(id) =>
      (match StageOf(s, h)
       case Confirming => id in s.bookings
       case Start => true
       case Finished => true
       case _ => false)
  }

  ghost predicate Inv(jobs: Jobs, s: State) {
    && (forall h :: h in jobs ==> StageFits(jobs, s, h))
    && (forall id :: id in s.bookings ==> NoRepeats(s.bookings[id].route))
    && (forall e :: e in s.roads ==> s.roads[e].bookings >= 0)
  }

  // ---- who holds a road ------------------------------------------------------------------

  ghost predicate HasTaken(jobs: Jobs, s: State, h: Handler, e: Edge)
    requires h in jobs
  {
    jobs[h].Add? && StageOf(s, h).Taking? && StageOf(s, h).n <= |Legs(jobs[h].route)|
    && e in Legs(jobs[h].route)[..StageOf(s, h).n]
  }

  ghost predicate HasFreed(s: State, h: Handler, e: Edge) {
    StageOf(s, h).Freeing? && StageOf(s, h).n <= |Legs(StageOf(s, h).route)|
    && e in Legs(StageOf(s, h).route)[..StageOf(s, h).n]
  }

  /** Handlers that have reserved the road and not inserted their row yet. */
  ghost function Takers(jobs: Jobs, s: State, e: Edge): set<Handler> {
    set h | h in jobs && HasTaken(jobs, s, h, e)
  }

  /** Handlers that have released the road and not marked their row yet. */
  ghost function Freers(jobs: Jobs, s: State, e: Edge): set<Handler> {
    set h | h in jobs && HasFreed(s, h, e)
  }

  /** What the road's counter should show. */
  ghost function Owed(jobs: Jobs, s: State, e: Edge): int {
    |Users(s.bookings, e)| + |Takers(jobs, s, e)| - |Freers(jobs, s, e)|
  }

  ghost predicate Settled(jobs: Jobs, s: State) {
    forall e :: e in s.roads ==> s.roads[e].bookings == Owed(jobs, s, e)
  }

  // ---- the accesses that falsify a counter ------------------------------------------------

  /** A release that finds the counter at zero. */
  predicate ClampedRelease(jobs: Jobs, s: State, h: Handler, e: Edge) {
    && h in jobs && jobs[h].Remove? && StageOf(s, h).Freeing?
    && var Freeing(route, n) := StageOf(s, h);
       n < |Legs(route)| && Legs(route)[n] == e && e in s.roads && s.roads[e].bookings <= 0
  }

  predicate CancelledRow(s: State, id: Id) {
    id in s.bookings && s.bookings[id].status == Cancelled
  }

  /** A removal that marks a row another removal has marked since it was read. */
  predicate SecondMark(jobs: Jobs, s: State, h: Handler, e: Edge) {
    && h in jobs && jobs[h].Remove? && StageOf(s, h).Freeing?
    && StageOf(s, h).n >= |Legs(StageOf(s, h).route)| && e in Legs(StageOf(s, h).route)
    && CancelledRow(s, jobs[h].id)
  }

  /** A confirmation of a row that has been cancelled since it was read. */
  predicate Revival(jobs: Jobs, s: State, h: Handler, e: Edge) {
    && h in jobs && jobs[h].Settle? && StageOf(s, h).Confirming?
    && CancelledRow(s, jobs[h].id) && e in Legs(s.bookings[jobs[h].id].route)
  }

  function Slip(jobs: Jobs, s: State, h: Handler, e: Edge): int {
    if ClampedRelease(jobs, s, h, e) then 1
    else if SecondMark(jobs, s, h, e) || Revival(jobs, s, h, e) then -1
    else 0
  }

  /** How far the road's counter is off. */
  function Drift(jobs: Jobs, roads: map<Edge, Road>, schedule: seq<Handler>, e: Edge): int {
    if schedule == [] then 0
    else
      var front, h := schedule[..|schedule| - 1], schedule[|schedule| - 1];
      Drift(jobs, roads, front, e) + Slip(jobs, After(jobs, roads, front), h, e)
  }
}
