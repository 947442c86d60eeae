/** Two-phase commit between regions as a machine of atomic database and network steps:
    Archive/services/coordinator.py, booking_service.py and database/db.py. Messages may be
    lost or delayed; handlers of one node run in parallel, so a check and the insert that
    relies on it are separate steps. */
module TwoPhase {

  import opened Trips

  type Region = string

  /** A transaction between regions, or a booking one region makes by itself. */
  datatype Bid = Cross(txn: Id) | Local(id: Id)

  datatype Place = Place(region: Region, bid: Bid)

  /** regionOf: the region that owns each city, the same in every node's view. */
  datatype Config = Config(
    regionOf: map<City, Region>,
    trips: map<Bid, Trip>,
    homes: map<Id, Region>)       // region of each local booking
  {
    predicate Resolved(t: Id) {
      Cross(t) in trips && trips[Cross(t)].origin in regionOf && trips[Cross(t)].dest in regionOf
    }

    function Required(t: Id): set<Region>
      requires Resolved(t)
    {
      {regionOf[trips[Cross(t)].origin], regionOf[trips[Cross(t)].dest]}
    }
  }

  datatype Phase = Idle | Voting | Committed | Aborted

  datatype Message =
    | Prepare(at: Place)
    | Answer(at: Place, yes: bool)
    | Commit(at: Place)
    | Abort(at: Place)

  datatype State = State(
    phase: map<Id, Phase>,          // the coordinator's view of each transaction
    asked: set<Place>,              // PREPAREs sent
    votes: map<Place, bool>,        // the coordinator's votes
    net: set<Message>,
    checked: set<Place>,            // conflict check passed, row not inserted yet
    book: map<Place, Status>,       // bookings table of every node
    rows: set<Place>,               // held_transactions table of every node
    told: set<Place>,               // COMMIT or ABORT sent
    confirming: set<Place>,         // COMMIT handlers that have read a HELD booking
    aborting: set<Place>)           // ABORT handlers that have read a HELD booking

  function PhaseOf(s: State, t: Id): Phase {
    if t in s.phase then s.phase[t] else Idle
  }

  predicate Live(s: State, p: Place) {
    p in s.book && s.book[p] != Cancelled
  }

  /** check_conflict on one node: a HELD or CONFIRMED booking of the same trip too close in time. */
  ghost predicate ConflictAt(c: Config, s: State, p: Place)
    requires p.bid in c.trips
  {
    exists q: Place :: q.region == p.region && Live(s, q) && q.bid in c.trips && Clash(c.trips[q.bid], c.trips[p.bid])
  }

  predicate Init(s: State) {
    s == State(map[], {}, map[], {}, {}, map[], {}, {}, {}, {})
  }

  // ---- coordinator ------------------------------------------------------------------

  predicate Begin(c: Config, s: State, t: Id, s': State) {
    && c.Resolved(t) && PhaseOf(s, t) == Idle
    && s' == s.(phase := s.phase[t := Voting])
  }

  /** A PREPARE goes out; the coordinator's own prepare takes the same path. */
  predicate Ask(c: Config, s: State, t: Id, r: Region, s': State) {
    var p := Place(r, Cross(t));
    && c.Resolved(t) && PhaseOf(s, t) == Voting && r in c.Required(t) && p !in s.asked
    && s' == s.(asked := s.asked + {p}, net := s.net + {Prepare(p)})
  }

  predicate TakeAnswer(c: Config, s: State, p: Place, yes: bool, s': State) {
    && p.bid.Cross? && PhaseOf(s, p.bid.txn) == Voting && p in s.asked && p !in s.votes
    && Answer(p, yes) in s.net
    && s' == s.(votes := s.votes[p := yes], net := s.net - {Answer(p, yes)})
  }

  /** No answer in time, or an unreachable participant, counts as NO. */
  predicate TimeOut(c: Config, s: State, p: Place, s': State) {
    && p.bid.Cross? && PhaseOf(s, p.bid.txn) == Voting && p in s.asked && p !in s.votes
    && s' == s.(votes := s.votes[p := false])
  }

  ghost predicate AllYes(c: Config, s: State, t: Id)
    requires c.Resolved(t)
  {
    forall r :: r in c.Required(t) ==> Place(r, Cross(t)) in s.votes && s.votes[Place(r, Cross(t))]
  }

  ghost predicate AllVoted(c: Config, s: State, t: Id)
    requires c.Resolved(t)
  {
    forall r :: r in c.Required(t) ==> Place(r, Cross(t)) in s.votes
  }

  ghost predicate Decide(c: Config, s: State, t: Id, s': State) {
    && c.Resolved(t) && PhaseOf(s, t) == Voting && AllVoted(c, s, t)
    && s' == s.(phase := s.phase[t := if AllYes(c, s, t) then Committed else Aborted])
  }

  /** Once to each region. */
  predicate SendOutcome(c: Config, s: State, t: Id, r: Region, s': State) {
    var p := Place(r, Cross(t));
    && c.Resolved(t) && r in c.Required(t) && p !in s.told
    && (PhaseOf(s, t) == Committed || PhaseOf(s, t) == Aborted)
    && s' == s.(net := s.net + {if PhaseOf(s, t) == Committed then Commit(p) else Abort(p)}, told := s.told + {p})
  }

  // ---- participant ------------------------------------------------------------------

  /** PREPARE, first access: no conflict found. */
  ghost predicate PassCheck(c: Config, s: State, p: Place, s': State) {
    && Prepare(p) in s.net && p.bid in c.trips && !ConflictAt(c, s, p)
    && s' == s.(net := s.net - {Prepare(p)}, checked := s.checked + {p})
  }

  /** PREPARE refused: a conflict, or a road at capacity. */
  predicate RefuseCheck(c: Config, s: State, p: Place, s': State) {
    && Prepare(p) in s.net
    && s' == s.(net := s.net - {Prepare(p)} + {Answer(p, false)})
  }

  /** PREPARE, second access: the HELD booking is inserted. */
  predicate InsertHeld(c: Config, s: State, p: Place, s': State) {
    && p in s.checked && p.bid.Cross?
    && s' == s.(checked := s.checked - {p}, book := s.book[p := Held])
  }

  /** PREPARE, third access: the transaction row, then the YES vote. */
  predicate RecordHeld(c: Config, s: State, p: Place, s': State) {
    && p in s.book && p.bid.Cross? && p !in s.rows
    && s' == s.(rows := s.rows + {p}, net := s.net + {Answer(p, true)})
  }

  predicate IsHeld(s: State, p: Place) {
    p in s.rows && p in s.book && s.book[p] == Held
  }

  /** COMMIT, first access: the booking is read. */
  predicate ReadForCommit(c: Config, s: State, p: Place, s': State) {
    && Commit(p) in s.net
    && s' == s.(net := s.net - {Commit(p)}, confirming := s.confirming + if IsHeld(s, p) then {p} else {})
  }

  /** COMMIT, second access: CONFIRMED is written, whatever the booking is by now. */
  predicate WriteConfirmed(c: Config, s: State, p: Place, s': State) {
    && p in s.confirming
    && s' == s.(confirming := s.confirming - {p}, book := if p in s.book then s.book[p := Confirmed] else s.book)
  }

  predicate ReadForAbort(c: Config, s: State, p: Place, s': State) {
    && Abort(p) in s.net
    && s' == s.(net := s.net - {Abort(p)}, aborting := s.aborting + if IsHeld(s, p) then {p} else {})
  }

  predicate WriteAborted(c: Config, s: State, p: Place, s': State) {
    && p in s.aborting
    && s' == s.(aborting := s.aborting - {p}, book := if p in s.book then s.book[p := Cancelled] else s.book)
  }

  predicate Lose(s: State, m: Message, s': State) {
    s' == s.(net := s.net - {m})
  }

  // ---- a region's own bookings --------------------------------------------------------

  /** book_journey holds the node's booking lock from its check to its insert. */
  ghost predicate LocalCheck(c: Config, s: State, p: Place, s': State) {
    && p.bid.Local? && p.bid in c.trips && p.bid.id in c.homes && c.homes[p.bid.id] == p.region
    && p !in s.book && !ConflictAt(c, s, p)
    && (forall q :: q in s.checked && q.region == p.region ==> !q.bid.Local?)
    && s' == s.(checked := s.checked + {p})
  }

  predicate LocalInsert(c: Config, s: State, p: Place, s': State) {
    && p in s.checked && p.bid.Local?
    && s' == s.(checked := s.checked - {p}, book := s.book[p := Confirmed])
  }

  /** A user cancels a booking; any booking that is not cancelled yet can be. */
  predicate UserCancel(s: State, p: Place, s': State) {
    Live(s, p) && s' == s.(book := s.book[p := Cancelled])
  }

  // ---- runs ----------------------------------------------------------------------------

  datatype Event =
    | EBegin(t: Id)
    | EAsk(t: Id, r: Region)
    | ETakeAnswer(p: Place, yes: bool)
    | ETimeOut(p: Place)
    | EDecide(t: Id)
    | ESend(t: Id, r: Region)
    | EPass(p: Place)
    | ERefuse(p: Place)
    | EInsert(p: Place)
    | ERecord(p: Place)
    | EReadCommit(p: Place)
    | EConfirm(p: Place)
    | EReadAbort(p: Place)
    | EAbort(p: Place)
    | ELose(m: Message)
    | ELocalCheck(p: Place)
    | ELocalInsert(p: Place)
    | EUserCancel(p: Place)

  ghost predicate Step(c: Config, s: State, e: Event, s': State) {
    match e
    case EBegin(t) => Begin(c, s, t, s')
    case EAsk(t, r) => Ask(c, s, t, r, s')
    case ETakeAnswer(p, yes) => TakeAnswer(c, s, p, yes, s')
    case ETimeOut(p) => TimeOut(c, s, p, s')
    case EDecide(t) => Decide(c, s, t, s')
    case ESend(t, r) => SendOutcome(c, s, t, r, s')
    case EPass(p) => PassCheck(c, s, p, s')
    case ERefuse(p) => RefuseCheck(c, s, p, s')
    case EInsert(p) => InsertHeld(c, s, p, s')
    case ERecord(p) => RecordHeld(c, s, p, s')
    case EReadCommit(p) => ReadForCommit(c, s, p, s')
    case EConfirm(p) => WriteConfirmed(c, s, p, s')
    case EReadAbort(p) => ReadForAbort(c, s, p, s')
    case EAbort(p) => WriteAborted(c, s, p, s')
    case ELose(m) => Lose(s, m, s')
    case ELocalCheck(p) => LocalCheck(c, s, p, s')
    case ELocalInsert(p) => LocalInsert(c, s, p, s')
    case EUserCancel(p) => UserCancel(s, p, s')
  }

  ghost predicate IsRun(c: Config, ss: seq<State>, es: seq<Event>) {
    && |ss| == |es| + 1 && Init(ss[0])
    && forall i :: 0 <= i < |es| ==> Step(c, ss[i], es[i], ss[i + 1])
  }

  /** No user has cancelled up to state n. */
  ghost predicate NoUserCancel(es: seq<Event>, n: nat) {
    forall i :: 0 <= i < n && i < |es| ==> !es[i].EUserCancel?
  }
}
