/** The distributed e-mail lock and registration as a machine of atomic steps:
    user-service/app/replication.py, internal_routes.py, routes.py and service.py.
    Requests on all nodes interleave at every database or lock-table access. */
module EmailLock {
  import opened Collections

  type Node = nat
  type Pid = nat
  type Email = string

  /** One call of register: the node that serves it and the (lower-case) address. */
  datatype Request = Request(home: Node, email: Email)

  /** A fixed full mesh: every node lists all the others as peers, in some order. */
  datatype Config = Config(nodes: set<Node>, peers: map<Node, seq<Node>>, requests: map<Pid, Request>)
  {
    predicate Valid() {
      forall p :: p in requests ==> requests[p].home in peers
    }

    ghost predicate Mesh() {
      && Valid() && nodes == peers.Keys
      && (forall n :: n in nodes ==>
            NoRepeats(peers[n]) && forall m :: m in peers[n] <==> m in nodes && m != n)
    }

    function Home(p: Pid): Node
      requires p in requests
    {
      requests[p].home
    }

    function Address(p: Pid): Email
      requires p in requests
    {
      requests[p].email
    }

    function Peers(p: Pid): seq<Node>
      requires p in requests && Home(p) in peers
    {
      peers[Home(p)]
    }

    /** The nodes whose keys the request takes, and gives back, in this order. */
    function Targets(p: Pid): seq<Node>
      requires p in requests && Home(p) in peers
    {
      [Home(p)] + Peers(p)
    }
  }

  datatype Lock = Lock(node: Node, email: Email)

  datatype Phase =
    | Idle                                  // nothing done yet
    | Locking(asked: nat)                   // own key set; the first asked peers accepted
    | Checked(asked: nat)                   // the next peer saw no such user; its key is not set yet
    | RollingBack(taken: nat, freed: nat)   // a peer refused after taken acceptances
    | Releasing(freed: nat)                 // registered or refused by the own database
    | Done

  /** Keys carry their owner only for the proof: no step looks at it. */
  datatype State = State(
    phase: map<Pid, Phase>,
    keys: map<Lock, Pid>,
    users: map<Lock, Pid>,     // user row per node and address, with the request it came from
    committed: set<Pid>)       // requests whose own database accepted the user

  predicate Init(c: Config, s: State) {
    && s.phase.Keys == c.requests.Keys
    && (forall p :: p in s.phase ==> s.phase[p] == Idle)
    && s.keys == map[] && s.users == map[] && s.committed == {}
  }

  function Moved(s: State, p: Pid, to: Phase): State {
    s.(phase := s.phase[p := to])
  }

  // ---- the steps of one request ------------------------------------------------------

  /** SET NX on the own node. */
  predicate TakeLocal(c: Config, s: State, p: Pid, s': State)
    requires p in c.requests && p in s.phase
  {
    var own := Lock(c.Home(p), c.Address(p));
    && s.phase[p] == Idle
    && s' == if own in s.keys then Moved(s, p, Done)
             else Moved(s, p, Locking(0)).(keys := s.keys[own := p])
  }

  /** First half of the peer's handler: is the address already registered there? */
  predicate PeerCheck(c: Config, s: State, p: Pid, s': State)
    requires p in c.requests && p in s.phase && c.Home(p) in c.peers
  {
    && s.phase[p].Locking? && s.phase[p].asked < |c.Peers(p)|
    && var i := s.phase[p].asked;
       s' == if Lock(c.Peers(p)[i], c.Address(p)) in s.users then Moved(s, p, RollingBack(i, 0))
             else Moved(s, p, Checked(i))
  }

  /** Second half of the peer's handler: SET NX on the peer. */
  predicate PeerSet(c: Config, s: State, p: Pid, s': State)
    requires p in c.requests && p in s.phase && c.Home(p) in c.peers
  {
    && s.phase[p].Checked? && s.phase[p].asked < |c.Peers(p)|
    && var i := s.phase[p].asked;
       var key := Lock(c.Peers(p)[i], c.Address(p));
       s' == if key in s.keys then Moved(s, p, RollingBack(i, 0))
             else Moved(s, p, Locking(i + 1)).(keys := s.keys[key := p])
  }

  predicate HoldsLock(c: Config, s: State, p: Pid)
    requires p in c.requests && p in s.phase && c.Home(p) in c.peers
  {
    s.phase[p] == Locking(|c.Peers(p)|)
  }

  /** The own database accepts the user: address (and licence) are new there. */
  predicate Commit(c: Config, s: State, p: Pid, s': State)
    requires p in c.requests && p in s.phase && c.Home(p) in c.peers
  {
    var own := Lock(c.Home(p), c.Address(p));
    && HoldsLock(c, s, p) && own !in s.users
    && s' == Moved(s, p, Releasing(0)).(users := s.users[own := p], committed := s.committed + {p})
  }

  /** The own database refuses: known address, known licence, or any error. */
  predicate Refuse(c: Config, s: State, p: Pid, s': State)
    requires p in c.requests && p in s.phase && c.Home(p) in c.peers
  {
    HoldsLock(c, s, p) && s' == Moved(s, p, Releasing(0))
  }

  /** Delete of one key, own node first; no delete looks at the owner. */
  predicate RollBackOne(c: Config, s: State, p: Pid, s': State)
    requires p in c.requests && p in s.phase && c.Home(p) in c.peers
  {
    && s.phase[p].RollingBack? && s.phase[p].freed <= s.phase[p].taken <= |c.Peers(p)|
    && var RollingBack(m, i) := s.phase[p];
       s' == Moved(s, p, if i == m then Done else RollingBack(m, i + 1))
             .(keys := s.keys - {Lock(c.Targets(p)[i], c.Address(p))})
  }

  predicate ReleaseOne(c: Config, s: State, p: Pid, s': State)
    requires p in c.requests && p in s.phase && c.Home(p) in c.peers
  {
    && s.phase[p].Releasing? && s.phase[p].freed <= |c.Peers(p)|
    && var i := s.phase[p].freed;
       s' == Moved(s, p, if i == |c.Peers(p)| then Done else Releasing(i + 1))
             .(keys := s.keys - {Lock(c.Targets(p)[i], c.Address(p))})
  }

  /** A push after registration or a catch-up sync: node `to` takes over a row that node
      `from` has, unless it knows the address already. */
  predicate CopyUser(c: Config, s: State, from: Node, to: Node, email: Email, s': State) {
    && from in c.nodes && to in c.nodes
    && Lock(from, email) in s.users
    && s' == if Lock(to, email) in s.users then s
             else s.(users := s.users[Lock(to, email) := s.users[Lock(from, email)]])
  }

  ghost predicate RequestStep(c: Config, s: State, p: Pid, s': State)
    requires c.Valid() && p in c.requests && p in s.phase
  {
    || TakeLocal(c, s, p, s')
    || PeerCheck(c, s, p, s')
    || PeerSet(c, s, p, s')
    || Commit(c, s, p, s')
    || Refuse(c, s, p, s')
    || RollBackOne(c, s, p, s')
    || ReleaseOne(c, s, p, s')
  }

  ghost predicate Next(c: Config, s: State, s': State)
    requires c.Valid()
  {
    || (exists p :: p in c.requests && p in s.phase && RequestStep(c, s, p, s'))
    || (exists from, to, email :: CopyUser(c, s, from, to, email, s'))
  }

  ghost predicate IsRun(c: Config, run: seq<State>)
    requires c.Valid()
  {
    run != [] && Init(c, run[0]) && forall i :: 0 <= i < |run| - 1 ==> Next(c, run[i], run[i + 1])
  }

  // ---- what holds in every reachable state ------------------------------------------------

  /** The stretch of Targets(p) whose keys the request holds. */
  function HeldFrom(ph: Phase): nat {
    match ph
    case RollingBack(_, freed) => freed
    case Releasing(freed) => freed
    case _ => 0
  }

  function HeldTo(c: Config, ph: Phase, p: Pid): nat
    requires p in c.requests && c.Home(p) in c.peers
  {
    match ph
    case Locking(asked) => asked + 1
    case Checked(asked) => asked + 1
    case RollingBack(taken, _) => taken + 1
    case Releasing(_) => |c.Peers(p)| + 1
    case _ => 0
  }

  ghost function Slice(targets: seq<Node>, from: nat, to: nat): set<Node> {
    set i | 0 <= i < |targets| && from <= i < to :: targets[i]
  }

  ghost function Held(c: Config, ph: Phase, p: Pid): set<Node>
    requires p in c.requests && c.Home(p) in c.peers
  {
    Slice(c.Targets(p), HeldFrom(ph), HeldTo(c, ph, p))
  }

  predicate InRange(c: Config, ph: Phase, p: Pid)
    requires p in c.requests && c.Home(p) in c.peers
  {
    var n := |c.Peers(p)|;
    match ph
    case Locking(asked) => asked <= n
    case Checked(asked) => asked < n
    case RollingBack(taken, freed) => freed <= taken < n
    case Releasing(freed) => freed <= n
    case _ => true
  }

  ghost predicate PhasesOk(c: Config, s: State)
    requires c.Valid()
  {
    && s.phase.Keys == c.requests.Keys
    && forall p :: p in s.phase ==> InRange(c, s.phase[p], p)
  }

  ghost function Addresses(c: Config): map<Pid, Email> {
    map p | p in c.requests :: c.requests[p].email
  }

  ghost function AllHeld(c: Config, phase: map<Pid, Phase>): map<Pid, set<Node>>
    requires c.Valid() && phase.Keys == c.requests.Keys
  {
    map p | p in phase :: Held(c, phase[p], p)
  }

  predicate OwnsKey(keys: map<Lock, Pid>, key: Lock, p: Pid) {
    key in keys && keys[key] == p
  }

  /** Every key that is set belongs to exactly one request, for that request's address, and
      a request owns exactly the keys it has taken and not yet given back. */
  ghost predicate Exact(emails: map<Pid, Email>, held: map<Pid, set<Node>>, keys: map<Lock, Pid>) {
    && emails.Keys == held.Keys
    && (forall k :: k in keys ==> keys[k] in emails && emails[keys[k]] == k.email)
    && (forall p, n :: p in held ==> (OwnsKey(keys, Lock(n, emails[p]), p) <==> n in held[p]))
  }

  ghost predicate KeysOwned(c: Config, s: State)
    requires c.Valid() && PhasesOk(c, s)
  {
    Exact(Addresses(c), AllHeld(c, s.phase), s.keys)
  }

  ghost predicate RowsTraced(c: Config, s: State)
    requires c.Valid() && PhasesOk(c, s)
  {
    && s.committed <= s.phase.Keys
    && (forall k :: k in s.users ==> s.users[k] in s.committed && c.Address(s.users[k]) == k.email)
    && (forall p :: p in s.committed ==>
          (s.phase[p].Releasing? || s.phase[p].Done?) && OwnsKey(s.users, Lock(c.Home(p), c.Address(p)), p))
  }

  /** Peers whose check the request has passed. */
  function PassedChecks(ph: Phase): nat {
    match ph
    case Locking(asked) => asked
    case Checked(asked) => asked + 1
    case _ => 0
  }

  /** A request that is still collecting keys has not been let past the node where its
      address was registered. */
  ghost predicate StoppedAtOrigin(c: Config, s: State, p: Pid, q: Pid)
    requires c.Valid() && PhasesOk(c, s) && p in s.phase && q in s.phase
  {
    forall i :: 0 <= i < PassedChecks(s.phase[q]) ==> c.Peers(q)[i] != c.Home(p)
  }

  ghost predicate OneOrigin(c: Config, s: State)
    requires c.Valid() && PhasesOk(c, s) && RowsTraced(c, s)
  {
    && (forall p, q :: p in s.committed && q in s.committed && c.Address(p) == c.Address(q) ==> p == q)
    && (forall p, q :: p in s.committed && q in s.phase && q != p && c.Address(p) == c.Address(q) ==>
          StoppedAtOrigin(c, s, p, q))
  }

  ghost predicate Inv(c: Config, s: State)
    requires c.Valid()
  {
    PhasesOk(c, s) && KeysOwned(c, s) && RowsTraced(c, s) && OneOrigin(c, s)
  }
}
