/** Merging replicated bookings by version: Archive/services/replication.py, lines 109-131,
    with update_booking_status of Archive/database/db.py, lines 110-118. An applied update
    raises the local version by one; it does not copy the incoming version. The row is read in
    one statement and written in another, without a lock, by handlers that run in parallel. */
module VersionMerge {
  import opened Trips

  datatype Row = Row(version: int, status: Status)

  type Rows = map<Id, Row>

  datatype Incoming = Incoming(id: Id, row: Row)

  /** A delivery that nothing interrupts. */
  function Merge(local: Row, incoming: Row): Row {
    if incoming.version > local.version then Row(local.version + 1, incoming.status) else local
  }

  function Apply(rows: Rows, m: Incoming): Rows {
    rows[m.id := if m.id in rows then Merge(rows[m.id], m.row) else m.row]
  }

  predicate Changes(rows: Rows, m: Incoming) {
    m.id !in rows || m.row.version > rows[m.id].version
  }

  function ApplyAll(rows: Rows, ms: seq<Incoming>): Rows {
    if ms == [] then rows else Apply(ApplyAll(rows, ms[..|ms| - 1]), ms[|ms| - 1])
  }

  function Applied(rows: Rows, ms: seq<Incoming>): nat {
    if ms == [] then 0
    else Applied(rows, ms[..|ms| - 1]) + if Changes(ApplyAll(rows, ms[..|ms| - 1]), ms[|ms| - 1]) then 1 else 0
  }

  /** An unknown booking is stored as it is, a newer one raises the row's version by one and brings
      its status, any other row stays. */
  ghost predicate Arrived(before: Rows, m: Incoming, after: Rows) {
    && m.id in after
    && (m.id !in before ==> after[m.id] == m.row)
    && (m.id in before && m.row.version > before[m.id].version ==>
          after[m.id] == Row(before[m.id].version + 1, m.row.status))
    && (m.id in before && m.row.version <= before[m.id].version ==> after[m.id] == before[m.id])
  }

  ghost predicate SameAt(before: Rows, after: Rows, id: Id) {
    (id in after <==> id in before) && (id in before ==> after[id] == before[id])
  }

  /** The first n bookings have arrived, and no other row has changed. */
  ghost predicate AllArrived(before: Rows, bookings: seq<Incoming>, n: nat, after: Rows)
    requires n <= |bookings|
  {
    && (forall i :: 0 <= i < n ==> Arrived(before, bookings[i], after))
    && (forall id :: (forall i :: 0 <= i < n ==> bookings[i].id != id) ==> SameAt(before, after, id))
  }

  /** Those of the first n bookings that are unknown or newer. */
  ghost function News(before: Rows, bookings: seq<Incoming>, n: nat): set<int>
    requires n <= |bookings|
  {
    set i | 0 <= i < n && (bookings[i].id !in before || bookings[i].row.version > before[bookings[i].id].version)
  }

  ghost predicate OneOfEach(bookings: seq<Incoming>) {
    forall i, j :: 0 <= i < j < |bookings| ==> bookings[i].id != bookings[j].id
  }

  lemma OneNewsMore(before: Rows, bookings: seq<Incoming>, n: nat, rows: Rows)
    requires n < |bookings| && SameAt(before, rows, bookings[n].id)
    ensures |News(before, bookings, n + 1)| == |News(before, bookings, n)| + if Changes(rows, bookings[n]) then 1 else 0
  {
    assert News(before, bookings, n + 1) == News(before, bookings, n) + if Changes(rows, bookings[n]) then {n} else {};
  }

  lemma OneArrival(before: Rows, bookings: seq<Incoming>, n: nat, rows: Rows)
    requires n < |bookings| && OneOfEach(bookings) && AllArrived(before, bookings, n, rows)
    ensures AllArrived(before, bookings, n + 1, Apply(rows, bookings[n]))
    ensures SameAt(before, rows, bookings[n].id)
  {
    var m, after := bookings[n], Apply(rows, bookings[n]);
    assert SameAt(before, rows, m.id);
    assert Arrived(before, m, after);
    forall i | 0 <= i < n ensures Arrived(before, bookings[i], after) {
      assert bookings[i].id != m.id;
    }
    forall id | forall i :: 0 <= i < n + 1 ==> bookings[i].id != id ensures SameAt(before, after, id) {
      assert bookings[n].id != id;
      assert SameAt(before, rows, id);
    }
  }

  class Replica {
    var rows: Rows

    constructor ()
      ensures rows == map[]
    {
      rows := map[];
    }

    /** The one statement reads nothing but the row's version, whoever has written it since. */
    method UpdateBookingStatus(id: Id, status: Status)
      requires id in rows
      modifies this
      ensures rows == old(rows)[id := Row(old(rows)[id].version + 1, status)]
    {
      rows := rows[id := Row(rows[id].version + 1, status)];
    }

    /** All bookings of one message, with no other handler in between. */
    method ApplyIncoming(bookings: seq<Incoming>) returns (applied: nat)
      modifies this
      ensures rows == ApplyAll(old(rows), bookings)
      ensures applied == Applied(old(rows), bookings)
      ensures OneOfEach(bookings) ==>
        && AllArrived(old(rows), bookings, |bookings|, rows)
        && applied == |News(old(rows), bookings, |bookings|)|
    {
      applied := 0;
      for i := 0 to |bookings|
        invariant rows == ApplyAll(old(rows), bookings[..i])
        invariant applied == Applied(old(rows), bookings[..i])
        invariant OneOfEach(bookings) ==> AllArrived(old(rows), bookings, i, rows)
        invariant OneOfEach(bookings) ==> applied == |News(old(rows), bookings, i)|
      {
        if OneOfEach(bookings) {
          OneArrival(old(rows), bookings, i, rows);
          OneNewsMore(old(rows), bookings, i, rows);
        }
        hide AllArrived;
        hide News;
        hide OneOfEach;
        var m := bookings[i];
        assert bookings[..i + 1][..i] == bookings[..i];
        if m.id in rows {
          if m.row.version > rows[m.id].version {
            UpdateBookingStatus(m.id, m.row.status);
            applied := applied + 1;
          } else {
            assert rows[m.id := rows[m.id]] == rows;
          }
        } else {
          rows := rows[m.id := m.row];
          applied := applied + 1;
        }
      }
      assert bookings[..|bookings|] == bookings;
    }
  }

  // ---- one booking, one writer, any gossip -------------------------------------------------

  /** The node whose handlers book, confirm and cancel the booking. */
  const WRITER: nat := 0

  /** A handler that has read the row of its node and is going to write m to it. */
  datatype Work = Work(n: nat, m: Row, absent: bool)

  /** history[v - 1] is the status the writer gave version v; rows holds the writer's row too. */
  datatype System = System(history: seq<Status>, rows: map<nat, Row>, sent: set<Row>, work: map<nat, Work>)

  const INIT: System := System([], map[], {}, map[])

  datatype Event =
    | Write(status: Status)          // the writer books, confirms or cancels
    | Send(n: nat)
    | Read(h: nat, n: nat, m: Row)   // handler h of node n compares m with the stored row
    | Finish(h: nat)                 // and writes

  function Latest(s: System): Row
    requires s.history != []
  {
    Row(|s.history|, s.history[|s.history| - 1])
  }

  predicate Enabled(s: System, e: Event) {
    match e
    case Write(_) => true
    case Send(n) => n in s.rows
    case Read(h, _, m) => m in s.sent && h !in s.work
    case Finish(h) => h in s.work
  }

  function NextRow(s: System, n: nat, status: Status): Row {
    if n in s.rows then Row(s.rows[n].version + 1, status) else Row(1, status)
  }

  /** Anything ever sent may arrive anywhere, at any time, more than once, and overlapping. */
  function Next(s: System, e: Event): System
    requires Enabled(s, e)
  {
    match e
    case Write(status) =>
      s.(history := s.history + [status], rows := s.rows[WRITER := NextRow(s, WRITER, status)])
    case Send(n) => s.(sent := s.sent + {s.rows[n]})
    case Read(h, n, m) =>
      if n in s.rows && m.version <= s.rows[n].version then s
      else s.(work := s.work[h := Work(n, m, n !in s.rows)])
    case Finish(h) =>
      var Work(n, m, absent) := s.work[h];
      var done := s.(work := s.work - {h});
      if absent then
        if n in s.rows then done    // the primary key refuses a second row
        else done.(rows := s.rows[n := m])
      else done.(rows := s.rows[n := NextRow(s, n, m.status)])
  }

  ghost predicate IsRun(ss: seq<System>, es: seq<Event>) {
    && |ss| == |es| + 1 && ss[0] == INIT
    && forall i :: 0 <= i < |es| ==> Enabled(ss[i], es[i]) && ss[i + 1] == Next(ss[i], es[i])
  }

  /** A read and its write, if it comes to one, with nothing in between. */
  function Delivered(s: System, h: nat, n: nat, m: Row): System
    requires Enabled(s, Read(h, n, m))
  {
    var read := Next(s, Read(h, n, m));
    if h in read.work then Next(read, Finish(h)) else read
  }

  lemma UninterruptedIsMerge(s: System, h: nat, n: nat, m: Row)
    requires Enabled(s, Read(h, n, m))
    ensures Delivered(s, h, n, m) == s.(rows := s.rows[n := if n in s.rows then Merge(s.rows[n], m) else m])
  {
    if h in Next(s, Read(h, n, m)).work {
      assert s.work[h := Work(n, m, n !in s.rows)] - {h} == s.work;
    } else {
      assert s.rows[n := s.rows[n]] == s.rows;
    }
  }

  /** What one message of a batch does to its row, and whether it counts, is what an uninterrupted
      delivery does to the row of its node. */
  lemma ApplyIsDelivery(rows: Rows, id: Id, s: System, h: nat, n: nat, m: Row)
    requires Enabled(s, Read(h, n, m)) && (id in rows <==> n in s.rows) && (id in rows ==> rows[id] == s.rows[n])
    ensures n in Delivered(s, h, n, m).rows
    ensures Apply(rows, Incoming(id, m)) == rows[id := Delivered(s, h, n, m).rows[n]]
    ensures Changes(rows, Incoming(id, m)) <==> h in Next(s, Read(h, n, m)).work
  {
    UninterruptedIsMerge(s, h, n, m);
  }

  // ---- writes that come too late ------------------------------------------------------------

  /** The write finds its row rewritten since the read, so that it is no longer behind. */
  predicate Stale(s: System, e: Event) {
    && e.Finish? && e.h in s.work
    && var Work(n, m, absent) := s.work[e.h];
       !absent && n in s.rows && s.rows[n].version >= m.version
  }

  /** The step leaves every row alone, writes the writer's own, or merges one message into one. */
  ghost predicate Merges(s: System, e: Event, s': System) {
    || s'.rows == s.rows
    || e.Write?
    || (e.Finish? && e.h in s.work
        && var Work(n, m, _) := s.work[e.h];
           s'.rows == s.rows[n := if n in s.rows then Merge(s.rows[n], m) else m])
  }

  /** Rows that were there when read are still there. */
  ghost predicate WorkFits(s: System) {
    && (forall h :: h in s.work ==> s.work[h].absent || s.work[h].n in s.rows)
    && (forall h :: h in s.work ==> s.work[h].m in s.sent)
    && (s.history == [] ==> s.sent == {} && s.rows == map[])
    && (s.history != [] ==> WRITER in s.rows)
  }

  lemma {:induction false} RunWorkFits(ss: seq<System>, es: seq<Event>, i: nat)
    requires IsRun(ss, es) && i < |ss|
    ensures WorkFits(ss[i])
  {
    if i > 0 {
      RunWorkFits(ss, es, i - 1);
    }
  }

  /** Every step of a run treats the rows as uninterrupted merges would if and only if no write
      comes too late. */
  lemma RunMergesIff(ss: seq<System>, es: seq<Event>)
    requires IsRun(ss, es)
    ensures (forall i :: 0 <= i < |es| ==> Merges(ss[i], es[i], ss[i + 1]))
       <==> (forall i :: 0 <= i < |es| ==> !Stale(ss[i], es[i]))
  {
    forall i | 0 <= i < |es| ensures Merges(ss[i], es[i], ss[i + 1]) <==> !Stale(ss[i], es[i]) {
      RunWorkFits(ss, es, i);
      StepMergesIff(ss[i], es[i]);
    }
    if i :| 0 <= i < |es| && Stale(ss[i], es[i]) {
      assert !Merges(ss[i], es[i], ss[i + 1]);
    }
  }

  lemma StepMergesIff(s: System, e: Event)
    requires WorkFits(s) && Enabled(s, e)
    ensures Merges(s, e, Next(s, e)) <==> !Stale(s, e)
  {
    if e.Finish? {
      var n := s.work[e.h].n;
      assert n in s.rows ==> s.rows[n := s.rows[n]] == s.rows;
    }
  }

  // ---- no version passes the writer's ----------------------------------------------------------

  /** The row's status was written as version j, at or after the row's own version. */
  predicate WrittenAs(history: seq<Status>, r: Row, j: int) {
    1 <= r.version <= j <= |history| && history[j - 1] == r.status
  }

  ghost predicate NotBehind(history: seq<Status>, r: Row) {
    exists j :: WrittenAs(history, r, j)
  }

  ghost predicate WriterIsLatest(s: System) {
    && (s.history == [] ==> s.rows == map[])
    && (s.history != [] ==> WRITER in s.rows && s.rows[WRITER] == Latest(s))
  }

  ghost predicate Inv(s: System) {
    && WriterIsLatest(s)
    && (forall n :: n in s.rows ==> NotBehind(s.history, s.rows[n]))
    && (forall m :: m in s.sent ==> NotBehind(s.history, m))
  }

  lemma MergeNotBehind(history: seq<Status>, r: Row, m: Row)
    requires NotBehind(history, r) && NotBehind(history, m)
    ensures NotBehind(history, Merge(r, m))
  {
    if m.version > r.version {
      var j :| WrittenAs(history, m, j);
      assert WrittenAs(history, Merge(r, m), j);
    }
  }

  lemma WriteKeepsInv(s: System, status: Status)
    requires Inv(s)
    ensures Inv(Next(s, Write(status)))
  {
    var s' := Next(s, Write(status));
    forall r | NotBehind(s.history, r) ensures NotBehind(s'.history, r) {
      var j :| WrittenAs(s.history, r, j);
      assert WrittenAs(s'.history, r, j);
    }
    assert WrittenAs(s'.history, Latest(s'), |s'.history|);
  }

  lemma FinishKeepsInv(s: System, h: nat)
    requires Inv(s) && WorkFits(s) && h in s.work && !Stale(s, Finish(h))
    ensures Inv(Next(s, Finish(h)))
  {
    var Work(n, m, absent) := s.work[h];
    var j :| WrittenAs(s.history, m, j);
    if !absent {
      assert m.version > s.rows[n].version;
      MergeNotBehind(s.history, s.rows[n], m);
    }
  }

  lemma NextKeepsInv(s: System, e: Event)
    requires Inv(s) && WorkFits(s) && Enabled(s, e) && !Stale(s, e)
    ensures Inv(Next(s, e))
  {
    match e
    case Write(status) => WriteKeepsInv(s, status);
    case Send(n) =>
    case Read(_, _, _) =>
    case Finish(h) => FinishKeepsInv(s, h);
  }

  ghost predicate NeverStale(ss: seq<System>, es: seq<Event>, n: nat)
    requires n <= |es| < |ss|
  {
    forall i :: 0 <= i < n ==> !Stale(ss[i], es[i])
  }

  lemma {:induction false} RunHoldsInv(ss: seq<System>, es: seq<Event>, i: nat)
    requires IsRun(ss, es) && i <= |es| && NeverStale(ss, es, i)
    ensures Inv(ss[i])
  {
    if i > 0 {
      RunHoldsInv(ss, es, i - 1);
      RunWorkFits(ss, es, i - 1);
      NextKeepsInv(ss[i - 1], es[i - 1]);
    }
  }

  /** While no write comes too late: no version passes the writer's, a row at the writer's
      version is the writer's row, and the writer's row is what the writer wrote last. */
  lemma ReplicasFollowWriter(ss: seq<System>, es: seq<Event>, i: nat, n: nat)
    requires IsRun(ss, es) && i <= |es| && NeverStale(ss, es, i) && n in ss[i].rows
    ensures ss[i].history != [] && 1 <= ss[i].rows[n].version <= |ss[i].history|
    ensures ss[i].rows[n].version == |ss[i].history| ==> ss[i].rows[n] == Latest(ss[i])
    ensures WRITER in ss[i].rows && ss[i].rows[WRITER] == Latest(ss[i])
  {
    RunHoldsInv(ss, es, i);
    var j :| WrittenAs(ss[i].history, ss[i].rows[n], j);
  }

  ghost predicate Bounded(s: System) {
    && (forall n :: n in s.rows ==> s.rows[n].version <= |s.history|)
    && (forall m :: m in s.sent ==> m.version <= |s.history|)
    && (WRITER in s.rows ==> s.rows[WRITER].version == |s.history|)
  }

  /** The write finds its row at the writer's version. */
  predicate Passes(s: System, e: Event) {
    && e.Finish? && e.h in s.work && !s.work[e.h].absent
    && s.work[e.h].n in s.rows && s.rows[s.work[e.h].n].version >= |s.history|
  }

  lemma BoundedStepIff(s: System, e: Event)
    requires Bounded(s) && WorkFits(s) && Enabled(s, e)
    ensures Bounded(Next(s, e)) <==> !Passes(s, e)
    ensures Passes(s, e) ==> Stale(s, e)
  {
    match e
    case Write(status) =>
    case Send(n) =>
    case Read(_, _, _) =>
    case Finish(h) =>
      var Work(n, m, absent) := s.work[h];
      if Passes(s, e) {
        assert n in Next(s, e).rows;
      }
  }

  lemma {:induction false} BoundedSoFar(ss: seq<System>, es: seq<Event>, n: nat)
    requires IsRun(ss, es) && n <= |es| && forall i :: 0 <= i < n ==> !Passes(ss[i], es[i])
    ensures Bounded(ss[n])
  {
    if n > 0 {
      BoundedSoFar(ss, es, n - 1);
      RunWorkFits(ss, es, n - 1);
      BoundedStepIff(ss[n - 1], es[n - 1]);
    }
  }

  lemma {:induction false} FirstPassing(ss: seq<System>, es: seq<Event>, n: nat) returns (i: nat)
    requires n <= |es| < |ss| && exists i :: 0 <= i < n && Passes(ss[i], es[i])
    ensures i < n && Passes(ss[i], es[i]) && forall j :: 0 <= j < i ==> !Passes(ss[j], es[j])
  {
    if exists i :: 0 <= i < n - 1 && Passes(ss[i], es[i]) {
      i := FirstPassing(ss, es, n - 1);
    } else {
      i := n - 1;
    }
  }

  /** No version ever passes the writer's, and the writer's row has the writer's version, if and
      only if no write finds its row at the writer's version already. */
  lemma RunBoundedIff(ss: seq<System>, es: seq<Event>)
    requires IsRun(ss, es)
    ensures (forall i :: 0 <= i < |ss| ==> Bounded(ss[i])) <==> (forall i :: 0 <= i < |es| ==> !Passes(ss[i], es[i]))
  {
    if forall i :: 0 <= i < |es| ==> !Passes(ss[i], es[i]) {
      forall i | 0 <= i < |ss| ensures Bounded(ss[i]) {
        BoundedSoFar(ss, es, i);
      }
    } else {
      var i := FirstPassing(ss, es, |es|);
      BoundedSoFar(ss, es, i);
      RunWorkFits(ss, es, i);
      BoundedStepIff(ss[i], es[i]);
      assert !Bounded(ss[i + 1]);
    }
  }

  // ---- catching up ----------------------------------------------------------------------

  /** The same snapshot applied k times. */
  function Rounds(r: Row, m: Row, k: nat): Row {
    if k == 0 then r else Merge(Rounds(r, m, k - 1), m)
  }

  lemma {:induction false} RoundsClimb(r: Row, m: Row, k: nat)
    ensures r.version + k <= m.version ==>
              Rounds(r, m, k) == if k == 0 then r else Row(r.version + k, m.status)
    ensures r.version + k >= m.version && r.version < m.version ==> Rounds(r, m, k) == Row(m.version, m.status)
    ensures r.version >= m.version ==> Rounds(r, m, k) == r
  {
    if k > 0 {
      RoundsClimb(r, m, k - 1);
    }
  }

  /** Applied by one delivery after another, a fixed snapshot becomes a no-op exactly when the
      missing versions have been made up, one round each. */
  lemma NoOpAfterMissingRounds(r: Row, m: Row, k: nat)
    ensures Rounds(r, m, k + 1) == Rounds(r, m, k) <==> k >= m.version - r.version
  {
    RoundsClimb(r, m, k);
    RoundsClimb(r, m, k + 1);
  }

  predicate WritesTo(s: System, e: Event, n: nat) {
    e.Finish? && e.h in s.work && s.work[e.h].n == n && n in s.rows && !s.work[e.h].absent
  }

  /** Replication's writes to the row of node n from event i on. */
  function Writes(ss: seq<System>, es: seq<Event>, i: nat, j: nat, n: nat): nat
    requires i <= j <= |es| < |ss|
    decreases j
  {
    if i == j then 0
    else Writes(ss, es, i, j - 1, n) + if WritesTo(ss[j - 1], es[j - 1], n) then 1 else 0
  }

  lemma OneWrite(s: System, e: Event, n: nat)
    requires WorkFits(s) && Enabled(s, e) && n in s.rows && n != WRITER
    ensures n in Next(s, e).rows
    ensures Next(s, e).rows[n].version == s.rows[n].version + if WritesTo(s, e, n) then 1 else 0
  {}

  /** Each write raises the version by one, whatever it brings. */
  lemma {:induction false} VersionCountsWrites(ss: seq<System>, es: seq<Event>, i: nat, j: nat, n: nat)
    requires IsRun(ss, es) && i <= j <= |es| && n in ss[i].rows && n != WRITER
    ensures n in ss[j].rows && ss[j].rows[n].version == ss[i].rows[n].version + Writes(ss, es, i, j, n)
    decreases j
  {
    if i < j {
      VersionCountsWrites(ss, es, i, j - 1, n);
      RunWorkFits(ss, es, j - 1);
      hide Next;
      hide WritesTo;
      hide WorkFits;
      OneWrite(ss[j - 1], es[j - 1], n);
    }
  }

  /** While no write comes too late: a row gets at most as many writes as versions are missing, and
      once it has got them it is the writer's row, whichever snapshots they came from. */
  lemma CaughtUpIff(ss: seq<System>, es: seq<Event>, i: nat, j: nat, n: nat)
    requires IsRun(ss, es) && i <= j <= |es| && NeverStale(ss, es, j) && n in ss[i].rows && n != WRITER
    ensures n in ss[j].rows && ss[j].history != []
    ensures Writes(ss, es, i, j, n) <= |ss[j].history| - ss[i].rows[n].version
    ensures ss[j].rows[n] == Latest(ss[j]) <==> Writes(ss, es, i, j, n) == |ss[j].history| - ss[i].rows[n].version
  {
    VersionCountsWrites(ss, es, i, j, n);
    ReplicasFollowWriter(ss, es, j, n);
  }

  // ---- status never goes back ------------------------------------------------------------------

  /** What a writer whose handlers do not overlap writes: HELD, then CONFIRMED, then CANCELLED,
      each at most once. */
  ghost predicate Advances(history: seq<Status>) {
    forall i, j :: 0 <= i < j < |history| ==> Rank(history[i]) < Rank(history[j])
  }

  lemma {:induction false} RanksClimb(history: seq<Status>, i: nat)
    requires Advances(history) && i < |history|
    ensures Rank(history[i]) >= i
  {
    if i > 0 {
      RanksClimb(history, i - 1);
    }
  }

  lemma AdvancesShort(history: seq<Status>)
    requires Advances(history)
    ensures |history| <= 3
  {
    if history != [] {
      RanksClimb(history, |history| - 1);
    }
  }

  /** A row at version 1 is the row as first written. */
  ghost predicate FirstRowIsExact(s: System) {
    && (forall n :: n in s.rows && s.rows[n].version == 1 ==> WrittenAs(s.history, s.rows[n], 1))
    && (forall m :: m in s.sent && m.version == 1 ==> WrittenAs(s.history, m, 1))
  }

  lemma FirstRowStaysExact(s: System, e: Event)
    requires Inv(s) && WorkFits(s) && FirstRowIsExact(s) && Enabled(s, e)
    ensures FirstRowIsExact(Next(s, e))
  {
    match e
    case Write(status) =>
    case Send(n) =>
    case Read(_, _, _) =>
    case Finish(h) =>
      var n := s.work[h].n;
      if n in s.rows {
        var j :| WrittenAs(s.history, s.rows[n], j);
      }
  }

  lemma {:induction false} RunFirstRowIsExact(ss: seq<System>, es: seq<Event>, i: nat)
    requires IsRun(ss, es) && i <= |es| && NeverStale(ss, es, i)
    ensures FirstRowIsExact(ss[i])
  {
    if i > 0 {
      RunFirstRowIsExact(ss, es, i - 1);
      RunHoldsInv(ss, es, i - 1);
      RunWorkFits(ss, es, i - 1);
      FirstRowStaysExact(ss[i - 1], es[i - 1]);
    }
  }

  lemma NewerRanksHigher(history: seq<Status>, r: Row, m: Row)
    requires Advances(history) && NotBehind(history, r) && NotBehind(history, m) && m.version > r.version
    requires r.version == 1 ==> WrittenAs(history, r, 1)
    ensures Rank(r.status) <= Rank(m.status)
  {
    AdvancesShort(history);
    var j :| WrittenAs(history, r, j);
    var k :| WrittenAs(history, m, k);
  }

  /** While no write comes too late: whatever old or second-hand snapshots arrive, in whatever
      order, if the writer's statuses only advance, no row's status ever goes back. */
  lemma StatusNeverGoesBack(ss: seq<System>, es: seq<Event>, i: nat, n: nat)
    requires IsRun(ss, es) && i < |es| && NeverStale(ss, es, i + 1)
    requires n in ss[i].rows && Advances(ss[i + 1].history)
    ensures n in ss[i + 1].rows && Rank(ss[i].rows[n].status) <= Rank(ss[i + 1].rows[n].status)
  {
    var s, e := ss[i], es[i];
    RunHoldsInv(ss, es, i);
    RunWorkFits(ss, es, i);
    if e.Finish? && s.work[e.h].n == n && !s.work[e.h].absent {
      RunFirstRowIsExact(ss, es, i);
      assert !Stale(s, e);
      hide Stale;
      hide WrittenAs;
      hide NotBehind;
      NewerRanksHigher(s.history, s.rows[n], s.work[e.h].m);
    } else if e.Write? && n == WRITER {
      var h := ss[i + 1].history;
      assert s.rows[n] == Latest(s) && h == s.history + [e.status];
      assert Rank(h[|h| - 2]) < Rank(h[|h| - 1]);
    }
  }

  // ---- when equal versions mean equal status ------------------------------------------------

  /** Every row, stored or on its way, has the status the writer gave that version. */
  ghost predicate AsWritten(s: System) {
    && WriterIsLatest(s)
    && (forall n :: n in s.rows ==> WrittenAs(s.history, s.rows[n], s.rows[n].version))
    && (forall m :: m in s.sent ==> WrittenAs(s.history, m, m.version))
  }

  /** The write brings another status than the writer gave the row's next version, if it gave
      any yet. */
  predicate Misfits(s: System, e: Event) {
    && e.Finish? && e.h in s.work
    && var Work(n, m, absent) := s.work[e.h];
       !absent && n in s.rows
       && !(0 <= s.rows[n].version < |s.history| && s.history[s.rows[n].version] == m.status)
  }

  lemma WriteStaysAsWritten(s: System, status: Status)
    requires AsWritten(s)
    ensures AsWritten(Next(s, Write(status)))
  {
    var s' := Next(s, Write(status));
    assert forall r: Row :: WrittenAs(s.history, r, r.version) ==> WrittenAs(s'.history, r, r.version);
    assert WrittenAs(s'.history, Latest(s'), |s'.history|);
  }

  lemma FinishAsWrittenIff(s: System, h: nat)
    requires AsWritten(s) && WorkFits(s) && h in s.work
    ensures AsWritten(Next(s, Finish(h))) <==> !Misfits(s, Finish(h))
  {
    var s' := Next(s, Finish(h));
    var Work(n, m, absent) := s.work[h];
    if !absent {
      assert s'.rows == s.rows[n := Row(s.rows[n].version + 1, m.status)];
    }
    if Misfits(s, Finish(h)) {
      assert !WrittenAs(s'.history, s'.rows[n], s'.rows[n].version);
    }
  }

  lemma AsWrittenStepIff(s: System, e: Event)
    requires AsWritten(s) && WorkFits(s) && Enabled(s, e)
    ensures AsWritten(Next(s, e)) <==> !Misfits(s, e)
  {
    match e
    case Write(status) => WriteStaysAsWritten(s, status);
    case Send(n) =>
    case Read(_, _, _) =>
    case Finish(h) => FinishAsWrittenIff(s, h);
  }

  lemma {:induction false} FittingRun(ss: seq<System>, es: seq<Event>, n: nat)
    requires IsRun(ss, es) && n <= |es|
    requires forall i :: 0 <= i < n ==> !Misfits(ss[i], es[i])
    ensures AsWritten(ss[n])
  {
    if n > 0 {
      FittingRun(ss, es, n - 1);
      RunWorkFits(ss, es, n - 1);
      AsWrittenStepIff(ss[n - 1], es[n - 1]);
    }
  }

  lemma {:induction false} FirstMisfit(ss: seq<System>, es: seq<Event>, n: nat) returns (i: nat)
    requires n <= |es| < |ss|
    requires exists i :: 0 <= i < n && Misfits(ss[i], es[i])
    ensures i < n && Misfits(ss[i], es[i])
    ensures forall j :: 0 <= j < i ==> !Misfits(ss[j], es[j])
  {
    if exists i :: 0 <= i < n - 1 && Misfits(ss[i], es[i]) {
      i := FirstMisfit(ss, es, n - 1);
    } else {
      i := n - 1;
    }
  }

  /** All versions carry the writer's status for that version in every state of a run, overlapping
      deliveries included, if and only if no write misfits. */
  lemma RunAsWrittenIff(ss: seq<System>, es: seq<Event>)
    requires IsRun(ss, es)
    ensures (forall i :: 0 <= i < |ss| ==> AsWritten(ss[i])) <==> (forall i :: 0 <= i < |es| ==> !Misfits(ss[i], es[i]))
  {
    if forall i :: 0 <= i < |es| ==> !Misfits(ss[i], es[i]) {
      forall i | 0 <= i < |ss| ensures AsWritten(ss[i]) {
        FittingRun(ss, es, i);
      }
    } else {
      var i := FirstMisfit(ss, es, |es|);
      FittingRun(ss, es, i);
      RunWorkFits(ss, es, i);
      AsWrittenStepIff(ss[i], es[i]);
      assert !AsWritten(ss[i + 1]);
    }
  }

  lemma EqualVersionsEqualStatus(ss: seq<System>, es: seq<Event>, i: nat, m: nat, n: nat)
    requires IsRun(ss, es) && i <= |es| && m in ss[i].rows && n in ss[i].rows
    requires forall k :: 0 <= k < i ==> !Misfits(ss[k], es[k])
    requires ss[i].rows[m].version == ss[i].rows[n].version
    ensures ss[i].rows[m] == ss[i].rows[n]
  {
    FittingRun(ss, es, i);
  }
}
