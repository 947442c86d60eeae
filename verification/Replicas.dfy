/** Slots pushed between nodes: conflict-service/replication.go, lines 253-390. */
module Replicas {
  import opened Collections
  import opened Clock
  import opened Allocator
  import opened AllocatorRuns

  // ---- counters are a function of the set of slots -------------------------------------

  lemma {:induction false} UsesBySet(routes: Routes, slots: seq<Slot>, key: Key, passing: Slot -> bool)
    requires NoRepeats(slots)
    requires forall s :: passing(s) <==> Passes(routes, s, key)
    ensures Uses(routes, slots, key) == |Members(slots, passing)|
  {
    if slots != [] {
      var front, last := slots[..|slots| - 1], slots[|slots| - 1];
      UsesBySet(routes, front, key, passing);
      assert slots == front + [last];
      OneMemberMore(front, last, passing);
    }
  }

  /** Two nodes with exact counters and the same rows, in whatever order they came, agree
      on every counter. */
  lemma SameRowsSameCounters(routes: Routes, t: Tables, u: Tables, key: Key)
    requires Conserved(routes, t) && Conserved(routes, u)
    requires NoRepeats(t.slots) && NoRepeats(u.slots)
    requires forall s :: s in t.slots <==> s in u.slots
    ensures Current(t.capacity, key) == Current(u.capacity, key)
  {
    var passing := s => Passes(routes, s, key);
    assert Current(t.capacity, key) == Uses(routes, t.slots, key);
    assert Current(u.capacity, key) == Uses(routes, u.slots, key);
    UsesBySet(routes, t.slots, key, passing);
    UsesBySet(routes, u.slots, key, passing);
    assert Members(t.slots, passing) == Members(u.slots, passing);
  }

  // ---- pushes in any order, with repeats -------------------------------------------------

  /** One journey is described in one way only. */
  ghost predicate Consistent(pushes: set<Slot>) {
    forall p, q :: p in pushes && q in pushes && p.journeyId == q.journeyId ==> Stored(p) == Stored(q)
  }

  /** Dropping the route of this push changes nothing: it has none, or passes the same keys. */
  ghost predicate RouteIsPath(routes: Routes, r: Slot) {
    SameKeys(routes, r, r.(routeId := ""))
  }

  ghost function Journeys(pushes: seq<Slot>): set<string> {
    set r | r in pushes :: r.journeyId
  }

  ghost function AsSet(pushes: seq<Slot>): set<Slot> {
    set p | p in pushes
  }

  lemma ConsistentPart(p: set<Slot>, q: set<Slot>)
    requires Consistent(p + q)
    ensures Consistent(p) && Consistent(q)
  {
    assert forall r :: r in p || r in q ==> r in p + q;
  }

  /** The rows are the pushed slots without their routes, each once. */
  ghost predicate RowsAre(slots: seq<Slot>, pushes: seq<Slot>) {
    && NoRepeats(slots)
    && (forall r :: r in pushes ==> Stored(r) in slots)
    && (forall s :: s in slots ==> exists r :: r in pushes && s == Stored(r))
  }

  lemma RowsAfterPush(slots: seq<Slot>, front: seq<Slot>, last: Slot)
    requires Consistent(AsSet(front + [last])) && RowsAre(slots, front)
    ensures Known(slots, last.journeyId) ==> RowsAre(slots, front + [last])
    ensures !Known(slots, last.journeyId) ==> RowsAre(slots + [Stored(last)], front + [last])
  {
    if Known(slots, last.journeyId) {
      var k :| 0 <= k < |slots| && slots[k].journeyId == last.journeyId;
      assert slots[k] in slots;
      var r :| r in front && slots[k] == Stored(r);
      assert r in AsSet(front + [last]) && last in AsSet(front + [last]);
    } else {
      forall s | s in slots ensures s != Stored(last) {
        var k :| 0 <= k < |slots| && slots[k] == s;
      }
    }
  }

  lemma {:induction false} PushedRows(routes: Routes, pushes: seq<Slot>)
    requires Consistent(AsSet(pushes))
    ensures RowsAre(ReplicatedAll(routes, EMPTY, pushes).slots, pushes)
  {
    if pushes != [] {
      var front, last := pushes[..|pushes| - 1], pushes[|pushes| - 1];
      assert pushes == front + [last];
      ConsistentPart(AsSet(front), {last});
      assert AsSet(front) + {last} == AsSet(pushes);
      PushedRows(routes, front);
      RowsAfterPush(ReplicatedAll(routes, EMPTY, front).slots, front, last);
    }
  }

  lemma {:induction false} PushedCounters(routes: Routes, start: Tables, pushes: seq<Slot>)
    requires Conserved(routes, start) && Shaped(start.capacity)
    requires forall r :: r in pushes ==> RouteIsPath(routes, r)
    ensures Conserved(routes, ReplicatedAll(routes, start, pushes))
    ensures Shaped(ReplicatedAll(routes, start, pushes).capacity)
  {
    if pushes != [] {
      var front, last := pushes[..|pushes| - 1], pushes[|pushes| - 1];
      var t := ReplicatedAll(routes, start, front);
      PushedCounters(routes, start, front);
      PushKeepsCounters(routes, t, last);
    }
  }

  lemma PushKeepsCounters(routes: Routes, t: Tables, r: Slot)
    requires Conserved(routes, t) && Shaped(t.capacity) && RouteIsPath(routes, r)
    ensures Conserved(routes, Replicated(routes, t, r)) && Shaped(Replicated(routes, t, r).capacity)
  {
    PushConservesIff(routes, t, r);
  }

  lemma SameRows(p: seq<Slot>, q: seq<Slot>, t: seq<Slot>, u: seq<Slot>)
    requires Consistent(AsSet(p) + AsSet(q)) && RowsAre(t, p) && RowsAre(u, q)
    requires Journeys(p) == Journeys(q)
    ensures forall s :: s in t <==> s in u
  {
    assert AsSet(q) + AsSet(p) == AsSet(p) + AsSet(q);
    SubsetOfRows(p, q, t, u);
    SubsetOfRows(q, p, u, t);
  }

  lemma SubsetOfRows(p: seq<Slot>, q: seq<Slot>, t: seq<Slot>, u: seq<Slot>)
    requires Consistent(AsSet(p) + AsSet(q))
    requires Journeys(p) <= Journeys(q)
    requires forall s :: s in t ==> exists r :: r in p && s == Stored(r)
    requires forall r :: r in q ==> Stored(r) in u
    ensures forall s :: s in t ==> s in u
  {
    forall s | s in t ensures s in u {
      var r :| r in p && s == Stored(r);
      assert r.journeyId in Journeys(p);
      var r' :| r' in q && r'.journeyId == r.journeyId;
      assert r in AsSet(p) + AsSet(q) && r' in AsSet(p) + AsSet(q);
    }
  }

  /** Two nodes that have received the same journeys, in any order and any number of times,
      have the same rows and the same counters. */
  lemma PushesConverge(routes: Routes, p: seq<Slot>, q: seq<Slot>, key: Key)
    requires Consistent(AsSet(p) + AsSet(q))
    requires forall r :: r in p || r in q ==> RouteIsPath(routes, r)
    requires Journeys(p) == Journeys(q)
    ensures forall s :: s in ReplicatedAll(routes, EMPTY, p).slots <==> s in ReplicatedAll(routes, EMPTY, q).slots
    ensures Current(ReplicatedAll(routes, EMPTY, p).capacity, key)
         == Current(ReplicatedAll(routes, EMPTY, q).capacity, key)
  {
    var t, u := ReplicatedAll(routes, EMPTY, p), ReplicatedAll(routes, EMPTY, q);
    ConsistentPart(AsSet(p), AsSet(q));
    PushedRows(routes, p);
    PushedRows(routes, q);
    SameRows(p, q, t.slots, u.slots);
    PushedCounters(routes, EMPTY, p);
    PushedCounters(routes, EMPTY, q);
    SameRowsSameCounters(routes, t, u, key);
  }

  /** A slot without a route passes the same keys on every node. */
  lemma NoRouteSameKeys(routes: Routes, r: Slot)
    requires r.routeId == "" || |WaypointsOf(routes, r.routeId)| < 2
    ensures RouteIsPath(routes, r)
  {
    assert SlotKeys(routes, r) == SlotKeys(routes, r.(routeId := ""));
  }

  // ---- catching up from a peer --------------------------------------------------------------

  lemma {:induction false} SnapshotMembers(slots: seq<Slot>, now: int, r: Slot)
    ensures r in Snapshot(slots, now) <==>
      exists i :: 0 <= i < |slots| && slots[i].active && slots[i].arrival > now - 60 * MINUTE
                  && r == slots[i].(routeId := "")
  {
    if slots != [] {
      var front, last := slots[..|slots| - 1], slots[|slots| - 1];
      SnapshotMembers(front, now, r);
      assert forall i :: 0 <= i < |front| ==> front[i] == slots[i];
    }
  }

  lemma {:induction false} PushedIsKnown(routes: Routes, t: Tables, pushes: seq<Slot>, journeyId: string)
    ensures Known(ReplicatedAll(routes, t, pushes).slots, journeyId)
       <==> Known(t.slots, journeyId) || journeyId in Journeys(pushes)
  {
    if pushes != [] {
      var front, last := pushes[..|pushes| - 1], pushes[|pushes| - 1];
      var before := ReplicatedAll(routes, t, front);
      PushedIsKnown(routes, t, front, journeyId);
      assert pushes == front + [last];
      assert Journeys(pushes) == Journeys(front) + {last.journeyId};
      if !Known(before.slots, last.journeyId) {
        var after := before.slots + [Stored(last)];
        assert after[|before.slots|].journeyId == last.journeyId;
        forall k | 0 <= k < |before.slots| ensures after[k] == before.slots[k] {}
        if k :| 0 <= k < |before.slots| && before.slots[k].journeyId == journeyId {
          assert after[k].journeyId == journeyId;
        }
      }
    }
  }

  /** A catch-up from a peer leaves exact counters exact, and afterwards the node knows every
      journey that is active at the peer and ended no more than an hour ago. */
  lemma SyncCatchesUp(routes: Routes, t: Tables, peer: seq<Slot>, now: int, i: nat)
    requires Conserved(routes, t) && Shaped(t.capacity)
    requires i < |peer| && peer[i].active && peer[i].arrival > now - 60 * MINUTE
    ensures Conserved(routes, ReplicatedAll(routes, t, Snapshot(peer, now)))
    ensures Known(ReplicatedAll(routes, t, Snapshot(peer, now)).slots, peer[i].journeyId)
  {
    var sent := Snapshot(peer, now);
    forall r | r in sent ensures RouteIsPath(routes, r) {
      SnapshotMembers(peer, now, r);
      NoRouteSameKeys(routes, r);
    }
    PushedCounters(routes, t, sent);
    SnapshotMembers(peer, now, peer[i].(routeId := ""));
    assert peer[i].(routeId := "") in sent;
    PushedIsKnown(routes, t, sent, peer[i].journeyId);
  }

  // ---- the life of a journey on one node ----------------------------------------------------

  datatype Status = Absent | Active | Inactive

  ghost function StatusOf(slots: seq<Slot>, journeyId: string): Status {
    if HasActive(slots, journeyId) then Active
    else if Known(slots, journeyId) then Inactive
    else Absent
  }

  /** The step adds a row of the journey: an accepted booking, or a push that inserts. */
  predicate Adds(t: Tables, t': Tables, journeyId: string) {
    |t'.slots| == |t.slots| + 1 && t'.slots[|t.slots|].journeyId == journeyId
  }

  function Moved(s: Status, adds: bool, cancels: bool): Status {
    if adds then Active else if cancels && s == Active then Inactive else s
  }

  lemma AddedRow(slots: seq<Slot>, row: Slot, journeyId: string)
    requires row.active
    ensures StatusOf(slots + [row], journeyId)
         == if row.journeyId == journeyId then Active else StatusOf(slots, journeyId)
  {
    var after := slots + [row];
    forall k | 0 <= k < |slots| ensures after[k] == slots[k] {}
    forall k ensures ActiveAt(after, journeyId, k) <==>
                     ActiveAt(slots, journeyId, k) || (k == |slots| && row.journeyId == journeyId) {}
    if row.journeyId == journeyId {
      assert ActiveAt(after, journeyId, |slots|);
    } else {
      assert HasActive(after, journeyId) <==> HasActive(slots, journeyId);
      KnownAfterRow(slots, row, journeyId);
    }
  }

  lemma KnownAfterRow(slots: seq<Slot>, row: Slot, journeyId: string)
    ensures Known(slots + [row], journeyId) <==> Known(slots, journeyId) || row.journeyId == journeyId
  {
    var after := slots + [row];
    assert after[|slots|] == row;
    forall k | 0 <= k < |slots| ensures after[k] == slots[k] {}
    if k :| 0 <= k < |slots| && slots[k].journeyId == journeyId {
      assert after[k].journeyId == journeyId;
    }
  }

  lemma DeactivatedRows(slots: seq<Slot>, cancelled: string, journeyId: string)
    ensures StatusOf(Deactivate(slots, cancelled), journeyId)
         == Moved(StatusOf(slots, journeyId), false, cancelled == journeyId)
  {
    var d := Deactivate(slots, cancelled);
    assert forall k :: 0 <= k < |d| ==> d[k].journeyId == slots[k].journeyId;
    assert Known(d, journeyId) <==> Known(slots, journeyId) by {
      if k :| 0 <= k < |d| && slots[k].journeyId == journeyId {
        assert d[k].journeyId == journeyId;
      }
    }
    if journeyId == cancelled {
      assert !HasActive(d, journeyId);
      if k :| ActiveAt(slots, cancelled, k) {
        assert slots[k].journeyId == journeyId;
      }
    } else {
      forall k ensures ActiveAt(d, journeyId, k) <==> ActiveAt(slots, journeyId, k) {}
    }
  }

  /** A step adds one active row, deactivates one journey, or leaves the rows alone. */
  ghost predicate RowsStep(t: Tables, op: Op, t': Tables) {
    if op.Cancel? then
      t'.slots == if HasActive(t.slots, op.journeyId) then Deactivate(t.slots, op.journeyId) else t.slots
    else t'.slots == t.slots || exists row: Slot :: row.active && t'.slots == t.slots + [row]
  }

  lemma StepRows(routes: Routes, t: Tables, op: Op, t': Tables)
    requires Step(routes, t, op, t')
    ensures RowsStep(t, op, t')
  {
    match op
    case Book(req) =>
      assert req.AsSlot().active;
    case Push(r) =>
      assert Stored(r).active;
    case Store(_, r) =>
      assert Stored(r).active && t'.slots == t.slots + [Stored(r)];
    case Look(_, _) =>
    case Cancel(_) =>
  }

  /** What any one step does to the status of a journey. */
  lemma StatusMoves(routes: Routes, t: Tables, op: Op, t': Tables, journeyId: string)
    requires Step(routes, t, op, t')
    ensures StatusOf(t'.slots, journeyId)
         == Moved(StatusOf(t.slots, journeyId), Adds(t, t', journeyId), op == Cancel(journeyId))
  {
    StepRows(routes, t, op, t');
    hide *;
    RowsMove(t, op, t', journeyId);
  }

  lemma RowsMove(t: Tables, op: Op, t': Tables, journeyId: string)
    requires RowsStep(t, op, t')
    ensures StatusOf(t'.slots, journeyId)
         == Moved(StatusOf(t.slots, journeyId), Adds(t, t', journeyId), op == Cancel(journeyId))
  {
    hide StatusOf;
    hide HasActive;
    hide Deactivate;
    if op.Cancel? {
      if HasActive(t.slots, op.journeyId) {
        DeactivatedRows(t.slots, op.journeyId, journeyId);
        assert |Deactivate(t.slots, op.journeyId)| == |t.slots| by { SameLength(t.slots, op.journeyId); }
      } else {
        NothingToCancel(t.slots, op.journeyId, journeyId);
      }
    } else if t'.slots != t.slots {
      var row: Slot :| row.active && t'.slots == t.slots + [row];
      AddedRow(t.slots, row, journeyId);
    }
  }

  lemma SameLength(slots: seq<Slot>, journeyId: string)
    ensures |Deactivate(slots, journeyId)| == |slots|
  {}

  lemma NothingToCancel(slots: seq<Slot>, cancelled: string, journeyId: string)
    requires !HasActive(slots, cancelled)
    ensures Moved(StatusOf(slots, journeyId), false, cancelled == journeyId) == StatusOf(slots, journeyId)
  {}

  ghost predicate MovesForward(s: Status, s': Status) {
    s == s' || (s == Absent && s' == Active) || (s == Active && s' == Inactive)
  }

  /** A step moves a journey forward, absent to active to inactive, unless it adds a row to an
      inactive one. */
  lemma StatusForwardIff(routes: Routes, t: Tables, op: Op, t': Tables, journeyId: string)
    requires Step(routes, t, op, t')
    ensures MovesForward(StatusOf(t.slots, journeyId), StatusOf(t'.slots, journeyId))
       <==> !(Adds(t, t', journeyId) && StatusOf(t.slots, journeyId) == Inactive)
  {
    StatusMoves(routes, t, op, t', journeyId);
  }

  predicate AddAt(ts: seq<Tables>, i: int, journeyId: string) {
    0 <= i < |ts| - 1 && Adds(ts[i], ts[i + 1], journeyId)
  }

  predicate CancelAt(ops: seq<Op>, i: int, journeyId: string) {
    0 <= i < |ops| && ops[i] == Cancel(journeyId)
  }

  ghost predicate SteppedFrom(routes: Routes, ts: seq<Tables>, ops: seq<Op>, i: nat, j: nat) {
    |ts| == |ops| + 1 && i <= j < |ts| && forall k :: i <= k < j ==> Step(routes, ts[k], ops[k], ts[k + 1])
  }

  lemma {:induction false} StaysInactive(
    routes: Routes, ts: seq<Tables>, ops: seq<Op>, i: nat, j: nat, journeyId: string)
    requires SteppedFrom(routes, ts, ops, i, j) && StatusOf(ts[i].slots, journeyId) == Inactive
    requires forall k :: i <= k < j ==> !AddAt(ts, k, journeyId)
    ensures StatusOf(ts[j].slots, journeyId) == Inactive
  {
    if i < j {
      StaysInactive(routes, ts, ops, i, j - 1, journeyId);
      StatusMoves(routes, ts[j - 1], ops[j - 1], ts[j], journeyId);
      assert !AddAt(ts, j - 1, journeyId);
    }
  }

  /** An inactive journey stays inactive through a stretch of any steps if and only if none of
      them adds a row of it. */
  lemma NeverRevivedIff(routes: Routes, ts: seq<Tables>, ops: seq<Op>, i: nat, j: nat, journeyId: string)
    requires SteppedFrom(routes, ts, ops, i, j) && StatusOf(ts[i].slots, journeyId) == Inactive
    ensures (forall k :: i <= k <= j ==> StatusOf(ts[k].slots, journeyId) == Inactive)
       <==> (forall k :: i <= k < j ==> !AddAt(ts, k, journeyId))
  {
    if forall k :: i <= k < j ==> !AddAt(ts, k, journeyId) {
      forall k | i <= k <= j ensures StatusOf(ts[k].slots, journeyId) == Inactive {
        StaysInactive(routes, ts, ops, i, k, journeyId);
      }
    } else {
      var k :| i <= k < j && AddAt(ts, k, journeyId);
      StatusMoves(routes, ts[k], ops[k], ts[k + 1], journeyId);
    }
  }

  ghost predicate Added(ts: seq<Tables>, n: nat, journeyId: string) {
    exists i :: i < n && AddAt(ts, i, journeyId)
  }

  /** Step k cancels the journey, after some row of it was added and with none added since. */
  ghost predicate EndedAt(ts: seq<Tables>, ops: seq<Op>, n: nat, k: int, journeyId: string) {
    k < n && CancelAt(ops, k, journeyId)
    && (exists i :: i < k && AddAt(ts, i, journeyId)) && (forall i :: k < i < n ==> !AddAt(ts, i, journeyId))
  }

  ghost predicate Ended(ts: seq<Tables>, ops: seq<Op>, n: nat, journeyId: string) {
    exists k :: EndedAt(ts, ops, n, k, journeyId)
  }

  ghost function StatusAfter(ts: seq<Tables>, ops: seq<Op>, n: nat, journeyId: string): Status {
    if !Added(ts, n, journeyId) then Absent
    else if Ended(ts, ops, n, journeyId) then Inactive
    else Active
  }

  lemma AddedOneMore(ts: seq<Tables>, n: nat, journeyId: string)
    ensures Added(ts, n + 1, journeyId) <==> Added(ts, n, journeyId) || AddAt(ts, n, journeyId)
  {}

  lemma EndedOneMore(ts: seq<Tables>, ops: seq<Op>, n: nat, journeyId: string)
    requires n < |ops| && |ts| == |ops| + 1 && !(AddAt(ts, n, journeyId) && CancelAt(ops, n, journeyId))
    ensures Ended(ts, ops, n + 1, journeyId)
       <==> (Ended(ts, ops, n, journeyId) && !AddAt(ts, n, journeyId))
            || (CancelAt(ops, n, journeyId) && Added(ts, n, journeyId))
  {
    if k :| EndedAt(ts, ops, n, k, journeyId) && !AddAt(ts, n, journeyId) {
      assert EndedAt(ts, ops, n + 1, k, journeyId);
    }
    if CancelAt(ops, n, journeyId) && Added(ts, n, journeyId) {
      assert EndedAt(ts, ops, n + 1, n, journeyId);
    }
    if Ended(ts, ops, n + 1, journeyId) {
      var k :| EndedAt(ts, ops, n + 1, k, journeyId);
      assert k < n ==> EndedAt(ts, ops, n, k, journeyId);
    }
  }

  lemma CancelAddsNothing(routes: Routes, t: Tables, op: Op, t': Tables, journeyId: string)
    requires Step(routes, t, op, t') && op.Cancel?
    ensures !Adds(t, t', journeyId)
  {
    StepRows(routes, t, op, t');
    SameLength(t.slots, op.journeyId);
  }

  /** In every run of bookings, pushes and cancels, pushes overlapping or not: a journey is absent
      until a row of it is first added, inactive if and only if a cancel has come after the last
      row added, and active otherwise. */
  lemma {:induction false} StatusFromHistory(
    routes: Routes, ts: seq<Tables>, ops: seq<Op>, n: nat, journeyId: string)
    requires IsRun(routes, ts, ops) && n <= |ops|
    ensures StatusOf(ts[n].slots, journeyId) == StatusAfter(ts, ops, n, journeyId)
  {
    hide Step;
    hide Adds;
    hide StatusAfter;
    hide StatusOf;
    if n == 0 {
      NothingYet(ts, ops, journeyId);
    } else {
      StatusFromHistory(routes, ts, ops, n - 1, journeyId);
      StatusMoves(routes, ts[n - 1], ops[n - 1], ts[n], journeyId);
      if ops[n - 1].Cancel? {
        CancelAddsNothing(routes, ts[n - 1], ops[n - 1], ts[n], journeyId);
      }
      HistoryMoves(ts, ops, n - 1, journeyId);
    }
  }

  lemma NothingYet(ts: seq<Tables>, ops: seq<Op>, journeyId: string)
    ensures StatusAfter(ts, ops, 0, journeyId) == Absent && StatusOf(EMPTY.slots, journeyId) == Absent
  {}

  lemma HistoryMoves(ts: seq<Tables>, ops: seq<Op>, n: nat, journeyId: string)
    requires n < |ops| && |ts| == |ops| + 1 && (ops[n].Cancel? ==> !Adds(ts[n], ts[n + 1], journeyId))
    ensures StatusAfter(ts, ops, n + 1, journeyId)
         == Moved(StatusAfter(ts, ops, n, journeyId), Adds(ts[n], ts[n + 1], journeyId), ops[n] == Cancel(journeyId))
  {
    AddedOneMore(ts, n, journeyId);
    EndedOneMore(ts, ops, n, journeyId);
    hide Added;
    hide Ended;
    hide Adds;
  }

  lemma SameHistorySameStatus(ts: seq<Tables>, p: seq<Op>, us: seq<Tables>, q: seq<Op>, journeyId: string)
    ensures StatusAfter(ts, p, |p|, journeyId) == StatusAfter(us, q, |q|, journeyId)
       <==> (Added(ts, |p|, journeyId) <==> Added(us, |q|, journeyId))
            && (Ended(ts, p, |p|, journeyId) <==> Ended(us, q, |q|, journeyId))
  {
    if k :| EndedAt(ts, p, |p|, k, journeyId) {
      assert Added(ts, |p|, journeyId);
    }
    if k :| EndedAt(us, q, |q|, k, journeyId) {
      assert Added(us, |q|, journeyId);
    }
  }

  /** Two nodes, the one that took the booking or any other, agree on the status of every journey
      if and only if they have rows of the same journeys, and for the same journeys a cancel has
      come after the last row. */
  lemma NodesAgreeIff(routes: Routes, ts: seq<Tables>, p: seq<Op>, us: seq<Tables>, q: seq<Op>)
    requires IsRun(routes, ts, p) && IsRun(routes, us, q)
    ensures (forall j :: StatusOf(ts[|p|].slots, j) == StatusOf(us[|q|].slots, j))
       <==> forall j :: (Added(ts, |p|, j) <==> Added(us, |q|, j)) && (Ended(ts, p, |p|, j) <==> Ended(us, q, |q|, j))
  {
    forall j
      ensures StatusOf(ts[|p|].slots, j) == StatusOf(us[|q|].slots, j)
         <==> (Added(ts, |p|, j) <==> Added(us, |q|, j)) && (Ended(ts, p, |p|, j) <==> Ended(us, q, |q|, j))
    {
      StatusFromHistory(routes, ts, p, |p|, j);
      StatusFromHistory(routes, us, q, |q|, j);
      SameHistorySameStatus(ts, p, us, q, j);
    }
  }

  /** The shortest such case: a cancel that overtakes the push it belongs to is lost. */
  lemma OvertakingCancelDiverges(routes: Routes, r: Slot, t1: Tables, t2: Tables, u1: Tables, u2: Tables)
    requires Step(routes, EMPTY, Push(r), t1) && Step(routes, t1, Cancel(r.journeyId), t2)
    requires Step(routes, EMPTY, Cancel(r.journeyId), u1) && Step(routes, u1, Push(r), u2)
    ensures StatusOf(t2.slots, r.journeyId) == Inactive
    ensures StatusOf(u2.slots, r.journeyId) == Active
  {
    StatusMoves(routes, EMPTY, Push(r), t1, r.journeyId);
    StatusMoves(routes, t1, Cancel(r.journeyId), t2, r.journeyId);
    StatusMoves(routes, EMPTY, Cancel(r.journeyId), u1, r.journeyId);
    StatusMoves(routes, u1, Push(r), u2, r.journeyId);
    CancelAddsNothing(routes, t1, Cancel(r.journeyId), t2, r.journeyId);
  }
}
