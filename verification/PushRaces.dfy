/** Pushes of one journey that overlap on a node: applyReplicatedSlot asks for the journey and
    inserts it in a READ COMMITTED transaction, and nothing makes journey ids unique
    (conflict-service/replication.go, lines 253-307, and database.go, lines 68-92). */
module PushRaces {
  import opened Allocator
  import opened AllocatorLaws
  import opened AllocatorRuns
  import opened Replicas

  // ---- runs of pushes taken apart -----------------------------------------------------------

  predicate LookAt(ops: seq<Op>, i: int, p: nat) {
    0 <= i < |ops| && ops[i].Look? && ops[i].p == p
  }

  predicate StoreAt(ops: seq<Op>, i: int, p: nat) {
    0 <= i < |ops| && ops[i].Store? && ops[i].p == p
  }

  /** Push p asks for journey j at step k and does not find it. */
  predicate PassesAt(ts: seq<Tables>, ops: seq<Op>, k: int, p: nat, j: string) {
    LookAt(ops, k, p) && |ts| == |ops| + 1 && ops[k].r.journeyId == j && !Known(ts[k].slots, j)
  }

  ghost predicate MayStore(ts: seq<Tables>, ops: seq<Op>, i: nat, p: nat, r: Slot) {
    exists k :: 0 <= k < i && PassesAt(ts, ops, k, p, r.journeyId) && ops[k].r == r
  }

  ghost predicate EachOnce(ops: seq<Op>) {
    && (forall i :: 0 <= i < |ops| ==> !ops[i].Push?)
    && (forall i, k, p :: LookAt(ops, i, p) && LookAt(ops, k, p) ==> i == k)
    && (forall i, k, p :: StoreAt(ops, i, p) && StoreAt(ops, k, p) ==> i == k)
  }

  /** Every push looks once, and stores at most once, after it has looked and not found; in
      between anything may happen. */
  ghost predicate IsPushRun(routes: Routes, ts: seq<Tables>, ops: seq<Op>) {
    && IsRun(routes, ts, ops) && EachOnce(ops)
    && (forall i, p :: StoreAt(ops, i, p) ==> MayStore(ts, ops, i, p, ops[i].r))
  }

  /** Push p is between its look and its insert. */
  ghost predicate Between(ts: seq<Tables>, ops: seq<Op>, m: int, p: nat, j: string) {
    && (exists k :: k < m && PassesAt(ts, ops, k, p, j))
    && forall i :: i < m ==> !StoreAt(ops, i, p)
  }

  /** Push p of the journey passes its look while push q of it is under way. */
  ghost predicate OvertakesAt(ts: seq<Tables>, ops: seq<Op>, m: int, p: nat, q: nat, j: string) {
    p != q && PassesAt(ts, ops, m, p, j) && Between(ts, ops, m, q, j)
  }

  ghost predicate Passes(ts: seq<Tables>, ops: seq<Op>, p: nat, j: string) {
    exists k :: PassesAt(ts, ops, k, p, j)
  }

  // ---- rows never vanish ------------------------------------------------------------------

  lemma KnownStep(routes: Routes, t: Tables, op: Op, t': Tables, j: string)
    requires Step(routes, t, op, t')
    ensures Known(t'.slots, j) <==> Known(t.slots, j) || Adds(t, t', j)
  {
    StatusMoves(routes, t, op, t', j);
    StatusKnown(t.slots, j);
    StatusKnown(t'.slots, j);
  }

  lemma StatusKnown(slots: seq<Slot>, j: string)
    ensures Known(slots, j) <==> StatusOf(slots, j) != Absent
  {
    if k :| ActiveAt(slots, j, k) {
      assert slots[k].journeyId == j;
    }
  }

  lemma {:induction false} KnownStays(routes: Routes, ts: seq<Tables>, ops: seq<Op>, i: nat, k: nat, j: string)
    requires IsRun(routes, ts, ops) && i <= k < |ts| && Known(ts[i].slots, j)
    ensures Known(ts[k].slots, j)
  {
    hide Known;
    if i < k {
      KnownStays(routes, ts, ops, i, k - 1, j);
      KnownStep(routes, ts[k - 1], ops[k - 1], ts[k], j);
    }
  }

  lemma StoredIsKnown(routes: Routes, ts: seq<Tables>, ops: seq<Op>, i: nat, k: nat, p: nat)
    requires IsRun(routes, ts, ops) && StoreAt(ops, i, p) && i < k < |ts|
    ensures Known(ts[k].slots, ops[i].r.journeyId)
  {
    var j := ops[i].r.journeyId;
    assert Step(routes, ts[i], ops[i], ts[i + 1]);
    assert Adds(ts[i], ts[i + 1], j);
    KnownStep(routes, ts[i], ops[i], ts[i + 1], j);
    KnownStays(routes, ts, ops, i + 1, k, j);
  }

  /** Two pushes of one journey both get past their look if and only if one did so while the
      other was between its look and its insert. */
  lemma BothPassIff(routes: Routes, ts: seq<Tables>, ops: seq<Op>, p: nat, q: nat, j: string)
    requires IsPushRun(routes, ts, ops) && p != q
    ensures Passes(ts, ops, p, j) && Passes(ts, ops, q, j)
       <==> exists m :: OvertakesAt(ts, ops, m, p, q, j) || OvertakesAt(ts, ops, m, q, p, j)
  {
    if Passes(ts, ops, p, j) && Passes(ts, ops, q, j) {
      var k :| PassesAt(ts, ops, k, p, j);
      var l :| PassesAt(ts, ops, l, q, j);
      if k < l {
        LaterOvertakes(routes, ts, ops, k, l, p, q, j);
      } else {
        LaterOvertakes(routes, ts, ops, l, k, q, p, j);
      }
    }
  }

  lemma LaterOvertakes(routes: Routes, ts: seq<Tables>, ops: seq<Op>, k: int, l: int, p: nat, q: nat, j: string)
    requires IsPushRun(routes, ts, ops) && p != q
    requires k <= l && PassesAt(ts, ops, k, p, j) && PassesAt(ts, ops, l, q, j)
    ensures OvertakesAt(ts, ops, l, q, p, j)
  {
    assert k < l;
    forall i | i < l ensures !StoreAt(ops, i, p) {
      if StoreAt(ops, i, p) {
        assert MayStore(ts, ops, i, p, ops[i].r);
        assert ops[i].r.journeyId == j;
        StoredIsKnown(routes, ts, ops, i, l, p);
      }
    }
  }

  // ---- inserts of a journey that is known by now --------------------------------------------

  /** The insert finds the journey known after all. */
  predicate StaleAt(ts: seq<Tables>, ops: seq<Op>, i: int) {
    0 <= i < |ops| && |ts| == |ops| + 1 && ops[i].Store? && Known(ts[i].slots, ops[i].r.journeyId)
  }

  ghost predicate NeverStale(ts: seq<Tables>, ops: seq<Op>, n: nat) {
    forall i :: i < n ==> !StaleAt(ts, ops, i)
  }

  /** Somebody has added the journey since a moment at which it was unknown. */
  lemma {:induction false} AddedBetween(routes: Routes, ts: seq<Tables>, ops: seq<Op>, k: nat, i: nat, j: string)
    returns (m: nat)
    requires IsRun(routes, ts, ops) && k <= i < |ts| && !Known(ts[k].slots, j) && Known(ts[i].slots, j)
    ensures k <= m < i && AddAt(ts, m, j)
  {
    hide Known;
    hide Adds;
    hide Step;
    KnownStep(routes, ts[i - 1], ops[i - 1], ts[i], j);
    if AddAt(ts, i - 1, j) {
      m := i - 1;
    } else {
      m := AddedBetween(routes, ts, ops, k, i - 1, j);
    }
  }

  /** Who can add a journey: its booking, or a push of it. */
  lemma AddedBy(routes: Routes, t: Tables, op: Op, t': Tables, j: string)
    requires Step(routes, t, op, t') && Adds(t, t', j) && !op.Push?
    ensures (op.Book? && op.req.journeyId == j) || (op.Store? && op.r.journeyId == j)
  {
    if op.Cancel? {
      CancelAddsNothing(routes, t, op, t', j);
    }
  }

  /** A stale insert was overtaken: another push of the journey passed its look meanwhile or was
      under way already, or the journey was booked here after the look. */
  lemma StaleMeansOvertaken(routes: Routes, ts: seq<Tables>, ops: seq<Op>, i: nat) returns (m: nat)
    requires IsPushRun(routes, ts, ops) && StaleAt(ts, ops, i)
    ensures var p, j := ops[i].p, ops[i].r.journeyId;
            m < i && AddAt(ts, m, j) && Between(ts, ops, m + 1, p, j)
            && (ops[m].Book?
                || (ops[m].Store? && ops[m].p != p && Passes(ts, ops, p, j) && Passes(ts, ops, ops[m].p, j)))
  {
    var p, r := ops[i].p, ops[i].r;
    var j := r.journeyId;
    assert StoreAt(ops, i, p);
    assert MayStore(ts, ops, i, p, r);
    var k :| 0 <= k < i && PassesAt(ts, ops, k, p, j) && ops[k].r == r;
    m := AddedBetween(routes, ts, ops, k, i, j);
    AddedBy(routes, ts[m], ops[m], ts[m + 1], j);
    assert k != m;
    forall l | l < m + 1 ensures !StoreAt(ops, l, p) {}
    if ops[m].Store? {
      assert StoreAt(ops, m, ops[m].p);
      assert MayStore(ts, ops, m, ops[m].p, ops[m].r);
    }
  }

  ghost predicate NobodyOvertakes(ts: seq<Tables>, ops: seq<Op>) {
    forall m, p, q, j :: !OvertakesAt(ts, ops, m, p, q, j)
  }

  ghost predicate AllStore(ts: seq<Tables>, ops: seq<Op>) {
    forall p, j :: Passes(ts, ops, p, j) ==> exists i :: StoreAt(ops, i, p) && ops[i].r.journeyId == j
  }

  lemma StaleWasOvertaken(routes: Routes, ts: seq<Tables>, ops: seq<Op>, i: nat)
    requires IsPushRun(routes, ts, ops) && StaleAt(ts, ops, i) && forall k :: 0 <= k < |ops| ==> !ops[k].Book?
    ensures !NobodyOvertakes(ts, ops)
  {
    var m := StaleMeansOvertaken(routes, ts, ops, i);
    hide IsPushRun;
    hide PassesAt;
    hide Between;
    BothPassIff(routes, ts, ops, ops[i].p, ops[m].p, ops[i].r.journeyId);
  }

  lemma LaterIsStale(routes: Routes, ts: seq<Tables>, ops: seq<Op>, a: nat, b: nat, p: nat, q: nat)
    requires IsRun(routes, ts, ops) && a < b && StoreAt(ops, a, p) && StoreAt(ops, b, q)
    requires ops[a].r.journeyId == ops[b].r.journeyId
    ensures StaleAt(ts, ops, b)
  {
    hide Known;
    StoredIsKnown(routes, ts, ops, a, b, p);
  }

  lemma OvertakenIsStale(routes: Routes, ts: seq<Tables>, ops: seq<Op>, m: int, p: nat, q: nat, j: string)
    requires IsPushRun(routes, ts, ops) && AllStore(ts, ops) && OvertakesAt(ts, ops, m, p, q, j)
    ensures !NeverStale(ts, ops, |ops|)
  {
    assert Passes(ts, ops, p, j) && Passes(ts, ops, q, j);
    hide Passes;
    hide OvertakesAt;
    var a :| StoreAt(ops, a, p) && ops[a].r.journeyId == j;
    var b :| StoreAt(ops, b, q) && ops[b].r.journeyId == j;
    assert a != b;
    if a < b {
      LaterIsStale(routes, ts, ops, a, b, p, q);
    } else {
      LaterIsStale(routes, ts, ops, b, a, q, p);
    }
  }

  /** On a node that takes no bookings, with every push that does not find its journey getting to
      insert it: every insert still finds its journey unknown if and only if no push of a journey
      overtakes another push of it. */
  lemma NeverStaleIff(routes: Routes, ts: seq<Tables>, ops: seq<Op>)
    requires IsPushRun(routes, ts, ops) && AllStore(ts, ops) && forall i :: 0 <= i < |ops| ==> !ops[i].Book?
    ensures NeverStale(ts, ops, |ops|) <==> NobodyOvertakes(ts, ops)
  {
    hide IsPushRun;
    hide AllStore;
    hide StaleAt;
    hide OvertakesAt;
    if i :| i < |ops| && StaleAt(ts, ops, i) {
      assert 0 <= i by { StaleInRange(ts, ops, i); }
      StaleWasOvertaken(routes, ts, ops, i);
    }
    if m, p, q, j :| OvertakesAt(ts, ops, m, p, q, j) {
      OvertakenIsStale(routes, ts, ops, m, p, q, j);
    }
  }

  lemma StaleInRange(ts: seq<Tables>, ops: seq<Op>, i: int)
    requires StaleAt(ts, ops, i)
    ensures 0 <= i < |ops|
  {}

  // ---- what holds without stale inserts ------------------------------------------------------

  /** The slots that pushes have inserted, in this order. */
  function StoredSlots(ops: seq<Op>): seq<Slot> {
    if ops == [] then []
    else StoredSlots(ops[..|ops| - 1]) + if ops[|ops| - 1].Store? then [ops[|ops| - 1].r] else []
  }

  ghost predicate OnlyPushes(ops: seq<Op>) {
    forall i :: 0 <= i < |ops| ==> ops[i].Look? || ops[i].Store?
  }

  /** Pushes whose inserts are not stale leave the tables as uninterrupted pushes would. */
  lemma {:induction false} AsUninterrupted(routes: Routes, ts: seq<Tables>, ops: seq<Op>, n: nat)
    requires IsRun(routes, ts, ops) && OnlyPushes(ops) && n <= |ops| && NeverStale(ts, ops, n)
    ensures ts[n] == ReplicatedAll(routes, EMPTY, StoredSlots(ops[..n]))
  {
    hide Inserted;
    if n > 0 {
      AsUninterrupted(routes, ts, ops, n - 1);
      assert ops[..n][..n - 1] == ops[..n - 1];
      assert !StaleAt(ts, ops, n - 1);
      assert Step(routes, ts[n - 1], ops[n - 1], ts[n]);
      var before := StoredSlots(ops[..n - 1]);
      if ops[n - 1].Store? {
        assert StoredSlots(ops[..n]) == before + [ops[n - 1].r];
        OnePushMore(routes, before, ops[n - 1].r);
      } else {
        assert StoredSlots(ops[..n]) == before + [] == before;
      }
    }
  }

  lemma OnePushMore(routes: Routes, pushes: seq<Slot>, r: Slot)
    ensures ReplicatedAll(routes, EMPTY, pushes + [r]) == Replicated(routes, ReplicatedAll(routes, EMPTY, pushes), r)
  {
    assert (pushes + [r])[..|pushes|] == pushes;
  }

  /** Two nodes on which pushes overlapped in any way, without a stale insert, and that have the
      same journeys: they have the same rows and the same value in every counter. */
  lemma RunsConverge(routes: Routes, ts: seq<Tables>, p: seq<Op>, us: seq<Tables>, q: seq<Op>, key: Key)
    requires IsRun(routes, ts, p) && OnlyPushes(p) && NeverStale(ts, p, |p|)
    requires IsRun(routes, us, q) && OnlyPushes(q) && NeverStale(us, q, |q|)
    requires Consistent(AsSet(StoredSlots(p)) + AsSet(StoredSlots(q)))
    requires forall r :: r in StoredSlots(p) || r in StoredSlots(q) ==> RouteIsPath(routes, r)
    requires Journeys(StoredSlots(p)) == Journeys(StoredSlots(q))
    ensures forall s :: s in ts[|p|].slots <==> s in us[|q|].slots
    ensures Current(ts[|p|].capacity, key) == Current(us[|q|].capacity, key)
  {
    AsUninterrupted(routes, ts, p, |p|);
    AsUninterrupted(routes, us, q, |q|);
    assert p[..|p|] == p && q[..|q|] == q;
    PushesConverge(routes, StoredSlots(p), StoredSlots(q), key);
  }

  /** A step of a push or a cancel moves a journey backwards if and only if it is a stale insert
      into an inactive journey. */
  lemma PushMovesForwardIff(routes: Routes, t: Tables, op: Op, t': Tables, j: string)
    requires Step(routes, t, op, t') && !op.Book?
    ensures MovesForward(StatusOf(t.slots, j), StatusOf(t'.slots, j))
       <==> !(op.Store? && op.r.journeyId == j && StatusOf(t.slots, j) == Inactive)
  {
    StatusForwardIff(routes, t, op, t', j);
    StatusKnown(t.slots, j);
    if op.Cancel? {
      CancelAddsNothing(routes, t, op, t', j);
    }
  }

  lemma AddIsStale(routes: Routes, ts: seq<Tables>, ops: seq<Op>, i: nat, k: nat, j: string)
    requires IsPushRun(routes, ts, ops) && i <= k < |ops| && StatusOf(ts[i].slots, j) == Inactive
    requires AddAt(ts, k, j) && !(ops[k].Book? && ops[k].req.journeyId == j)
    ensures StaleAt(ts, ops, k)
  {
    AddedBy(routes, ts[k], ops[k], ts[k + 1], j);
    StatusKnown(ts[i].slots, j);
    KnownStays(routes, ts, ops, i, k, j);
  }

  /** So without stale inserts and bookings of its id, a cancelled journey is never revived. */
  lemma CancelledStaysWithoutStale(routes: Routes, ts: seq<Tables>, ops: seq<Op>, i: nat, n: nat, j: string)
    requires IsPushRun(routes, ts, ops) && i <= n <= |ops| && NeverStale(ts, ops, n)
    requires forall k :: i <= k < n && ops[k].Book? ==> ops[k].req.journeyId != j
    requires StatusOf(ts[i].slots, j) == Inactive
    ensures StatusOf(ts[n].slots, j) == Inactive
  {
    forall k | i <= k < n ensures !AddAt(ts, k, j) {
      if AddAt(ts, k, j) {
        AddIsStale(routes, ts, ops, i, k, j);
      }
    }
    StaysInactive(routes, ts, ops, i, n, j);
  }

  // ---- runs that go wrong ------------------------------------------------------------------

  const NOTHING: Capacity := map[]

  lemma FirstInsert(routes: Routes, r: Slot)
    ensures var t := Inserted(routes, EMPTY, r);
            t.slots == [Stored(r)] && HasActive(t.slots, r.journeyId) && StatusOf(t.slots, r.journeyId) == Active
  {
    AddedRow([], Stored(r), r.journeyId);
    assert ActiveAt(Inserted(routes, EMPTY, r).slots, r.journeyId, 0);
  }

  lemma CountedTwice(routes: Routes, r: Slot)
    ensures SlotKeys(routes, r) != []
    ensures var key := SlotKeys(routes, r)[0];
            Current(Inserted(routes, Inserted(routes, EMPTY, r), r).capacity, key) == 2
  {
    KeysOncePerSlot(routes, r);
    var keys := SlotKeys(routes, r);
    hide SlotKeys;
    IncrementAllCurrent(NOTHING, keys, keys[0]);
    IncrementAllCurrent(IncrementAll(NOTHING, keys), keys, keys[0]);
  }

  /** Both pushes have looked, the first has inserted. */
  lemma BothLooked(ts: seq<Tables>, ops: seq<Op>, r: Slot)
    requires |ts| == |ops| + 1 && |ops| >= 3 && ops[..3] == [Look(0, r), Look(1, r), Store(0, r)]
    requires ts[0] == EMPTY && ts[1] == EMPTY
    ensures forall i :: 1 <= i ==> MayStore(ts, ops, i, 0, r)
    ensures forall i :: 2 <= i ==> MayStore(ts, ops, i, 1, r)
  {
    assert ops[..3][0] == ops[0] && ops[..3][1] == ops[1];
    assert PassesAt(ts, ops, 0, 0, r.journeyId) && PassesAt(ts, ops, 1, 1, r.journeyId);
  }

  /** Two pushes of one slot both look before either inserts: two active rows, and a counter on
      the way at two, above the maximum. */
  lemma PushedTwice(routes: Routes, r: Slot) returns (ts: seq<Tables>, ops: seq<Op>)
    ensures IsPushRun(routes, ts, ops) && OnlyPushes(ops) && |ops| == 4
    ensures ts[4].slots == [Stored(r), Stored(r)] && SlotKeys(routes, r) != []
    ensures Current(ts[4].capacity, SlotKeys(routes, r)[0]) == 2 > DEFAULT_MAX_CAPACITY
  {
    var t1 := Inserted(routes, EMPTY, r);
    var t2 := Inserted(routes, t1, r);
    FirstInsert(routes, r);
    CountedTwice(routes, r);
    assert t2.slots == [Stored(r), Stored(r)];
    ops := [Look(0, r), Look(1, r), Store(0, r), Store(1, r)];
    ts := [EMPTY, EMPTY, EMPTY, t1, t2];
    hide Inserted;
    hide MayStore;
    hide SlotKeys;
    assert ops[..3] == [Look(0, r), Look(1, r), Store(0, r)];
    BothLooked(ts, ops, r);
  }

  lemma FirstCancel(routes: Routes, r: Slot) returns (t: Tables)
    ensures Step(routes, Inserted(routes, EMPTY, r), Cancel(r.journeyId), t)
    ensures StatusOf(t.slots, r.journeyId) == Inactive
  {
    var t1 := Inserted(routes, EMPTY, r);
    FirstInsert(routes, r);
    assert ActiveAt(t1.slots, r.journeyId, 0);
    t := Cancelled(routes, t1, r.journeyId, 0);
    hide DecrementAll;
    hide SlotKeys;
    assert Step(routes, t1, Cancel(r.journeyId), t);
    StatusMoves(routes, t1, Cancel(r.journeyId), t, r.journeyId);
    CancelAddsNothing(routes, t1, Cancel(r.journeyId), t, r.journeyId);
  }

  function FiveOps(r: Slot): seq<Op> {
    [Look(0, r), Look(1, r), Store(0, r), Cancel(r.journeyId), Store(1, r)]
  }

  lemma FiveOnce(r: Slot)
    ensures EachOnce(FiveOps(r))
  {}

  lemma IsFiveSteps(routes: Routes, r: Slot, t1: Tables, t2: Tables, t3: Tables)
    requires Step(routes, EMPTY, Store(0, r), t1) && Step(routes, t1, Cancel(r.journeyId), t2)
    requires Step(routes, t2, Store(1, r), t3)
    ensures IsPushRun(routes, [EMPTY, EMPTY, EMPTY, t1, t2, t3], FiveOps(r))
  {
    var ops, ts := FiveOps(r), [EMPTY, EMPTY, EMPTY, t1, t2, t3];
    assert Step(routes, EMPTY, Look(0, r), EMPTY) && Step(routes, EMPTY, Look(1, r), EMPTY);
    hide Step;
    assert ops[..3] == [Look(0, r), Look(1, r), Store(0, r)];
    BothLooked(ts, ops, r);
    FiveOnce(r);
    hide MayStore;
    hide EachOnce;
  }

  /** A cancel between the two inserts: the journey is active again. */
  lemma CancelledAndRevived(routes: Routes, r: Slot) returns (ts: seq<Tables>, ops: seq<Op>)
    ensures IsPushRun(routes, ts, ops)
    ensures ops == FiveOps(r)
    ensures StatusOf(ts[4].slots, r.journeyId) == Inactive && StatusOf(ts[5].slots, r.journeyId) == Active
  {
    var t1 := Inserted(routes, EMPTY, r);
    var t2 := FirstCancel(routes, r);
    var t3 := Inserted(routes, t2, r);
    AddedRow(t2.slots, Stored(r), r.journeyId);
    assert t3.slots == t2.slots + [Stored(r)];
    assert Step(routes, EMPTY, Store(0, r), t1) && Step(routes, t2, Store(1, r), t3);
    hide *;
    IsFiveSteps(routes, r, t1, t2, t3);
    ops := FiveOps(r);
    ts := [EMPTY, EMPTY, EMPTY, t1, t2, t3];
  }
}
