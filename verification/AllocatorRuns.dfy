/** The conflict service over whole runs of bookings, cancellations and pushes from peers. */
module AllocatorRuns {
  import opened Collections
  import opened Rounding
  import opened Grid
  import opened PathShape
  import opened Clock
  import opened Allocator
  import opened AllocatorLaws

  ghost predicate IsRun(routes: Routes, ts: seq<Tables>, ops: seq<Op>) {
    && |ts| == |ops| + 1
    && ts[0] == EMPTY
    && forall i :: 0 <= i < |ops| ==> Step(routes, ts[i], ops[i], ts[i + 1])
  }

  // ---- exactly which runs keep the counters exact ----------------------------------

  ghost predicate SameKeys(routes: Routes, a: Slot, b: Slot) {
    forall key :: key in SlotKeys(routes, a) <==> key in SlotKeys(routes, b)
  }

  /** What keeps the index exact, readable before the transaction: a cancel finds at most
      one active row; a new pushed slot passes the same keys with and without its route. */
  ghost predicate Harmless(routes: Routes, t: Tables, op: Op) {
    match op
    case Book(_) => true
    case Cancel(journeyId) =>
      forall j, k :: ActiveAt(t.slots, journeyId, j) && ActiveAt(t.slots, journeyId, k) ==> j == k
    case Push(r) =>
      Known(t.slots, r.journeyId) || SameKeys(routes, r, r.(routeId := ""))
    case Look(_, _) => true
    case Store(_, r) =>
      SameKeys(routes, r, r.(routeId := ""))
  }

  /** Even a second row of one journey is counted, so only a lost route falsifies a counter. */
  lemma StoreConservesIff(routes: Routes, t: Tables, r: Slot)
    requires Conserved(routes, t) && Shaped(t.capacity)
    ensures Conserved(routes, Inserted(routes, t, r)) <==> SameKeys(routes, r, r.(routeId := ""))
    ensures Shaped(Inserted(routes, t, r).capacity)
  {
    var after := Inserted(routes, t, r);
    KeysOncePerSlot(routes, r);
    IncrementAllShape(t.capacity, SlotKeys(routes, r));
    assert SlotKeys(routes, Stored(r)) == SlotKeys(routes, r.(routeId := ""));
    forall key
      ensures Current(after.capacity, key) == Uses(routes, after.slots, key)
         <==> (key in SlotKeys(routes, r) <==> key in SlotKeys(routes, Stored(r)))
    {
      assert Current(t.capacity, key) == Uses(routes, t.slots, key);
      IncrementAllCurrent(t.capacity, SlotKeys(routes, r), key);
      UsesAppend(routes, t.slots, Stored(r), key);
    }
  }

  lemma PushConservesIff(routes: Routes, t: Tables, r: Slot)
    requires Conserved(routes, t) && Shaped(t.capacity)
    ensures Conserved(routes, Replicated(routes, t, r)) <==> Harmless(routes, t, Push(r))
    ensures Shaped(Replicated(routes, t, r).capacity)
  {
    StoreConservesIff(routes, t, r);
  }

  lemma StepConservesIff(routes: Routes, t: Tables, op: Op, t': Tables)
    requires Conserved(routes, t) && Shaped(t.capacity) && Step(routes, t, op, t')
    ensures Conserved(routes, t') <==> Harmless(routes, t, op)
    ensures Shaped(t'.capacity)
  {
    match op
    case Book(req) =>
      BookedConserves(routes, t, req.AsSlot());
    case Cancel(journeyId) =>
      if HasActive(t.slots, journeyId) {
        var k :| ActiveAt(t.slots, journeyId, k) && t' == Cancelled(routes, t, journeyId, k);
        CancelConservesIff(routes, t, journeyId, k);
      }
    case Push(r) =>
      PushConservesIff(routes, t, r);
    case Look(_, _) =>
    case Store(_, r) =>
      StoreConservesIff(routes, t, r);
  }

  lemma {:induction false} HarmlessRunConserves(routes: Routes, ts: seq<Tables>, ops: seq<Op>, n: nat)
    requires IsRun(routes, ts, ops) && n <= |ops|
    requires forall i :: 0 <= i < n ==> Harmless(routes, ts[i], ops[i])
    ensures Conserved(routes, ts[n]) && Shaped(ts[n].capacity)
  {
    if n > 0 {
      HarmlessRunConserves(routes, ts, ops, n - 1);
      StepConservesIff(routes, ts[n - 1], ops[n - 1], ts[n]);
    }
  }

  /** In every run, every counter equals the number of active slots that pass it in every
      state, if and only if every transaction was harmless in the state that met it. */
  lemma RunConservesIff(routes: Routes, ts: seq<Tables>, ops: seq<Op>)
    requires IsRun(routes, ts, ops)
    ensures (forall i :: 0 <= i < |ts| ==> Conserved(routes, ts[i]))
       <==> (forall i :: 0 <= i < |ops| ==> Harmless(routes, ts[i], ops[i]))
  {
    if forall i :: 0 <= i < |ops| ==> Harmless(routes, ts[i], ops[i]) {
      forall i | 0 <= i < |ts| ensures Conserved(routes, ts[i]) {
        HarmlessRunConserves(routes, ts, ops, i);
      }
    } else {
      var i := FirstHarmful(routes, ts, ops, |ops|);
      HarmlessRunConserves(routes, ts, ops, i);
      StepConservesIff(routes, ts[i], ops[i], ts[i + 1]);
      assert !Conserved(routes, ts[i + 1]);
    }
  }

  lemma {:induction false} FirstHarmful(routes: Routes, ts: seq<Tables>, ops: seq<Op>, n: nat) returns (i: nat)
    requires n <= |ops| < |ts|
    requires exists i :: 0 <= i < n && !Harmless(routes, ts[i], ops[i])
    ensures i < n && !Harmless(routes, ts[i], ops[i])
    ensures forall j :: 0 <= j < i ==> Harmless(routes, ts[j], ops[j])
  {
    if exists i :: 0 <= i < n - 1 && !Harmless(routes, ts[i], ops[i]) {
      i := FirstHarmful(routes, ts, ops, n - 1);
    } else {
      i := n - 1;
    }
  }

  // ---- local bookings and cancellations ----------------------------------------------

  /** Two active slots of different journeys with one driver or one vehicle are at least the
      buffer apart. */
  ghost predicate JourneysApart(slots: seq<Slot>) {
    forall i, j :: 0 <= i < |slots| && 0 <= j < |slots| && slots[j].active && RivalOf(slots[i], slots[j]) ==>
      Apart(slots[i], slots[j])
  }

  lemma BookKeepsApart(slots: seq<Slot>, s: Slot)
    requires JourneysApart(slots) && PartyFree(slots, s)
    ensures JourneysApart(slots + [s])
  {}

  lemma DeactivateKeepsApart(slots: seq<Slot>, journeyId: string)
    requires JourneysApart(slots)
    ensures JourneysApart(Deactivate(slots, journeyId))
  {
    var after := Deactivate(slots, journeyId);
    forall i, j | 0 <= i < |after| && 0 <= j < |after| && after[j].active && RivalOf(after[i], after[j])
      ensures Apart(after[i], after[j])
    {
      assert RivalOf(slots[i], slots[j]) && Apart(slots[i], slots[j]);
    }
  }

  lemma LocalStepIsSafe(routes: Routes, t: Tables, op: Op, t': Tables)
    requires Shaped(t.capacity) && Bounded(t.capacity) && JourneysApart(t.slots)
    requires Step(routes, t, op, t') && !op.FromPeer()
    ensures Shaped(t'.capacity) && Bounded(t'.capacity) && JourneysApart(t'.slots)
  {
    match op
    case Book(req) =>
      var s := req.AsSlot();
      if PartyFree(t.slots, s) && CountersBelowMax(routes, t.capacity, s) {
        BookedBounded(routes, t, s);
        BookKeepsApart(t.slots, s);
      }
    case Cancel(journeyId) =>
      if HasActive(t.slots, journeyId) {
        var k :| ActiveAt(t.slots, journeyId, k) && t' == Cancelled(routes, t, journeyId, k);
        DecrementAllShape(t.capacity, SlotKeys(routes, t.slots[k]));
        DecrementAllBounded(t.capacity, SlotKeys(routes, t.slots[k]));
        DeactivateKeepsApart(t.slots, journeyId);
      }
    case Look(_, _) =>
  }

  /** In every run without pushes, whatever journey ids the callers use: no counter passes its
      maximum, and active slots of different journeys keep driver and vehicle apart. */
  lemma {:induction false} LocalRunIsSafe(routes: Routes, ts: seq<Tables>, ops: seq<Op>, n: nat)
    requires IsRun(routes, ts, ops) && n <= |ops|
    requires forall i :: 0 <= i < n ==> !ops[i].FromPeer()
    ensures Shaped(ts[n].capacity) && Bounded(ts[n].capacity) && JourneysApart(ts[n].slots)
  {
    if n > 0 {
      LocalRunIsSafe(routes, ts, ops, n - 1);
      LocalStepIsSafe(routes, ts[n - 1], ops[n - 1], ts[n]);
    }
  }

  // ---- callers that do not reuse a journey id ------------------------------------------

  /** The caller books under a journey id with no active slot, or repeats itself. */
  ghost predicate FreshOrRetry(t: Tables, req: Request) {
    !HasActive(t.slots, req.journeyId) || req.AsSlot() in t.slots
  }

  ghost predicate IsProperRun(routes: Routes, ts: seq<Tables>, ops: seq<Op>) {
    && IsRun(routes, ts, ops)
    && forall i :: 0 <= i < |ops| ==> !ops[i].FromPeer() && (ops[i].Book? ==> FreshOrRetry(ts[i], ops[i].req))
  }

  ghost predicate OneActive(slots: seq<Slot>) {
    forall i, j :: 0 <= i < j < |slots| && slots[i].active && slots[j].active ==>
      slots[i].journeyId != slots[j].journeyId
  }

  /** An identical retry always meets its own reservation and is turned away. */
  lemma RetryIsRejected(routes: Routes, t: Tables, s: Slot)
    requires Conserved(routes, t) && s.active && s in t.slots
    ensures !CountersBelowMax(routes, t.capacity, s)
  {
    var k :| 0 <= k < |t.slots| && t.slots[k] == s;
    KeysOncePerSlot(routes, s);
    var key := SlotKeys(routes, s)[0];
    UsesPositive(routes, t.slots, k, key);
    assert Current(t.capacity, key) == Uses(routes, t.slots, key);
  }

  lemma BookKeepsOneActive(slots: seq<Slot>, s: Slot)
    requires OneActive(slots) && !HasActive(slots, s.journeyId)
    ensures OneActive(slots + [s])
  {
    forall i | 0 <= i < |slots| && slots[i].active ensures slots[i].journeyId != s.journeyId {
      assert !ActiveAt(slots, s.journeyId, i);
    }
  }

  lemma ProperStep(routes: Routes, t: Tables, op: Op, t': Tables)
    requires Conserved(routes, t) && Shaped(t.capacity) && OneActive(t.slots) && Step(routes, t, op, t')
    requires !op.FromPeer() && (op.Book? ==> FreshOrRetry(t, op.req))
    ensures Conserved(routes, t') && Shaped(t'.capacity) && OneActive(t'.slots)
  {
    StepConservesIff(routes, t, op, t');
    match op
    case Book(req) =>
      var s := req.AsSlot();
      if PartyFree(t.slots, s) && CountersBelowMax(routes, t.capacity, s) {
        if s in t.slots {
          RetryIsRejected(routes, t, s);
        }
        BookKeepsOneActive(t.slots, s);
      }
    case Cancel(journeyId) =>
    case Look(_, _) =>
  }

  lemma {:induction false} ProperRunIsExact(routes: Routes, ts: seq<Tables>, ops: seq<Op>, n: nat)
    requires IsProperRun(routes, ts, ops) && n <= |ops|
    ensures Conserved(routes, ts[n]) && Shaped(ts[n].capacity) && OneActive(ts[n].slots)
  {
    if n > 0 {
      ProperRunIsExact(routes, ts, ops, n - 1);
      ProperStep(routes, ts[n - 1], ops[n - 1], ts[n]);
    }
  }

  ghost predicate PartiesApart(slots: seq<Slot>) {
    forall i, j :: 0 <= i < j < |slots| && slots[i].active && slots[j].active && SameParty(slots[i], slots[j]) ==>
      Apart(slots[i], slots[j])
  }

  /** In every state of every such run the counters are exact and within capacity, each journey
      has at most one active slot, and any two active slots of one driver or one vehicle are at
      least the buffer apart, whichever was booked first. */
  lemma ProperRunIsSound(routes: Routes, ts: seq<Tables>, ops: seq<Op>, n: nat)
    requires IsProperRun(routes, ts, ops) && n <= |ops|
    ensures Conserved(routes, ts[n]) && Bounded(ts[n].capacity) && OneActive(ts[n].slots)
    ensures PartiesApart(ts[n].slots)
  {
    ProperRunIsExact(routes, ts, ops, n);
    LocalRunIsSafe(routes, ts, ops, n);
    var slots := ts[n].slots;
    forall i, j | 0 <= i < j < |slots| && slots[i].active && slots[j].active && SameParty(slots[i], slots[j])
      ensures Apart(slots[i], slots[j])
    {
      assert RivalOf(slots[i], slots[j]);
    }
  }

  /** Once a journey id has been accepted twice, whichever row a cancel gives back, the
      counters are wrong from then on: the other row's road is never released. */
  lemma SecondBookingLeaks(routes: Routes, t: Tables, req: Request, t1: Tables, t2: Tables)
    requires Conserved(routes, t) && Shaped(t.capacity) && HasActive(t.slots, req.journeyId)
    requires Step(routes, t, Book(req), t1) && t1 != t && Step(routes, t1, Cancel(req.journeyId), t2)
    ensures Conserved(routes, t1) && !Conserved(routes, t2)
  {
    BookedConserves(routes, t, req.AsSlot());
    var j :| ActiveAt(t.slots, req.journeyId, j);
    assert ActiveAt(t1.slots, req.journeyId, j) && ActiveAt(t1.slots, req.journeyId, |t.slots|);
    StepConservesIff(routes, t1, Cancel(req.journeyId), t2);
  }

  // ---- runs that leak ---------------------------------------------------------------------

  function RequestAt(p: Point): Request {
    Request("J", "driver", "car", 0, 10, p, p, "")
  }

  lemma StandingKeys(routes: Routes, p: Point)
    ensures SlotKeys(routes, RequestAt(p).AsSlot()) == [Key(RoundGrid(p.lat), RoundGrid(p.lng), 0)]
  {
    PathOfOnePoint(p);
    SlotContains(0, 0);
  }

  lemma Accepts(routes: Routes, t: Tables, req: Request)
    requires PartyFree(t.slots, req.AsSlot()) && CountersBelowMax(routes, t.capacity, req.AsSlot())
    ensures Step(routes, t, Book(req), Booked(routes, t, req.AsSlot()))
  {}

  const HERE: Request := RequestAt(Point(0.0, 0.0))
  const THERE: Request := RequestAt(Point(1.0, 0.0))

  lemma BothStand(routes: Routes)
    ensures SlotKeys(routes, HERE.AsSlot()) == [Key(0.0, 0.0, 0)]
    ensures SlotKeys(routes, THERE.AsSlot()) == [Key(1.0, 0.0, 0)]
  {
    StandingKeys(routes, Point(0.0, 0.0));
    StandingKeys(routes, Point(1.0, 0.0));
    RoundOfInt(0);
    RoundOfInt(100);
    assert RoundGrid(0.0) == 0.0 && RoundGrid(1.0) == 1.0;
  }

  lemma FirstAccepted(routes: Routes)
    ensures var t := Booked(routes, EMPTY, HERE.AsSlot());
            Step(routes, EMPTY, Book(HERE), t) && Conserved(routes, t) && Shaped(t.capacity) && HasActive(t.slots, "J")
  {
    var t := Booked(routes, EMPTY, HERE.AsSlot());
    Accepts(routes, EMPTY, HERE);
    EmptyConserved(routes);
    BookedConserves(routes, EMPTY, HERE.AsSlot());
    assert ActiveAt(t.slots, "J", 0);
  }

  lemma SecondAccepted(routes: Routes)
    ensures var t := Booked(routes, EMPTY, HERE.AsSlot());
            Step(routes, t, Book(THERE), Booked(routes, t, THERE.AsSlot()))
  {
    var t := Booked(routes, EMPTY, HERE.AsSlot());
    BothStand(routes);
    IncrementAllCurrent(map[], SlotKeys(routes, HERE.AsSlot()), Key(1.0, 0.0, 0));
    hide SlotKeys;
    hide IncrementAll;
    Accepts(routes, t, THERE);
  }

  /** One journey id accepted twice, on roads that do not meet, and then cancelled: from then on
      the counters are wrong. */
  lemma JourneyAcceptedTwice(routes: Routes) returns (ts: seq<Tables>, ops: seq<Op>)
    ensures IsRun(routes, ts, ops) && ops == [Book(HERE), Book(THERE), Cancel("J")]
    ensures Conserved(routes, ts[2]) && !Conserved(routes, ts[3])
  {
    hide SlotKeys;
    hide Conserved;
    hide Shaped;
    var t1 := Booked(routes, EMPTY, HERE.AsSlot());
    var t2 := Booked(routes, t1, THERE.AsSlot());
    FirstAccepted(routes);
    SecondAccepted(routes);
    assert ActiveAt(t2.slots, "J", 0) && HasActive(t2.slots, "J");
    var t3 := Cancelled(routes, t2, "J", 0);
    hide IncrementAll;
    hide DecrementAll;
    assert Step(routes, t2, Cancel("J"), t3);
    SecondBookingLeaks(routes, t1, THERE, t2, t3);
    ts, ops := [EMPTY, t1, t2, t3], [Book(HERE), Book(THERE), Cancel("J")];
  }

  lemma EmptyConserved(routes: Routes)
    ensures Conserved(routes, EMPTY) && Shaped(EMPTY.capacity)
  {}

  const DETOUR: Routes := map["R" := [Point(1.0, 0.0), Point(1.0, 0.0)]]

  function RoutedSlot(): Slot {
    RequestAt(Point(0.0, 0.0)).AsSlot().(routeId := "R")
  }

  lemma DetourCells()
    ensures CellsFor(DETOUR, RoutedSlot().origin, RoutedSlot().dest, "R") == [CellOf(Point(1.0, 0.0))]
  {
    var p := Point(1.0, 0.0);
    PathOfOnePoint(p);
    assert [p, p][..1] == [p];
    assert LegCells([p]) == [];
    assert LegCells([p, p]) == [] + PathCells(p, p) == [CellOf(p)];
    assert [CellOf(p)][..0] == [];
    assert FirstOccurrences([CellOf(p)]) == [CellOf(p)];
  }

  lemma UnitCells()
    ensures CellOf(Point(0.0, 0.0)) == Cell(0.0, 0.0) && CellOf(Point(1.0, 0.0)) == Cell(1.0, 0.0)
  {
    RoundOfInt(0);
    RoundOfInt(100);
  }

  lemma DetourKeys()
    ensures Key(0.0, 0.0, 0) in SlotKeys(DETOUR, RoutedSlot().(routeId := ""))
    ensures Key(0.0, 0.0, 0) !in SlotKeys(DETOUR, RoutedSlot())
  {
    UnitCells();
    StandingKeys(DETOUR, Point(0.0, 0.0));
    assert RoutedSlot().(routeId := "") == RequestAt(Point(0.0, 0.0)).AsSlot();
    DetourCells();
    hide CellsFor;
    hide CellOf;
    hide SlotStart;
    hide CellTime;
    assert |SlotKeys(DETOUR, RoutedSlot())| == 1;
  }

  /** A pushed slot at (0, 0) whose route stands at (1, 0): the counter is raised at (1, 0), the
      stored row passes (0, 0). */
  lemma RoutedPushLeaks()
    ensures !SameKeys(DETOUR, RoutedSlot(), RoutedSlot().(routeId := ""))
    ensures !Conserved(DETOUR, Replicated(DETOUR, EMPTY, RoutedSlot()))
  {
    hide SlotKeys;
    DetourKeys();
    EmptyConserved(DETOUR);
    PushConservesIff(DETOUR, EMPTY, RoutedSlot());
  }
}
