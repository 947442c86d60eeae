/** What a node's road counters show while handlers overlap, and when they are right. */
module RegionThreadsProof {
  import opened Collections
  import opened Trips
  import opened RegionTables
  import opened RegionLaws
  import opened RegionThreads

  // ---- every schedule keeps the basic invariant ----------------------------------------------

  lemma OthersStay(jobs: Jobs, s: State, h: Handler, g: Handler)
    requires g != h
    ensures StageOf(Next(jobs, s, h), g) == StageOf(s, g)
  {}

  /** A row keeps its trip and its route, and only the handler that adds it inserts it. */
  lemma RowsStay(jobs: Jobs, s: State, h: Handler, id: Id)
    requires Inv(jobs, s)
    ensures var s' := Next(jobs, s, h);
            && (id in s.bookings ==>
                  id in s'.bookings && s'.bookings[id].route == s.bookings[id].route
                  && s'.bookings[id].trip == s.bookings[id].trip)
            && (id in s'.bookings && id !in s.bookings ==>
                  h in jobs && jobs[h].Add? && jobs[h].id == id && StageOf(s', h) == Finished
                  && s'.bookings[id] == Booking(jobs[h].trip, jobs[h].status, jobs[h].route, 1))
  {}

  lemma StageKept(jobs: Jobs, s: State, h: Handler)
    requires Valid(jobs) && Inv(jobs, s) && h in jobs
    ensures StageFits(jobs, Next(jobs, s, h), h)
  {}

  lemma InvKept(jobs: Jobs, s: State, h: Handler)
    requires Valid(jobs) && Inv(jobs, s)
    ensures Inv(jobs, Next(jobs, s, h))
  {
    var s' := Next(jobs, s, h);
    forall g | g in jobs ensures StageFits(jobs, s', g) {
      if g == h {
        StageKept(jobs, s, h);
      } else {
        hide Next;
        assert StageFits(jobs, s, g);
        OthersStay(jobs, s, h, g);
        RowsStay(jobs, s, h, jobs[g].id);
      }
    }
    forall id | id in s'.bookings ensures NoRepeats(s'.bookings[id].route) {
      hide Next;
      RowsStay(jobs, s, h, id);
    }
  }

  ghost predicate FreshRoads(roads: map<Edge, Road>) {
    forall e :: e in roads ==> roads[e].bookings == 0 && roads[e].capacity >= 0
  }

  lemma {:induction false} AfterHoldsInv(jobs: Jobs, roads: map<Edge, Road>, schedule: seq<Handler>)
    requires Valid(jobs) && FreshRoads(roads)
    ensures Inv(jobs, After(jobs, roads, schedule))
    ensures After(jobs, roads, schedule).roads.Keys == roads.Keys
  {
    if schedule != [] {
      var front, h := schedule[..|schedule| - 1], schedule[|schedule| - 1];
      AfterHoldsInv(jobs, roads, front);
      InvKept(jobs, After(jobs, roads, front), h);
    }
  }

  lemma OneMore(jobs: Jobs, roads: map<Edge, Road>, schedule: seq<Handler>, n: nat)
    requires 0 < n <= |schedule|
    ensures After(jobs, roads, schedule[..n]) == Next(jobs, After(jobs, roads, schedule[..n - 1]), schedule[n - 1])
  {
    assert schedule[..n][..n - 1] == schedule[..n - 1];
  }

  // ---- one access and one counter -------------------------------------------------------------

  lemma OneChanges<T>(a: set<T>, b: set<T>, x: T)
    requires a - {x} == b - {x}
    ensures |b| == |a| - (if x in a then 1 else 0) + (if x in b then 1 else 0)
  {
    WithAndWithout(a, x);
    WithAndWithout(b, x);
  }

  lemma TakersChange(jobs: Jobs, s: State, h: Handler, e: Edge)
    requires h in jobs
    ensures var s' := Next(jobs, s, h);
            |Takers(jobs, s', e)| == |Takers(jobs, s, e)| - (if HasTaken(jobs, s, h, e) then 1 else 0)
                                                        + (if HasTaken(jobs, s', h, e) then 1 else 0)
  {
    hide Next;
    var s' := Next(jobs, s, h);
    forall g | g in jobs && g != h ensures HasTaken(jobs, s', g, e) <==> HasTaken(jobs, s, g, e) {
      OthersStay(jobs, s, h, g);
    }
    assert Takers(jobs, s, e) - {h} == Takers(jobs, s', e) - {h};
    OneChanges(Takers(jobs, s, e), Takers(jobs, s', e), h);
  }

  lemma FreersChange(jobs: Jobs, s: State, h: Handler, e: Edge)
    requires h in jobs
    ensures var s' := Next(jobs, s, h);
            |Freers(jobs, s', e)| == |Freers(jobs, s, e)| - (if HasFreed(s, h, e) then 1 else 0)
                                                        + (if HasFreed(s', h, e) then 1 else 0)
  {
    hide Next;
    var s' := Next(jobs, s, h);
    forall g | g in jobs && g != h ensures HasFreed(s', g, e) <==> HasFreed(s, g, e) {
      OthersStay(jobs, s, h, g);
    }
    assert Freers(jobs, s, e) - {h} == Freers(jobs, s', e) - {h};
    OneChanges(Freers(jobs, s, e), Freers(jobs, s', e), h);
  }

  /** One more leg of a simple route. */
  lemma LegTaken(route: seq<City>, n: nat, e: Edge)
    requires NoRepeats(route) && n < |Legs(route)|
    ensures e in Legs(route)[..n + 1] <==> e in Legs(route)[..n] || e == Legs(route)[n]
    ensures Legs(route)[n] !in Legs(route)[..n]
  {
    SimpleLegs(route);
    assert Legs(route)[..n + 1] == Legs(route)[..n] + [Legs(route)[n]];
  }

  lemma WholeRoute(route: seq<City>, n: nat, e: Edge)
    requires n == |Legs(route)|
    ensures e in Legs(route)[..n] <==> e in Legs(route)
  {
    assert Legs(route)[..n] == Legs(route);
  }

  ghost predicate Balances(jobs: Jobs, s: State, h: Handler, e: Edge)
    requires e in s.roads
  {
    var s' := Next(jobs, s, h);
    && e in s'.roads
    && s'.roads[e].bookings - Owed(jobs, s', e) == s.roads[e].bookings - Owed(jobs, s, e) + Slip(jobs, s, h, e)
  }

  lemma ReserveBalances(jobs: Jobs, s: State, h: Handler, e: Edge)
    requires Valid(jobs) && Inv(jobs, s) && e in s.roads && h in jobs && jobs[h].Add? && StageOf(s, h).Taking?
    requires StageOf(s, h).n < |Legs(jobs[h].route)|
    ensures Balances(jobs, s, h, e)
  {
    var s', legs, n := Next(jobs, s, h), Legs(jobs[h].route), StageOf(s, h).n;
    assert StageOf(s', h) == Taking(n + 1) && s'.bookings == s.bookings && e in s'.roads;
    assert s'.roads[e].bookings == s.roads[e].bookings + if e == legs[n] then 1 else 0;
    assert Slip(jobs, s, h, e) == 0;
    TakersChange(jobs, s, h, e);
    FreersChange(jobs, s, h, e);
    LegTaken(jobs[h].route, n, e);
    hide Next;
    hide Slip;
    hide Takers;
    hide Freers;
    hide Users;
    hide Legs;
  }

  lemma InsertBalances(jobs: Jobs, s: State, h: Handler, e: Edge)
    requires Valid(jobs) && Inv(jobs, s) && e in s.roads && h in jobs && jobs[h].Add? && StageOf(s, h).Taking?
    requires StageOf(s, h).n >= |Legs(jobs[h].route)|
    ensures Balances(jobs, s, h, e)
  {
    var Add(id, trip, route, status) := jobs[h];
    assert StageFits(jobs, s, h);
    TakersChange(jobs, s, h, e);
    FreersChange(jobs, s, h, e);
    hide Takers;
    hide Freers;
    WholeRoute(route, StageOf(s, h).n, e);
    ChangeUsers(s.bookings, id, Booking(trip, status, route, 1), e);
  }

  lemma LookingBalances(jobs: Jobs, s: State, h: Handler, e: Edge)
    requires Valid(jobs) && Inv(jobs, s) && e in s.roads && h in jobs && jobs[h].Add? && !StageOf(s, h).Taking?
    ensures Balances(jobs, s, h, e)
  {
    var s' := Next(jobs, s, h);
    assert StageFits(jobs, s, h);
    assert s'.roads == s.roads && s'.bookings == s.bookings;
    assert !HasTaken(jobs, s, h, e) && !HasTaken(jobs, s', h, e) && !HasFreed(s, h, e) && !HasFreed(s', h, e);
    TakersChange(jobs, s, h, e);
    FreersChange(jobs, s, h, e);
    hide Takers;
    hide Freers;
    hide Next;
  }

  lemma AddBalances(jobs: Jobs, s: State, h: Handler, e: Edge)
    requires Valid(jobs) && Inv(jobs, s) && e in s.roads && h in jobs && jobs[h].Add?
    ensures Balances(jobs, s, h, e)
  {
    hide *;
    if StageOf(s, h).Taking? {
      if StageOf(s, h).n < |Legs(jobs[h].route)| {
        ReserveBalances(jobs, s, h, e);
      } else {
        InsertBalances(jobs, s, h, e);
      }
    } else {
      LookingBalances(jobs, s, h, e);
    }
  }

  lemma ReleaseBalances(jobs: Jobs, s: State, h: Handler, e: Edge)
    requires Valid(jobs) && Inv(jobs, s) && e in s.roads && h in jobs && jobs[h].Remove? && StageOf(s, h).Freeing?
    requires StageOf(s, h).n < |Legs(StageOf(s, h).route)|
    ensures Balances(jobs, s, h, e)
  {
    assert StageFits(jobs, s, h);
    var s' := Next(jobs, s, h);
    var Freeing(route, n) := StageOf(s, h);
    var leg := Legs(route)[n];
    assert StageOf(s', h) == Freeing(route, n + 1) && s'.bookings == s.bookings && e in s'.roads;
    assert s'.roads[e].bookings == s.roads[e].bookings - if e == leg && s.roads[e].bookings > 0 then 1 else 0;
    assert Slip(jobs, s, h, e) == if e == leg && s.roads[e].bookings <= 0 then 1 else 0;
    TakersChange(jobs, s, h, e);
    FreersChange(jobs, s, h, e);
    LegTaken(route, n, e);
    hide Next;
    hide Slip;
    hide Takers;
    hide Freers;
    hide Users;
    hide Legs;
  }

  lemma MarkBalances(jobs: Jobs, s: State, h: Handler, e: Edge)
    requires Valid(jobs) && Inv(jobs, s) && e in s.roads && h in jobs && jobs[h].Remove? && StageOf(s, h).Freeing?
    requires StageOf(s, h).n >= |Legs(StageOf(s, h).route)|
    ensures Balances(jobs, s, h, e)
  {
    assert StageFits(jobs, s, h);
    var id := jobs[h].id;
    var s' := Next(jobs, s, h);
    var row := WithStatus(s.bookings, id, Cancelled)[id];
    assert StageOf(s', h) == Finished && s'.bookings == s.bookings[id := row] && s'.roads == s.roads;
    assert Slip(jobs, s, h, e) == if e in Legs(s.bookings[id].route) && !Live(s.bookings[id]) then -1 else 0;
    TakersChange(jobs, s, h, e);
    FreersChange(jobs, s, h, e);
    WholeRoute(StageOf(s, h).route, StageOf(s, h).n, e);
    ChangeUsers(s.bookings, id, row, e);
    hide Next;
    hide Slip;
    hide Takers;
    hide Freers;
    hide Users;
    hide Legs;
  }

  lemma ReadBalances(jobs: Jobs, s: State, h: Handler, e: Edge)
    requires Valid(jobs) && Inv(jobs, s) && e in s.roads && h in jobs && jobs[h].Remove? && !StageOf(s, h).Freeing?
    ensures Balances(jobs, s, h, e)
  {
    assert StageFits(jobs, s, h);
    var s' := Next(jobs, s, h);
    assert s'.roads == s.roads && s'.bookings == s.bookings;
    assert !HasTaken(jobs, s, h, e) && !HasTaken(jobs, s', h, e) && !HasFreed(s, h, e) && !HasFreed(s', h, e);
    TakersChange(jobs, s, h, e);
    FreersChange(jobs, s, h, e);
    hide Next;
    hide Takers;
    hide Freers;
  }

  lemma RemoveBalances(jobs: Jobs, s: State, h: Handler, e: Edge)
    requires Valid(jobs) && Inv(jobs, s) && e in s.roads && h in jobs && jobs[h].Remove?
    ensures Balances(jobs, s, h, e)
  {
    hide *;
    if StageOf(s, h).Freeing? {
      if StageOf(s, h).n < |Legs(StageOf(s, h).route)| {
        ReleaseBalances(jobs, s, h, e);
      } else {
        MarkBalances(jobs, s, h, e);
      }
    } else {
      ReadBalances(jobs, s, h, e);
    }
  }

  lemma SettleBalances(jobs: Jobs, s: State, h: Handler, e: Edge)
    requires Valid(jobs) && Inv(jobs, s) && e in s.roads && h in jobs && jobs[h].Settle?
    ensures Balances(jobs, s, h, e)
  {
    var id := jobs[h].id;
    assert StageFits(jobs, s, h);
    TakersChange(jobs, s, h, e);
    FreersChange(jobs, s, h, e);
    hide Takers;
    hide Freers;
    if StageOf(s, h).Confirming? {
      ChangeUsers(s.bookings, id, WithStatus(s.bookings, id, Confirmed)[id], e);
    }
  }

  lemma StepBalances(jobs: Jobs, s: State, h: Handler, e: Edge)
    requires Valid(jobs) && Inv(jobs, s) && e in s.roads
    ensures Balances(jobs, s, h, e)
  {
    if h in jobs {
      match jobs[h]
      case Add(_, _, _, _) => AddBalances(jobs, s, h, e);
      case Remove(_, _) => RemoveBalances(jobs, s, h, e);
      case Settle(_) => SettleBalances(jobs, s, h, e);
    }
  }

  // ---- every schedule ------------------------------------------------------------------------

  lemma NothingOwed(jobs: Jobs, roads: map<Edge, Road>, e: Edge)
    ensures Owed(jobs, Init(roads), e) == 0
  {
    var s := Init(roads);
    assert Users(s.bookings, e) == {} && Takers(jobs, s, e) == {} && Freers(jobs, s, e) == {};
  }

  /** Whatever the handlers do and however they interleave, a counter shows the live bookings on
      the road, plus the handlers that have reserved it and not inserted yet, minus those that
      have released it and not marked yet, plus its drift. */
  lemma {:induction false} CounterShows(jobs: Jobs, roads: map<Edge, Road>, schedule: seq<Handler>, e: Edge)
    requires Valid(jobs) && FreshRoads(roads) && e in roads
    ensures var s := After(jobs, roads, schedule);
            e in s.roads && s.roads[e].bookings == Owed(jobs, s, e) + Drift(jobs, roads, schedule, e)
  {
    AfterHoldsInv(jobs, roads, schedule);
    if schedule == [] {
      NothingOwed(jobs, roads, e);
    } else {
      var front := schedule[..|schedule| - 1];
      AfterHoldsInv(jobs, roads, front);
      CounterShows(jobs, roads, front, e);
      StepBalances(jobs, After(jobs, roads, front), schedule[|schedule| - 1], e);
    }
  }

  ghost predicate SlipAt(jobs: Jobs, roads: map<Edge, Road>, schedule: seq<Handler>, n: nat, e: Edge)
    requires n < |schedule|
  {
    Slip(jobs, After(jobs, roads, schedule[..n]), schedule[n], e) != 0
  }

  ghost predicate NeverSlips(jobs: Jobs, roads: map<Edge, Road>, schedule: seq<Handler>, upto: nat)
    requires upto <= |schedule|
  {
    forall n, e :: 0 <= n < upto && e in roads ==> !SlipAt(jobs, roads, schedule, n, e)
  }

  lemma {:induction false} NoSlipNoDrift(jobs: Jobs, roads: map<Edge, Road>, schedule: seq<Handler>, n: nat, e: Edge)
    requires n <= |schedule| && e in roads && NeverSlips(jobs, roads, schedule, n)
    ensures Drift(jobs, roads, schedule[..n], e) == 0
  {
    if n > 0 {
      NoSlipNoDrift(jobs, roads, schedule, n - 1, e);
      assert schedule[..n][..n - 1] == schedule[..n - 1];
      assert !SlipAt(jobs, roads, schedule, n - 1, e);
    }
  }

  lemma SettledIffNoDrift(jobs: Jobs, roads: map<Edge, Road>, schedule: seq<Handler>)
    requires Valid(jobs) && FreshRoads(roads)
    ensures Settled(jobs, After(jobs, roads, schedule))
       <==> forall e :: e in roads ==> Drift(jobs, roads, schedule, e) == 0
  {
    AfterHoldsInv(jobs, roads, schedule);
    forall e | e in roads
      ensures After(jobs, roads, schedule).roads[e].bookings
           == Owed(jobs, After(jobs, roads, schedule), e) + Drift(jobs, roads, schedule, e)
    {
      CounterShows(jobs, roads, schedule, e);
    }
  }

  /** All counters are exact at every moment of a schedule if and only if no release finds a
      counter at zero, no removal marks a row that was cancelled after it was read, and no
      confirmation revives one. */
  lemma CountersExactIff(jobs: Jobs, roads: map<Edge, Road>, schedule: seq<Handler>)
    requires Valid(jobs) && FreshRoads(roads)
    ensures (forall n :: 0 <= n <= |schedule| ==> Settled(jobs, After(jobs, roads, schedule[..n])))
       <==> NeverSlips(jobs, roads, schedule, |schedule|)
  {
    if NeverSlips(jobs, roads, schedule, |schedule|) {
      forall n | 0 <= n <= |schedule| ensures Settled(jobs, After(jobs, roads, schedule[..n])) {
        forall e | e in roads ensures Drift(jobs, roads, schedule[..n], e) == 0 {
          NoSlipNoDrift(jobs, roads, schedule, n, e);
        }
        SettledIffNoDrift(jobs, roads, schedule[..n]);
      }
    } else {
      var n, e :| 0 <= n < |schedule| && e in roads && SlipAt(jobs, roads, schedule, n, e);
      SlipUnsettles(jobs, roads, schedule, n, e);
    }
  }

  lemma SlipUnsettles(jobs: Jobs, roads: map<Edge, Road>, schedule: seq<Handler>, n: nat, e: Edge)
    requires Valid(jobs) && FreshRoads(roads)
    requires n < |schedule| && e in roads && SlipAt(jobs, roads, schedule, n, e)
    ensures !Settled(jobs, After(jobs, roads, schedule[..n])) || !Settled(jobs, After(jobs, roads, schedule[..n + 1]))
  {
    SettledIffNoDrift(jobs, roads, schedule[..n]);
    SettledIffNoDrift(jobs, roads, schedule[..n + 1]);
    assert schedule[..n + 1][..n] == schedule[..n];
  }

  // ---- overlapping removals -------------------------------------------------------------------

  /** Has read the row of id and is going to write it. */
  predicate Working(jobs: Jobs, s: State, h: Handler, id: Id) {
    h in jobs && !jobs[h].Add? && jobs[h].id == id && (StageOf(s, h).Freeing? || StageOf(s, h).Confirming?)
  }

  /** h is about to read a row that another handler is working on; two confirmations may. */
  ghost predicate Overlaps(jobs: Jobs, s: State, h: Handler) {
    && h in jobs && !jobs[h].Add? && StageOf(s, h) == Start
    && Working(jobs, Next(jobs, s, h), h, jobs[h].id)
    && exists g :: g != h && Working(jobs, s, g, jobs[h].id) && (jobs[h].Remove? || jobs[g].Remove?)
  }

  /** Removals have their row to themselves, and rows being worked on are live. */
  ghost predicate Apart(jobs: Jobs, s: State) {
    && (forall g, h, id :: Working(jobs, s, g, id) && Working(jobs, s, h, id) && g != h ==>
          jobs[g].Settle? && jobs[h].Settle?)
    && (forall h, id :: Working(jobs, s, h, id) ==> id in s.bookings && Live(s.bookings[id]))
  }

  lemma ApartKept(jobs: Jobs, s: State, h: Handler)
    requires Valid(jobs) && Inv(jobs, s) && Apart(jobs, s) && !Overlaps(jobs, s, h)
    ensures Apart(jobs, Next(jobs, s, h))
  {
    var s' := Next(jobs, s, h);
    forall g, k, id | Working(jobs, s', g, id) && Working(jobs, s', k, id) && g != k
      ensures jobs[g].Settle? && jobs[k].Settle?
    {
      WorkingBefore(jobs, s, h, g, id);
      WorkingBefore(jobs, s, h, k, id);
    }
    forall g, id | Working(jobs, s', g, id) ensures id in s'.bookings && Live(s'.bookings[id]) {
      WorkingBefore(jobs, s, h, g, id);
      RowStaysLive(jobs, s, h, g, id);
    }
  }

  /** A handler that is working on a row was already, or has just read it live. */
  lemma WorkingBefore(jobs: Jobs, s: State, h: Handler, g: Handler, id: Id)
    requires Valid(jobs) && Inv(jobs, s) && Working(jobs, Next(jobs, s, h), g, id)
    ensures Working(jobs, s, g, id)
         || (g == h && StageOf(s, h) == Start && id in s.bookings && Live(s.bookings[id])
             && Next(jobs, s, h).bookings == s.bookings)
  {
    if g != h {
      OthersStay(jobs, s, h, g);
    } else {
      assert StageFits(jobs, s, h);
    }
  }

  lemma RowStaysLive(jobs: Jobs, s: State, h: Handler, g: Handler, id: Id)
    requires Valid(jobs) && Inv(jobs, s) && Apart(jobs, s) && Working(jobs, Next(jobs, s, h), g, id)
    requires id in s.bookings && Live(s.bookings[id])
    ensures id in Next(jobs, s, h).bookings && Live(Next(jobs, s, h).bookings[id])
  {
    var s' := Next(jobs, s, h);
    if h in jobs {
      assert StageFits(jobs, s, h);
      if !Live(s'.bookings[id]) {
        assert jobs[h].Remove? && jobs[h].id == id && Working(jobs, s, h, id);
        assert g != h;
        OthersStay(jobs, s, h, g);
        assert Working(jobs, s, g, id);
      }
    }
  }

  lemma {:induction false} ImageSize(jobs: Jobs, hs: set<Handler>)
    requires forall h :: h in hs ==> h in jobs
    requires forall g, h :: g in hs && h in hs && g != h ==> jobs[g].id != jobs[h].id
    ensures |set h | h in hs :: jobs[h].id| == |hs|
  {
    if hs == {} {
      assert (set h | h in hs :: jobs[h].id) == {};
    } else {
      var x :| x in hs;
      ImageSize(jobs, hs - {x});
      var rest := set h | h in hs - {x} :: jobs[h].id;
      assert (set h | h in hs :: jobs[h].id) == rest + {jobs[x].id};
    }
  }

  predicate Removing(jobs: Jobs, s: State, h: Handler, id: Id, e: Edge) {
    h in jobs && jobs[h].Remove? && jobs[h].id == id && StageOf(s, h).Freeing? && e in Legs(StageOf(s, h).route)
  }

  /** A removal reads a live row on the road that another removal is working on. */
  ghost predicate RemovalsOverlap(jobs: Jobs, s: State, h: Handler, e: Edge) {
    && h in jobs && jobs[h].Remove? && StageOf(s, h) == Start
    && Removing(jobs, Next(jobs, s, h), h, jobs[h].id, e)
    && exists g :: g != h && Removing(jobs, s, g, jobs[h].id, e)
  }

  /** Each row on the road has at most one removal at work, and is live while it is. */
  ghost predicate ApartOn(jobs: Jobs, s: State, e: Edge) {
    && (forall g, h, id :: Removing(jobs, s, g, id, e) && Removing(jobs, s, h, id, e) ==> g == h)
    && (forall h, id :: Removing(jobs, s, h, id, e) ==> id in s.bookings && Live(s.bookings[id]))
  }

  lemma RemovingBefore(jobs: Jobs, s: State, x: Handler, g: Handler, id: Id, e: Edge)
    requires Valid(jobs) && Inv(jobs, s) && Removing(jobs, Next(jobs, s, x), g, id, e)
    ensures Removing(jobs, s, g, id, e)
         || (g == x && StageOf(s, x) == Start && id in s.bookings && Live(s.bookings[id])
             && Next(jobs, s, x).bookings == s.bookings)
  {
    if g != x {
      OthersStay(jobs, s, x, g);
    } else {
      assert StageFits(jobs, s, x);
    }
  }

  lemma RemovedRowStaysLive(jobs: Jobs, s: State, x: Handler, g: Handler, id: Id, e: Edge)
    requires Valid(jobs) && Inv(jobs, s) && ApartOn(jobs, s, e) && Removing(jobs, Next(jobs, s, x), g, id, e)
    requires id in s.bookings && Live(s.bookings[id])
    ensures id in Next(jobs, s, x).bookings && Live(Next(jobs, s, x).bookings[id])
  {
    var s' := Next(jobs, s, x);
    if x in jobs {
      assert StageFits(jobs, s, x);
      RowsStay(jobs, s, x, id);
      InvKept(jobs, s, x);
      assert StageFits(jobs, s', g);
      if !Live(s'.bookings[id]) {
        assert Removing(jobs, s, x, id, e);
        assert g != x;
        OthersStay(jobs, s, x, g);
        assert Removing(jobs, s, g, id, e);
      }
    }
  }

  lemma ApartOnKept(jobs: Jobs, s: State, x: Handler, e: Edge)
    requires Valid(jobs) && Inv(jobs, s) && ApartOn(jobs, s, e) && !RemovalsOverlap(jobs, s, x, e)
    ensures ApartOn(jobs, Next(jobs, s, x), e)
  {
    var s' := Next(jobs, s, x);
    forall g, h, id | Removing(jobs, s', g, id, e) && Removing(jobs, s', h, id, e)
      ensures g == h
    {
      RemovingBefore(jobs, s, x, g, id, e);
      RemovingBefore(jobs, s, x, h, id, e);
    }
    forall h, id | Removing(jobs, s', h, id, e) ensures id in s'.bookings && Live(s'.bookings[id]) {
      RemovingBefore(jobs, s, x, h, id, e);
      RemovedRowStaysLive(jobs, s, x, h, id, e);
    }
  }

  /** Everyone who has released the road removes a live row of its own that uses the road. */
  lemma FreerHasUser(jobs: Jobs, s: State, g: Handler, e: Edge)
    requires Inv(jobs, s) && ApartOn(jobs, s, e) && g in Freers(jobs, s, e)
    ensures Removing(jobs, s, g, jobs[g].id, e) && jobs[g].id in Users(s.bookings, e)
  {
    assert StageFits(jobs, s, g);
    assert Removing(jobs, s, g, jobs[g].id, e);
  }

  lemma FreersBelowUsers(jobs: Jobs, s: State, h: Handler, e: Edge)
    requires Valid(jobs) && Inv(jobs, s) && ApartOn(jobs, s, e)
    requires h !in Freers(jobs, s, e) && h in jobs && Removing(jobs, s, h, jobs[h].id, e)
    ensures |Freers(jobs, s, e)| < |Users(s.bookings, e)|
  {
    var freers, users := Freers(jobs, s, e), Users(s.bookings, e);
    assert StageFits(jobs, s, h);
    assert jobs[h].id in users;
    forall g | g in freers ensures jobs[g].id in users - {jobs[h].id} {
      FreerHasUser(jobs, s, g, e);
    }
    forall g, k | g in freers && k in freers && g != k ensures jobs[g].id != jobs[k].id {
      FreerHasUser(jobs, s, g, e);
      FreerHasUser(jobs, s, k, e);
    }
    ImageSize(jobs, freers);
    SubsetSize(set g | g in freers :: jobs[g].id, users - {jobs[h].id});
  }

  lemma ApartNoSlip(jobs: Jobs, s: State, h: Handler, e: Edge)
    requires Valid(jobs) && Inv(jobs, s) && ApartOn(jobs, s, e) && e in s.roads
    requires s.roads[e].bookings == Owed(jobs, s, e) && !Revival(jobs, s, h, e)
    ensures Slip(jobs, s, h, e) == 0
  {
    if h in jobs && jobs[h].Remove? && StageOf(s, h).Freeing? && e in Legs(StageOf(s, h).route) {
      assert StageFits(jobs, s, h);
      assert Removing(jobs, s, h, jobs[h].id, e);
      if e !in Legs(StageOf(s, h).route)[..StageOf(s, h).n] {
        FreersBelowUsers(jobs, s, h, e);
      }
      if StageOf(s, h).n < |Legs(StageOf(s, h).route)| {
        LegTaken(StageOf(s, h).route, StageOf(s, h).n, e);
      }
    }
  }

  /** Neither kind of access that makes the counter of e wrong in the end. */
  ghost predicate Orderly(jobs: Jobs, roads: map<Edge, Road>, schedule: seq<Handler>, n: nat, e: Edge)
    requires n < |schedule|
  {
    var s := After(jobs, roads, schedule[..n]);
    !RemovalsOverlap(jobs, s, schedule[n], e) && !Revival(jobs, s, schedule[n], e)
  }

  ghost predicate OrderlyOn(jobs: Jobs, roads: map<Edge, Road>, schedule: seq<Handler>, upto: nat, e: Edge)
    requires upto <= |schedule|
  {
    forall n :: 0 <= n < upto ==> Orderly(jobs, roads, schedule, n, e)
  }

  lemma InitApartOn(jobs: Jobs, roads: map<Edge, Road>, e: Edge)
    ensures ApartOn(jobs, Init(roads), e)
  {}

  lemma {:induction false} ApartOnSoFar(jobs: Jobs, roads: map<Edge, Road>, schedule: seq<Handler>, n: nat, e: Edge)
    requires Valid(jobs) && FreshRoads(roads) && n <= |schedule| && OrderlyOn(jobs, roads, schedule, n, e)
    ensures ApartOn(jobs, After(jobs, roads, schedule[..n]), e)
  {
    hide Next;
    hide ApartOn;
    hide RemovalsOverlap;
    hide Revival;
    hide Inv;
    if n == 0 {
      InitApartOn(jobs, roads, e);
    } else {
      assert Orderly(jobs, roads, schedule, n - 1, e);
      ApartOnSoFar(jobs, roads, schedule, n - 1, e);
      AfterHoldsInv(jobs, roads, schedule[..n - 1]);
      OneMore(jobs, roads, schedule, n);
      ApartOnKept(jobs, After(jobs, roads, schedule[..n - 1]), schedule[n - 1], e);
    }
  }

  /** On a road where removals do not overlap and nothing is revived, no access slips. */
  lemma {:induction false} OrderlyNeverSlips(
    jobs: Jobs, roads: map<Edge, Road>, schedule: seq<Handler>, n: nat, e: Edge)
    requires Valid(jobs) && FreshRoads(roads) && n <= |schedule| && e in roads && OrderlyOn(jobs, roads, schedule, n, e)
    ensures Drift(jobs, roads, schedule[..n], e) == 0
    ensures forall k :: 0 <= k < n ==> !SlipAt(jobs, roads, schedule, k, e)
  {
    hide Next;
    hide ApartOn;
    hide RemovalsOverlap;
    hide Revival;
    hide Inv;
    hide Slip;
    hide Owed;
    if n > 0 {
      assert Orderly(jobs, roads, schedule, n - 1, e);
      var front := schedule[..n - 1];
      var s := After(jobs, roads, front);
      OrderlyNeverSlips(jobs, roads, schedule, n - 1, e);
      ApartOnSoFar(jobs, roads, schedule, n - 1, e);
      AfterHoldsInv(jobs, roads, front);
      CounterShows(jobs, roads, front, e);
      ApartNoSlip(jobs, s, schedule[n - 1], e);
      assert schedule[..n][..n - 1] == front;
    }
  }

  ghost predicate NeverOverlaps(jobs: Jobs, roads: map<Edge, Road>, schedule: seq<Handler>, upto: nat)
    requires upto <= |schedule|
  {
    forall n :: 0 <= n < upto ==> !Overlaps(jobs, After(jobs, roads, schedule[..n]), schedule[n])
  }

  lemma {:induction false} ApartSoFar(jobs: Jobs, roads: map<Edge, Road>, schedule: seq<Handler>, n: nat)
    requires Valid(jobs) && FreshRoads(roads) && n <= |schedule| && NeverOverlaps(jobs, roads, schedule, n)
    ensures Apart(jobs, After(jobs, roads, schedule[..n]))
  {
    hide Next;
    hide Overlaps;
    hide Inv;
    if n > 0 {
      ApartSoFar(jobs, roads, schedule, n - 1);
      assert schedule[..n][..n - 1] == schedule[..n - 1];
      AfterHoldsInv(jobs, roads, schedule[..n - 1]);
      ApartKept(jobs, After(jobs, roads, schedule[..n - 1]), schedule[n - 1]);
    }
  }

  lemma SettledSoFar(jobs: Jobs, roads: map<Edge, Road>, schedule: seq<Handler>, n: nat)
    requires Valid(jobs) && FreshRoads(roads) && n <= |schedule| && NeverSlips(jobs, roads, schedule, n)
    ensures Settled(jobs, After(jobs, roads, schedule[..n]))
  {
    forall e | e in roads ensures Drift(jobs, roads, schedule[..n], e) == 0 {
      NoSlipNoDrift(jobs, roads, schedule, n, e);
    }
    SettledIffNoDrift(jobs, roads, schedule[..n]);
  }

  /** A removal that has its row to itself overlaps no other, and nothing is revived. */
  lemma RemovalsOverlapIsOverlap(jobs: Jobs, s: State, h: Handler, e: Edge)
    requires RemovalsOverlap(jobs, s, h, e)
    ensures Overlaps(jobs, s, h)
  {
    var g :| g != h && Removing(jobs, s, g, jobs[h].id, e);
    assert Working(jobs, s, g, jobs[h].id);
  }

  lemma RevivalIsWorking(jobs: Jobs, s: State, h: Handler, e: Edge)
    requires Revival(jobs, s, h, e)
    ensures Working(jobs, s, h, jobs[h].id) && CancelledRow(s, jobs[h].id)
  {}

  lemma ApartIsOrderly(jobs: Jobs, s: State, h: Handler, e: Edge)
    requires Valid(jobs) && Inv(jobs, s) && Apart(jobs, s) && !Overlaps(jobs, s, h)
    ensures !RemovalsOverlap(jobs, s, h, e) && !Revival(jobs, s, h, e)
  {
    hide Next;
    if RemovalsOverlap(jobs, s, h, e) {
      RemovalsOverlapIsOverlap(jobs, s, h, e);
    }
    if Revival(jobs, s, h, e) {
      RevivalIsWorking(jobs, s, h, e);
    }
  }

  /** As long as no removal of a booking overlaps another removal or a confirmation of it, every
      counter is exact at every moment, however all other handlers interleave. */
  lemma ExactWithoutOverlap(jobs: Jobs, roads: map<Edge, Road>, schedule: seq<Handler>, n: nat)
    requires Valid(jobs) && FreshRoads(roads) && n <= |schedule| && NeverOverlaps(jobs, roads, schedule, n)
    ensures NeverSlips(jobs, roads, schedule, n) && Settled(jobs, After(jobs, roads, schedule[..n]))
  {
    hide Settled;
    hide After;
    hide SlipAt;
    forall e | e in roads ensures forall k :: 0 <= k < n ==> !SlipAt(jobs, roads, schedule, k, e) {
      OverlapFreeIsOrderly(jobs, roads, schedule, n, e);
      OrderlyNeverSlips(jobs, roads, schedule, n, e);
    }
    SettledSoFar(jobs, roads, schedule, n);
  }

  lemma OverlapFreeIsOrderly(jobs: Jobs, roads: map<Edge, Road>, schedule: seq<Handler>, n: nat, e: Edge)
    requires Valid(jobs) && FreshRoads(roads) && n <= |schedule| && NeverOverlaps(jobs, roads, schedule, n)
    ensures OrderlyOn(jobs, roads, schedule, n, e)
  {
    hide Next;
    hide Apart;
    hide Overlaps;
    hide RemovalsOverlap;
    hide Revival;
    hide Inv;
    forall k | 0 <= k < n ensures Orderly(jobs, roads, schedule, k, e) {
      ApartSoFar(jobs, roads, schedule, k);
      AfterHoldsInv(jobs, roads, schedule[..k]);
      ApartIsOrderly(jobs, After(jobs, roads, schedule[..k]), schedule[k], e);
    }
  }

  /** A cancelled row is touched again only by a handler that read it before it was cancelled. */
  lemma CancelledTouchedByEarlyReader(jobs: Jobs, s: State, h: Handler, id: Id)
    requires Valid(jobs) && Inv(jobs, s) && CancelledRow(s, id) && Next(jobs, s, h).bookings[id] != s.bookings[id]
    ensures Working(jobs, s, h, id)
  {
    assert h in jobs && StageFits(jobs, s, h);
  }

  lemma RemoverKept(jobs: Jobs, s: State, x: Handler, g: Handler, id: Id)
    requires Valid(jobs) && Inv(jobs, s) && Apart(jobs, s) && g in jobs && jobs[g].Remove? && jobs[g].id == id
    requires StageOf(s, g).Freeing? || CancelledRow(s, id)
    ensures StageOf(Next(jobs, s, x), g).Freeing? || CancelledRow(Next(jobs, s, x), id)
  {
    assert StageFits(jobs, s, g);
    if x in jobs {
      assert StageFits(jobs, s, x);
      if x != g { OthersStay(jobs, s, x, g); }
      if CancelledRow(s, id) {
        assert !Working(jobs, s, x, id);
      }
    }
  }

  lemma FewerSteps(jobs: Jobs, roads: map<Edge, Road>, schedule: seq<Handler>, m: nat, n: nat)
    requires m <= n <= |schedule| && NeverOverlaps(jobs, roads, schedule, n)
    ensures NeverOverlaps(jobs, roads, schedule, m)
  {}

  lemma {:induction false} RemoverStays(jobs: Jobs, roads: map<Edge, Road>, schedule: seq<Handler>, k: nat, n: nat,
                                        g: Handler, id: Id)
    requires Valid(jobs) && FreshRoads(roads) && k <= n <= |schedule| && NeverOverlaps(jobs, roads, schedule, n)
    requires g in jobs && jobs[g].Remove? && jobs[g].id == id
    requires StageOf(After(jobs, roads, schedule[..k]), g).Freeing?
    ensures var s := After(jobs, roads, schedule[..n]); StageOf(s, g).Freeing? || CancelledRow(s, id)
  {
    hide *;
    if k < n {
      FewerSteps(jobs, roads, schedule, n - 1, n);
      RemoverStays(jobs, roads, schedule, k, n - 1, g, id);
      ApartSoFar(jobs, roads, schedule, n - 1);
      AfterHoldsInv(jobs, roads, schedule[..n - 1]);
      OneMore(jobs, roads, schedule, n);
      RemoverKept(jobs, After(jobs, roads, schedule[..n - 1]), schedule[n - 1], g, id);
    }
  }

  /** Without overlap only one handler ever releases the road of a booking, at whatever moments
      one looks. */
  lemma ReleasedByOne(jobs: Jobs, roads: map<Edge, Road>, schedule: seq<Handler>, k: nat, n: nat,
                      g: Handler, h: Handler, id: Id)
    requires Valid(jobs) && FreshRoads(roads) && k <= n <= |schedule| && NeverOverlaps(jobs, roads, schedule, n)
    requires g in jobs && jobs[g].Remove? && jobs[g].id == id && h in jobs && jobs[h].Remove? && jobs[h].id == id
    requires StageOf(After(jobs, roads, schedule[..k]), g).Freeing?
    requires StageOf(After(jobs, roads, schedule[..n]), h).Freeing?
    ensures g == h
  {
    var s := After(jobs, roads, schedule[..n]);
    RemoverStays(jobs, roads, schedule, k, n, g, id);
    ApartSoFar(jobs, roads, schedule, n);
    assert Working(jobs, s, h, id);
    if StageOf(s, g).Freeing? {
      assert Working(jobs, s, g, id);
    }
  }

  /** A coordinator confirms a booking once. */
  ghost predicate SettledOnce(jobs: Jobs) {
    forall g, h :: g in jobs && h in jobs && g != h && jobs[g].Settle? && jobs[h].Settle? ==> jobs[g].id != jobs[h].id
  }

  ghost predicate HeldUntilConfirmed(jobs: Jobs, s: State) {
    forall h :: h in jobs && jobs[h].Settle? && StageOf(s, h).Confirming? ==>
      jobs[h].id in s.bookings && s.bookings[jobs[h].id].status == Held
  }

  lemma HeldUntilConfirmedKept(jobs: Jobs, s: State, x: Handler)
    requires Valid(jobs) && SettledOnce(jobs) && Inv(jobs, s) && Apart(jobs, s) && HeldUntilConfirmed(jobs, s)
    ensures HeldUntilConfirmed(jobs, Next(jobs, s, x))
  {
    var s' := Next(jobs, s, x);
    forall h | h in jobs && jobs[h].Settle? && StageOf(s', h).Confirming?
      ensures jobs[h].id in s'.bookings && s'.bookings[jobs[h].id].status == Held
    {
      if x != h && x in jobs {
        OthersStay(jobs, s, x, h);
        assert StageFits(jobs, s, x);
        assert Working(jobs, s, h, jobs[h].id);
        assert jobs[x].Remove? && jobs[x].id == jobs[h].id ==> !Working(jobs, s, x, jobs[h].id);
      }
    }
  }

  lemma {:induction false} HeldSoFar(jobs: Jobs, roads: map<Edge, Road>, schedule: seq<Handler>, n: nat)
    requires Valid(jobs) && SettledOnce(jobs) && FreshRoads(roads) && n <= |schedule|
    requires NeverOverlaps(jobs, roads, schedule, n)
    ensures HeldUntilConfirmed(jobs, After(jobs, roads, schedule[..n]))
  {
    hide Next;
    hide Overlaps;
    hide SettledOnce;
    hide Inv;
    hide Apart;
    if n > 0 {
      HeldSoFar(jobs, roads, schedule, n - 1);
      ApartSoFar(jobs, roads, schedule, n - 1);
      AfterHoldsInv(jobs, roads, schedule[..n - 1]);
      assert schedule[..n][..n - 1] == schedule[..n - 1];
      HeldUntilConfirmedKept(jobs, After(jobs, roads, schedule[..n - 1]), schedule[n - 1]);
    }
  }

  /** Without overlap every write to a row makes the next version of it and advances its status:
      HELD, CONFIRMED, CANCELLED, each at most once. */
  lemma WritesAdvance(jobs: Jobs, roads: map<Edge, Road>, schedule: seq<Handler>, n: nat, id: Id)
    requires Valid(jobs) && SettledOnce(jobs) && FreshRoads(roads) && n < |schedule|
    requires NeverOverlaps(jobs, roads, schedule, n)
    requires var s := After(jobs, roads, schedule[..n]);
             id in s.bookings && Next(jobs, s, schedule[n]).bookings[id] != s.bookings[id]
    ensures var s := After(jobs, roads, schedule[..n]);
            var was, now := s.bookings[id], Next(jobs, s, schedule[n]).bookings[id];
            now.version == was.version + 1 && Rank(now.status) > Rank(was.status)
  {
    var s, h := After(jobs, roads, schedule[..n]), schedule[n];
    AfterHoldsInv(jobs, roads, schedule[..n]);
    ApartSoFar(jobs, roads, schedule, n);
    HeldSoFar(jobs, roads, schedule, n);
    assert StageFits(jobs, s, h);
    assert Working(jobs, s, h, id);
  }

  // ---- two removals that do overlap ------------------------------------------------------------

  /** Both are still at work, or one is and the other has cancelled the row. */
  predicate Doomed(jobs: Jobs, s: State, g: Handler, h: Handler, id: Id, e: Edge) {
    || (Removing(jobs, s, g, id, e) && Removing(jobs, s, h, id, e))
    || ((Removing(jobs, s, g, id, e) || Removing(jobs, s, h, id, e)) && CancelledRow(s, id))
  }

  lemma DoomedKept(jobs: Jobs, s: State, x: Handler, g: Handler, h: Handler, id: Id, e: Edge)
    requires Valid(jobs) && Inv(jobs, s) && g != h && Doomed(jobs, s, g, h, id, e) && Slip(jobs, s, x, e) == 0
    requires e in s.roads
    ensures Doomed(jobs, Next(jobs, s, x), g, h, id, e)
  {
    var s' := Next(jobs, s, x);
    RowsStay(jobs, s, x, id);
    if x in jobs {
      assert StageFits(jobs, s, x);
      if x != g { OthersStay(jobs, s, x, g); }
      if x != h { OthersStay(jobs, s, x, h); }
      CancelledStays(jobs, s, x, g, h, id, e);
    }
  }

  lemma CancelledStays(jobs: Jobs, s: State, x: Handler, g: Handler, h: Handler, id: Id, e: Edge)
    requires Valid(jobs) && Inv(jobs, s) && Slip(jobs, s, x, e) == 0
    requires Removing(jobs, s, g, id, e) || Removing(jobs, s, h, id, e)
    ensures CancelledRow(s, id) ==> CancelledRow(Next(jobs, s, x), id)
  {
    if x in jobs && CancelledRow(s, id) {
      assert StageFits(jobs, s, x);
      var y := if Removing(jobs, s, g, id, e) then g else h;
      assert StageFits(jobs, s, y);
      if jobs[x].Settle? && jobs[x].id == id {
        assert !Revival(jobs, s, x, e);
      }
    }
  }

  lemma {:induction false} DoomedUntilSlip(jobs: Jobs, roads: map<Edge, Road>, schedule: seq<Handler>, k: nat, n: nat,
                                           g: Handler, h: Handler, id: Id, e: Edge)
    requires Valid(jobs) && FreshRoads(roads) && k <= n <= |schedule| && g != h && e in roads
    requires Doomed(jobs, After(jobs, roads, schedule[..k]), g, h, id, e)
    requires forall m :: k <= m < n ==> !SlipAt(jobs, roads, schedule, m, e)
    ensures Doomed(jobs, After(jobs, roads, schedule[..n]), g, h, id, e)
  {
    hide Doomed;
    hide Next;
    hide Slip;
    if k < n {
      DoomedUntilSlip(jobs, roads, schedule, k, n - 1, g, h, id, e);
      assert schedule[..n][..n - 1] == schedule[..n - 1];
      AfterHoldsInv(jobs, roads, schedule[..n - 1]);
      assert !SlipAt(jobs, roads, schedule, n - 1, e);
      DoomedKept(jobs, After(jobs, roads, schedule[..n - 1]), schedule[n - 1], g, h, id, e);
    }
  }

  ghost predicate AllFinished(jobs: Jobs, s: State) {
    forall h :: h in jobs ==> StageOf(s, h) == Finished
  }

  /** Bookings come from jobs. */
  lemma {:induction false} RowHasJob(jobs: Jobs, roads: map<Edge, Road>, schedule: seq<Handler>, id: Id)
    returns (h: Handler)
    requires Valid(jobs) && FreshRoads(roads) && id in After(jobs, roads, schedule).bookings
    ensures h in jobs && jobs[h].Add? && jobs[h].id == id
    ensures var s := After(jobs, roads, schedule);
            && s.bookings[id].route == jobs[h].route && s.bookings[id].trip == jobs[h].trip
            && StageOf(s, h) == Finished
  {
    var front := schedule[..|schedule| - 1];
    var s, x := After(jobs, roads, front), schedule[|schedule| - 1];
    AfterHoldsInv(jobs, roads, front);
    RowsStay(jobs, s, x, id);
    if id in s.bookings {
      h := RowHasJob(jobs, roads, front, id);
      if x != h { OthersStay(jobs, s, x, h); }
    } else {
      h := x;
    }
  }

  /** Right after the second reading both removals are at work on the row. */
  lemma OverlapDooms(jobs: Jobs, s: State, h: Handler, e: Edge) returns (g: Handler)
    requires RemovalsOverlap(jobs, s, h, e)
    ensures g != h && Doomed(jobs, Next(jobs, s, h), g, h, jobs[h].id, e)
  {
    g :| g != h && Removing(jobs, s, g, jobs[h].id, e);
    OthersStay(jobs, s, h, g);
  }

  lemma FinishedNotDoomed(jobs: Jobs, s: State, g: Handler, h: Handler, id: Id, e: Edge)
    requires AllFinished(jobs, s)
    ensures !Doomed(jobs, s, g, h, id, e)
  {}

  lemma RevivalSlips(jobs: Jobs, s: State, h: Handler, e: Edge)
    requires Revival(jobs, s, h, e)
    ensures Slip(jobs, s, h, e) != 0
  {}

  lemma OverlapSlips(jobs: Jobs, roads: map<Edge, Road>, schedule: seq<Handler>, k: nat, e: Edge)
    requires Valid(jobs) && FreshRoads(roads) && k < |schedule| && e in roads
    requires AllFinished(jobs, After(jobs, roads, schedule))
    requires RemovalsOverlap(jobs, After(jobs, roads, schedule[..k]), schedule[k], e)
    ensures !NeverSlips(jobs, roads, schedule, |schedule|)
  {
    hide Next;
    hide After;
    hide Doomed;
    hide SlipAt;
    hide AllFinished;
    hide Valid;
    var s, h := After(jobs, roads, schedule[..k]), schedule[k];
    var g := OverlapDooms(jobs, s, h, e);
    OneMore(jobs, roads, schedule, k + 1);
    assert schedule[..k + 1 - 1] == schedule[..k];
    assert schedule[..|schedule|] == schedule;
    FinishedNotDoomed(jobs, After(jobs, roads, schedule), g, h, jobs[h].id, e);
    if NeverSlips(jobs, roads, schedule, |schedule|) {
      DoomedUntilSlip(jobs, roads, schedule, k + 1, |schedule|, g, h, jobs[h].id, e);
    }
  }

  /** Where every handler gets to finish: the counters are exact at every moment if and only if,
      of the rows that use a known road, no removal reads a live one that another removal is
      working on, and no confirmation is written to a cancelled one. */
  lemma RemovalsExactIff(jobs: Jobs, roads: map<Edge, Road>, schedule: seq<Handler>)
    requires Valid(jobs) && FreshRoads(roads) && AllFinished(jobs, After(jobs, roads, schedule))
    ensures (forall n :: 0 <= n <= |schedule| ==> Settled(jobs, After(jobs, roads, schedule[..n])))
       <==> (forall n, e :: 0 <= n < |schedule| && e in roads ==> Orderly(jobs, roads, schedule, n, e))
  {
    CountersExactIff(jobs, roads, schedule);
    hide Next;
    hide After;
    hide RemovalsOverlap;
    hide Revival;
    hide Slip;
    hide AllFinished;
    hide Settled;
    if forall n, e :: 0 <= n < |schedule| && e in roads ==> Orderly(jobs, roads, schedule, n, e) {
      forall e | e in roads ensures forall n :: 0 <= n < |schedule| ==> !SlipAt(jobs, roads, schedule, n, e) {
        OrderlyNeverSlips(jobs, roads, schedule, |schedule|, e);
      }
    } else {
      var n, e :| 0 <= n < |schedule| && e in roads && !Orderly(jobs, roads, schedule, n, e);
      var s := After(jobs, roads, schedule[..n]);
      if Revival(jobs, s, schedule[n], e) {
        RevivalSlips(jobs, s, schedule[n], e);
        assert SlipAt(jobs, roads, schedule, n, e);
      } else {
        OverlapSlips(jobs, roads, schedule, n, e);
      }
    }
  }
}
