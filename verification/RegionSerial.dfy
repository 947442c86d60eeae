/** A handler that nothing interrupts has the effect of one request on the node. */
module RegionSerial {
  import opened Trips
  import opened RegionTables
  import opened RegionThreads

  /** Handler h moves k times in a row. */
  function Alone(jobs: Jobs, s: State, h: Handler, k: nat): State {
    if k == 0 then s else Next(jobs, Alone(jobs, s, h, k - 1), h)
  }

  lemma {:induction false} AloneIsAfter(jobs: Jobs, roads: map<Edge, Road>, schedule: seq<Handler>, h: Handler, k: nat)
    ensures After(jobs, roads, schedule + seq(k, _ => h)) == Alone(jobs, After(jobs, roads, schedule), h, k)
  {
    if k == 0 {
      assert schedule + seq(k, _ => h) == schedule;
    } else {
      AloneIsAfter(jobs, roads, schedule, h, k - 1);
      assert (schedule + seq(k, _ => h))[..|schedule| + k - 1] == schedule + seq(k - 1, _ => h);
    }
  }

  lemma OneStep(jobs: Jobs, roads: map<Edge, Road>, schedule: seq<Handler>, h: Handler)
    ensures After(jobs, roads, schedule + [h]) == Next(jobs, After(jobs, roads, schedule), h)
  {
    assert (schedule + [h])[..|schedule|] == schedule;
  }

  lemma TwoSteps(jobs: Jobs, roads: map<Edge, Road>, schedule: seq<Handler>, g: Handler, h: Handler)
    ensures After(jobs, roads, schedule + [g, h]) == Next(jobs, Next(jobs, After(jobs, roads, schedule), g), h)
  {
    OneStep(jobs, roads, schedule, g);
    OneStep(jobs, roads, schedule + [g], h);
    assert schedule + [g] + [h] == schedule + [g, h];
  }

  lemma AloneOnce(jobs: Jobs, s: State, h: Handler)
    ensures Alone(jobs, s, h, 1) == Next(jobs, s, h)
  {
    assert Alone(jobs, s, h, 0) == s;
  }

  lemma {:induction false} AloneInTurn(jobs: Jobs, s: State, h: Handler, j: nat, k: nat)
    ensures Alone(jobs, Alone(jobs, s, h, j), h, k) == Alone(jobs, s, h, j + k)
  {
    if k > 0 {
      AloneInTurn(jobs, s, h, j, k - 1);
    }
  }

  lemma {:induction false} LookAlone(jobs: Jobs, s: State, h: Handler, k: nat)
    requires h in jobs && jobs[h].Add? && StageOf(s, h) == Looking(0) && k <= |Legs(jobs[h].route)|
    requires forall i :: 0 <= i < k ==> !Full(s.roads, Legs(jobs[h].route)[i])
    ensures Alone(jobs, s, h, k) == Moved(s, h, Looking(k))
  {
    if k == 0 {
      assert s.stage[h := Looking(0)] == s.stage;
    } else {
      LookAlone(jobs, s, h, k - 1);
      assert s.stage[h := Looking(k - 1)][h := Looking(k)] == s.stage[h := Looking(k)];
    }
  }

  lemma {:induction false} TakeAlone(jobs: Jobs, s: State, h: Handler, k: nat)
    requires h in jobs && jobs[h].Add? && StageOf(s, h) == Taking(0) && k <= |Legs(jobs[h].route)|
    ensures Alone(jobs, s, h, k) == Moved(s, h, Taking(k)).(roads := Reserve(s.roads, Legs(jobs[h].route)[..k]))
  {
    if k == 0 {
      assert s.stage[h := Taking(0)] == s.stage;
    } else {
      TakeAlone(jobs, s, h, k - 1);
      var legs := Legs(jobs[h].route);
      assert legs[..k][..k - 1] == legs[..k - 1];
      assert s.stage[h := Taking(k - 1)][h := Taking(k)] == s.stage[h := Taking(k)];
    }
  }

  lemma {:induction false} FreeAlone(jobs: Jobs, s: State, h: Handler, route: seq<City>, k: nat)
    requires h in jobs && jobs[h].Remove? && StageOf(s, h) == Freeing(route, 0) && k <= |Legs(route)|
    ensures Alone(jobs, s, h, k) == Moved(s, h, Freeing(route, k)).(roads := Release(s.roads, Legs(route)[..k]))
  {
    if k == 0 {
      assert s.stage[h := Freeing(route, 0)] == s.stage;
    } else {
      FreeAlone(jobs, s, h, route, k - 1);
      var legs := Legs(route);
      assert legs[..k][..k - 1] == legs[..k - 1];
      assert s.stage[h := Freeing(route, k - 1)][h := Freeing(route, k)] == s.stage[h := Freeing(route, k)];
    }
  }

  /** h has finished, has done op to the tables, and nobody else has moved. */
  ghost predicate Did(cities: set<City>, s: State, s': State, h: Handler, held: map<Id, Id>, op: Op) {
    && s'.stage == s.stage[h := Finished]
    && Tables(s'.roads, s'.bookings, held) == Apply(cities, Tables(s.roads, s.bookings, held), op).(held := held)
  }

  /** The request a handler serves; path is what the path search returned for it. */
  ghost predicate Serves(cities: set<City>, job: Job, held: map<Id, Id>, op: Op) {
    match job
    case Add(id, trip, route, status) =>
      if status == Confirmed then trip.origin in cities && trip.dest in cities && op == Book(id, trip, route)
      else status == Held && op.Prepare? && op.id == id && op.trip == trip && route == HeldRoute(cities, trip, op.path)
    case Remove(id, heldOnly) =>
      if heldOnly then op == AbortOwn(id) || (op.Abort? && op.txn in held && held[op.txn] == id)
      else op == Cancel(id)
    case Settle(id) =>
      op == ConfirmOwn(id) || (op.Commit? && op.txn in held && held[op.txn] == id)
  }

  function WithoutRow(s: State, h: Handler, id: Id): State
    requires id in s.bookings
  {
    State(Release(s.roads, Legs(s.bookings[id].route)), WithStatus(s.bookings, id, Cancelled), s.stage[h := Finished])
  }

  lemma CancelledAlone(jobs: Jobs, s: State, h: Handler, id: Id)
    requires h in jobs && jobs[h].Remove? && jobs[h].id == id && id in s.bookings
    requires StageOf(s, h) == Freeing(s.bookings[id].route, 0)
    ensures Alone(jobs, s, h, |Legs(s.bookings[id].route)| + 1) == WithoutRow(s, h, id)
  {
    var route := s.bookings[id].route;
    FreeAlone(jobs, s, h, route, |Legs(route)|);
    assert Legs(route)[..|Legs(route)|] == Legs(route);
    assert s.stage[h := Freeing(route, |Legs(route)|)][h := Finished] == s.stage[h := Finished];
  }

  lemma RemoveAlone(cities: set<City>, jobs: Jobs, s: State, h: Handler, held: map<Id, Id>, op: Op) returns (k: nat)
    requires h in jobs && jobs[h].Remove? && StageOf(s, h) == Start && Serves(cities, jobs[h], held, op)
    ensures Did(cities, s, Alone(jobs, s, h, k), h, held, op)
  {
    hide *;
    var id := jobs[h].id;
    AloneOnce(jobs, s, h);
    if id in s.bookings && (if jobs[h].heldOnly then s.bookings[id].status == Held else Live(s.bookings[id])) {
      var route := s.bookings[id].route;
      RowRead(jobs, s, h);
      CancelledAlone(jobs, Moved(s, h, Freeing(route, 0)), h, id);
      k := 1 + (|Legs(route)| + 1);
      AloneInTurn(jobs, s, h, 1, |Legs(route)| + 1);
      RowRemoved(cities, jobs, s, h, held, op);
    } else {
      NothingRemoved(cities, jobs, s, h, held, op);
      k := 1;
    }
  }

  lemma NothingRemoved(cities: set<City>, jobs: Jobs, s: State, h: Handler, held: map<Id, Id>, op: Op)
    requires h in jobs && jobs[h].Remove? && StageOf(s, h) == Start && Serves(cities, jobs[h], held, op)
    requires jobs[h].id in s.bookings ==>
               !(if jobs[h].heldOnly then s.bookings[jobs[h].id].status == Held else Live(s.bookings[jobs[h].id]))
    ensures Next(jobs, s, h) == Moved(s, h, Finished) && Did(cities, s, Moved(s, h, Finished), h, held, op)
  {}

  lemma RowRead(jobs: Jobs, s: State, h: Handler)
    requires h in jobs && jobs[h].Remove? && StageOf(s, h) == Start && jobs[h].id in s.bookings
    requires if jobs[h].heldOnly then s.bookings[jobs[h].id].status == Held else Live(s.bookings[jobs[h].id])
    ensures var freeing := Freeing(s.bookings[jobs[h].id].route, 0);
            && Next(jobs, s, h) == Moved(s, h, freeing)
            && StageOf(Moved(s, h, freeing), h) == freeing
            && Moved(s, h, freeing).bookings == s.bookings
  {}

  lemma RowRemoved(cities: set<City>, jobs: Jobs, s: State, h: Handler, held: map<Id, Id>, op: Op)
    requires h in jobs && jobs[h].Remove? && Serves(cities, jobs[h], held, op) && jobs[h].id in s.bookings
    requires if jobs[h].heldOnly then s.bookings[jobs[h].id].status == Held else Live(s.bookings[jobs[h].id])
    ensures var route := s.bookings[jobs[h].id].route;
            Did(cities, s, WithoutRow(Moved(s, h, Freeing(route, 0)), h, jobs[h].id), h, held, op)
  {
    assert s.stage[h := Freeing(s.bookings[jobs[h].id].route, 0)][h := Finished] == s.stage[h := Finished];
  }

  lemma SettleAlone(cities: set<City>, jobs: Jobs, s: State, h: Handler, held: map<Id, Id>, op: Op) returns (k: nat)
    requires h in jobs && jobs[h].Settle? && StageOf(s, h) == Start && Serves(cities, jobs[h], held, op)
    ensures Did(cities, s, Alone(jobs, s, h, k), h, held, op)
  {
    var read := Alone(jobs, s, h, 1);
    AloneOnce(jobs, s, h);
    if StageOf(read, h) == Finished {
      k := 1;
    } else {
      k := 2;
      assert Alone(jobs, s, h, 2) == Next(jobs, read, h);
      assert s.stage[h := Confirming][h := Finished] == s.stage[h := Finished];
    }
  }

  lemma RefusedAlone(jobs: Jobs, s: State, h: Handler, i: nat)
    requires h in jobs && jobs[h].Add? && StageOf(s, h) == Looking(0) && i < |Legs(jobs[h].route)|
    requires Full(s.roads, Legs(jobs[h].route)[i])
    requires forall j :: 0 <= j < i ==> !Full(s.roads, Legs(jobs[h].route)[j])
    ensures Alone(jobs, s, h, i + 1) == Moved(s, h, Finished)
  {
    LookAlone(jobs, s, h, i);
    assert s.stage[h := Looking(i)][h := Finished] == s.stage[h := Finished];
  }

  function WithRow(s: State, h: Handler, job: Job): State
    requires job.Add?
  {
    State(Reserve(s.roads, Legs(job.route)),
          s.bookings[job.id := Booking(job.trip, job.status, job.route, 1)],
          s.stage[h := Finished])
  }

  lemma ReadyAlone(jobs: Jobs, s: State, h: Handler)
    requires h in jobs && jobs[h].Add? && StageOf(s, h) == Looking(0) && HasRoom(s.roads, Legs(jobs[h].route))
    ensures Alone(jobs, s, h, |Legs(jobs[h].route)| + 1) == Moved(s, h, Taking(0))
  {
    var legs := Legs(jobs[h].route);
    forall i | 0 <= i < |legs| ensures !Full(s.roads, legs[i]) {
      assert legs[i] in legs;
    }
    LookAlone(jobs, s, h, |legs|);
    assert s.stage[h := Looking(|legs|)][h := Taking(0)] == s.stage[h := Taking(0)];
  }

  lemma InsertAlone(jobs: Jobs, s: State, h: Handler)
    requires h in jobs && jobs[h].Add? && StageOf(s, h) == Taking(0)
    ensures Alone(jobs, s, h, |Legs(jobs[h].route)| + 1) == WithRow(s, h, jobs[h])
  {
    var legs := Legs(jobs[h].route);
    TakeAlone(jobs, s, h, |legs|);
    assert legs[..|legs|] == legs;
    assert s.stage[h := Taking(|legs|)][h := Finished] == s.stage[h := Finished];
  }

  lemma AcceptedAlone(jobs: Jobs, s: State, h: Handler)
    requires h in jobs && jobs[h].Add? && StageOf(s, h) == Looking(0) && HasRoom(s.roads, Legs(jobs[h].route))
    ensures Alone(jobs, s, h, 2 * |Legs(jobs[h].route)| + 2) == WithRow(s, h, jobs[h])
  {
    hide Next;
    var n := |Legs(jobs[h].route)|;
    ReadyAlone(jobs, s, h);
    InsertAlone(jobs, Moved(s, h, Taking(0)), h);
    AloneInTurn(jobs, s, h, n + 1, n + 1);
    assert s.stage[h := Taking(0)][h := Finished] == s.stage[h := Finished];
  }

  lemma {:induction false} FirstFull(roads: map<Edge, Road>, legs: seq<Edge>, n: nat) returns (i: nat)
    requires n <= |legs| && exists j :: 0 <= j < n && Full(roads, legs[j])
    ensures i < n && Full(roads, legs[i]) && forall j :: 0 <= j < i ==> !Full(roads, legs[j])
  {
    if exists j :: 0 <= j < n - 1 && Full(roads, legs[j]) {
      i := FirstFull(roads, legs, n - 1);
    } else {
      i := n - 1;
    }
  }

  lemma CheckedAlone(jobs: Jobs, s: State, h: Handler) returns (k: nat)
    requires h in jobs && jobs[h].Add? && StageOf(s, h) == Looking(0)
    ensures Alone(jobs, s, h, k)
         == if HasRoom(s.roads, Legs(jobs[h].route)) then WithRow(s, h, jobs[h]) else Moved(s, h, Finished)
  {
    var legs := Legs(jobs[h].route);
    if HasRoom(s.roads, legs) {
      AcceptedAlone(jobs, s, h);
      k := 2 * |legs| + 2;
    } else {
      var i := FirstFull(s.roads, legs, |legs|);
      RefusedAlone(jobs, s, h, i);
      k := i + 1;
    }
  }

  lemma BookedAlone(jobs: Jobs, s: State, h: Handler)
    requires h in jobs && jobs[h].Add? && StageOf(s, h) == Start
    requires !LockTaken(jobs, s) && !Conflicts(s.bookings, jobs[h].trip) && jobs[h].route != []
    requires HasRoom(s.roads, Legs(jobs[h].route))
    ensures Alone(jobs, s, h, 2 * |Legs(jobs[h].route)| + 3) == WithRow(s, h, jobs[h])
  {
    AloneOnce(jobs, s, h);
    var checked := Moved(s, h, Looking(0));
    assert Next(jobs, s, h) == checked;
    assert StageOf(checked, h) == Looking(0) && checked.roads == s.roads;
    assert WithRow(checked, h, jobs[h]) == WithRow(s, h, jobs[h]) by {
      assert s.stage[h := Looking(0)][h := Finished] == s.stage[h := Finished];
    }
    hide *;
    AcceptedAlone(jobs, checked, h);
    AloneInTurn(jobs, s, h, 1, 2 * |Legs(jobs[h].route)| + 2);
  }

  lemma AddAlone(cities: set<City>, jobs: Jobs, s: State, h: Handler, held: map<Id, Id>, op: Op) returns (k: nat)
    requires h in jobs && jobs[h].Add? && StageOf(s, h) == Start && Serves(cities, jobs[h], held, op)
    requires jobs[h].status == Confirmed ==> !LockTaken(jobs, s)
    ensures Did(cities, s, Alone(jobs, s, h, k), h, held, op)
  {
    AloneOnce(jobs, s, h);
    hide Alone;
    if Conflicts(s.bookings, jobs[h].trip) || (jobs[h].status == Confirmed && jobs[h].route == []) {
      k := 1;
    } else {
      var checked := Moved(s, h, Looking(0));
      assert Next(jobs, s, h) == checked;
      hide *;
      var j := CheckedAlone(jobs, checked, h);
      AloneInTurn(jobs, s, h, 1, j);
      RowAdded(cities, jobs, s, h, held, op);
      k := 1 + j;
    }
  }

  lemma RowAdded(cities: set<City>, jobs: Jobs, s: State, h: Handler, held: map<Id, Id>, op: Op)
    requires h in jobs && jobs[h].Add? && Serves(cities, jobs[h], held, op)
    requires !Conflicts(s.bookings, jobs[h].trip) && (jobs[h].status == Confirmed ==> jobs[h].route != [])
    ensures var checked := Moved(s, h, Looking(0));
            Did(cities, s, if HasRoom(s.roads, Legs(jobs[h].route)) then WithRow(checked, h, jobs[h])
                           else Moved(checked, h, Finished), h, held, op)
  {
    assert s.stage[h := Looking(0)][h := Finished] == s.stage[h := Finished];
  }

  /** Every handler that nothing interrupts finishes, and has then done to the tables exactly
      what its request does as a whole. */
  lemma HandlerAlone(cities: set<City>, jobs: Jobs, s: State, h: Handler, held: map<Id, Id>, op: Op) returns (k: nat)
    requires h in jobs && StageOf(s, h) == Start && Serves(cities, jobs[h], held, op)
    requires jobs[h].Add? && jobs[h].status == Confirmed ==> !LockTaken(jobs, s)
    ensures Did(cities, s, Alone(jobs, s, h, k), h, held, op)
  {
    match jobs[h]
    case Add(_, _, _, _) => k := AddAlone(cities, jobs, s, h, held, op);
    case Remove(_, _) => k := RemoveAlone(cities, jobs, s, h, held, op);
    case Settle(_) => k := SettleAlone(cities, jobs, s, h, held, op);
  }
}
