/** When overlapping handlers take a road past its capacity, and when they book one trip twice. */
module RegionRaces {
  import opened Trips
  import opened RegionTables
  import opened RegionLaws
  import opened RegionThreads
  import opened RegionThreadsProof

  // ---- capacity --------------------------------------------------------------------------------

  ghost predicate Within(s: State) {
    forall e :: e in s.roads ==> s.roads[e].bookings <= s.roads[e].capacity
  }

  /** h is about to reserve the road. */
  predicate Takes(jobs: Jobs, s: State, h: Handler, e: Edge) {
    && h in jobs && jobs[h].Add? && StageOf(s, h).Taking?
    && StageOf(s, h).n < |Legs(jobs[h].route)| && Legs(jobs[h].route)[StageOf(s, h).n] == e
  }

  predicate TakesFull(jobs: Jobs, s: State, h: Handler, e: Edge) {
    Takes(jobs, s, h, e) && Full(s.roads, e)
  }

  /** A counter rises only by a reservation of that road; no capacity ever changes. */
  lemma RoadMoves(jobs: Jobs, s: State, h: Handler, e: Edge)
    requires e in s.roads && s.roads[e].bookings >= 0
    ensures var s' := Next(jobs, s, h);
            && e in s'.roads && s'.roads[e].capacity == s.roads[e].capacity
            && if Takes(jobs, s, h, e) then s'.roads[e].bookings == s.roads[e].bookings + 1
               else s'.roads[e].bookings <= s.roads[e].bookings
  {}

  lemma WithinKept(jobs: Jobs, s: State, h: Handler)
    requires Valid(jobs) && Inv(jobs, s) && Within(s) && forall e :: e in s.roads ==> !TakesFull(jobs, s, h, e)
    ensures Within(Next(jobs, s, h))
  {
    var s' := Next(jobs, s, h);
    assert s'.roads.Keys == s.roads.Keys;
    hide Next;
    forall e | e in s'.roads ensures s'.roads[e].bookings <= s'.roads[e].capacity {
      RoadMoves(jobs, s, h, e);
    }
  }

  ghost predicate NeverTakesFull(jobs: Jobs, roads: map<Edge, Road>, schedule: seq<Handler>, upto: nat)
    requires upto <= |schedule|
  {
    forall n, e :: 0 <= n < upto && e in roads ==> !TakesFull(jobs, After(jobs, roads, schedule[..n]), schedule[n], e)
  }

  lemma {:induction false} WithinSoFar(jobs: Jobs, roads: map<Edge, Road>, schedule: seq<Handler>, n: nat)
    requires Valid(jobs) && FreshRoads(roads) && n <= |schedule| && NeverTakesFull(jobs, roads, schedule, n)
    ensures Within(After(jobs, roads, schedule[..n]))
  {
    if n > 0 {
      WithinSoFar(jobs, roads, schedule, n - 1);
      AfterHoldsInv(jobs, roads, schedule[..n - 1]);
      assert schedule[..n][..n - 1] == schedule[..n - 1];
      WithinKept(jobs, After(jobs, roads, schedule[..n - 1]), schedule[n - 1]);
    }
  }

  lemma ExceedsAfter(jobs: Jobs, s: State, h: Handler, e: Edge)
    requires e in s.roads && s.roads[e].bookings >= 0 && TakesFull(jobs, s, h, e)
    ensures !Within(Next(jobs, s, h))
  {
    RoadMoves(jobs, s, h, e);
    hide Next;
  }

  /** Every road stays within its capacity at every moment if and only if no reservation finds
      its road full. */
  lemma WithinCapacityIff(jobs: Jobs, roads: map<Edge, Road>, schedule: seq<Handler>)
    requires Valid(jobs) && FreshRoads(roads)
    ensures (forall n :: 0 <= n <= |schedule| ==> Within(After(jobs, roads, schedule[..n])))
       <==> NeverTakesFull(jobs, roads, schedule, |schedule|)
  {
    hide Next;
    hide After;
    hide TakesFull;
    hide Within;
    if NeverTakesFull(jobs, roads, schedule, |schedule|) {
      forall n | 0 <= n <= |schedule| ensures Within(After(jobs, roads, schedule[..n])) {
        WithinSoFar(jobs, roads, schedule, n);
      }
    } else {
      var n, e :| 0 <= n < |schedule| && e in roads
                  && TakesFull(jobs, After(jobs, roads, schedule[..n]), schedule[n], e);
      AfterHoldsInv(jobs, roads, schedule[..n]);
      OneMore(jobs, roads, schedule, n + 1);
      assert schedule[..n + 1 - 1] == schedule[..n];
      ExceedsAfter(jobs, After(jobs, roads, schedule[..n]), schedule[n], e);
    }
  }

  /** At step k handler h finds room on its leg i. */
  predicate LooksAt(jobs: Jobs, roads: map<Edge, Road>, schedule: seq<Handler>, k: nat, h: Handler, i: nat)
    requires k < |schedule|
  {
    var s := After(jobs, roads, schedule[..k]);
    && schedule[k] == h && h in jobs && jobs[h].Add? && StageOf(s, h) == Looking(i)
    && i < |Legs(jobs[h].route)| && !Full(s.roads, Legs(jobs[h].route)[i])
  }

  /** Legs a handler has looked at. */
  function Looked(jobs: Jobs, s: State, h: Handler): int
    requires h in jobs && jobs[h].Add?
  {
    match StageOf(s, h)
    case Looking(n) => n
    case Taking(_) => |Legs(jobs[h].route)|
    case _ => 0
  }

  /** What a handler has looked at it has found with room. */
  lemma {:induction false} LookedBefore(jobs: Jobs, roads: map<Edge, Road>, schedule: seq<Handler>, n: nat,
                                        h: Handler, i: nat) returns (k: nat)
    requires Valid(jobs) && FreshRoads(roads) && n <= |schedule| && h in jobs && jobs[h].Add?
    requires i < Looked(jobs, After(jobs, roads, schedule[..n]), h)
    requires i < |Legs(jobs[h].route)|
    ensures k < n && LooksAt(jobs, roads, schedule, k, h, i)
  {
    assert schedule[..n][..n - 1] == schedule[..n - 1];
    var s, x := After(jobs, roads, schedule[..n - 1]), schedule[n - 1];
    AfterHoldsInv(jobs, roads, schedule[..n - 1]);
    assert StageFits(jobs, s, h);
    if x != h {
      OthersStay(jobs, s, x, h);
    }
    if i < Looked(jobs, s, h) {
      k := LookedBefore(jobs, roads, schedule, n - 1, h, i);
    } else {
      k := n - 1;
    }
  }

  /** A counter that has risen past the capacity was taken by someone in between. */
  lemma {:induction false} TakenBetween(jobs: Jobs, roads: map<Edge, Road>, schedule: seq<Handler>, k: nat, n: nat,
                                        e: Edge) returns (m: nat)
    requires Valid(jobs) && FreshRoads(roads) && k <= n <= |schedule| && e in roads
    requires !Full(After(jobs, roads, schedule[..k]).roads, e) && Full(After(jobs, roads, schedule[..n]).roads, e)
    ensures k <= m < n && Takes(jobs, After(jobs, roads, schedule[..m]), schedule[m], e)
  {
    AfterHoldsInv(jobs, roads, schedule[..k]);
    AfterHoldsInv(jobs, roads, schedule[..n - 1]);
    assert schedule[..n][..n - 1] == schedule[..n - 1];
    var s := After(jobs, roads, schedule[..n - 1]);
    RoadMoves(jobs, s, schedule[n - 1], e);
    if Takes(jobs, s, schedule[n - 1], e) {
      m := n - 1;
    } else {
      m := TakenBetween(jobs, roads, schedule, k, n - 1, e);
    }
  }

  /** How far an adding handler has got. */
  function Progress(jobs: Jobs, s: State, h: Handler): int
    requires h in jobs && jobs[h].Add?
  {
    match StageOf(s, h)
    case Start => 0
    case Looking(n) => 1 + n
    case Taking(n) => 2 + |Legs(jobs[h].route)| + n
    case _ => 3 + 2 * |Legs(jobs[h].route)|
  }

  lemma ProgressStep(jobs: Jobs, s: State, x: Handler, h: Handler)
    requires h in jobs && jobs[h].Add? && StageFits(jobs, s, h)
    ensures Progress(jobs, s, h) <= Progress(jobs, Next(jobs, s, x), h)
  {
    if x != h {
      hide Next;
      OthersStay(jobs, s, x, h);
    }
  }

  lemma {:induction false} ProgressGrows(jobs: Jobs, roads: map<Edge, Road>, schedule: seq<Handler>, k: nat, n: nat,
                                         h: Handler)
    requires Valid(jobs) && FreshRoads(roads) && k <= n <= |schedule| && h in jobs && jobs[h].Add?
    ensures Progress(jobs, After(jobs, roads, schedule[..k]), h) <= Progress(jobs, After(jobs, roads, schedule[..n]), h)
  {
    if k < n {
      ProgressGrows(jobs, roads, schedule, k, n - 1, h);
      assert schedule[..n][..n - 1] == schedule[..n - 1];
      AfterHoldsInv(jobs, roads, schedule[..n - 1]);
      hide Next;
      hide Progress;
      ProgressStep(jobs, After(jobs, roads, schedule[..n - 1]), schedule[n - 1], h);
    }
  }

  /** A reservation that finds its road full has been overtaken: after the handler found room
      there, another handler reserved the same road. */
  lemma FullMeansOvertaken(jobs: Jobs, roads: map<Edge, Road>, schedule: seq<Handler>, n: nat, e: Edge)
    returns (k: nat, m: nat)
    requires Valid(jobs) && FreshRoads(roads) && n < |schedule| && e in roads
    requires TakesFull(jobs, After(jobs, roads, schedule[..n]), schedule[n], e)
    ensures k < m < n && schedule[m] != schedule[n]
    ensures var i := StageOf(After(jobs, roads, schedule[..n]), schedule[n]).n;
            LooksAt(jobs, roads, schedule, k, schedule[n], i)
    ensures Takes(jobs, After(jobs, roads, schedule[..m]), schedule[m], e)
  {
    var h := schedule[n];
    var i := StageOf(After(jobs, roads, schedule[..n]), h).n;
    k := LookedBefore(jobs, roads, schedule, n, h, i);
    m := TakenBetween(jobs, roads, schedule, k, n, e);
    if schedule[m] == h {
      TookAlready(jobs, roads, schedule, m, n, h, e);
    }
  }

  /** No handler reserves a road twice. */
  lemma TookAlready(jobs: Jobs, roads: map<Edge, Road>, schedule: seq<Handler>, m: nat, n: nat, h: Handler, e: Edge)
    requires Valid(jobs) && FreshRoads(roads) && m < n <= |schedule| && schedule[m] == h
    requires Takes(jobs, After(jobs, roads, schedule[..m]), h, e)
    ensures !Takes(jobs, After(jobs, roads, schedule[..n]), h, e)
  {
    assert schedule[..m + 1][..m] == schedule[..m];
    ProgressGrows(jobs, roads, schedule, m + 1, n, h);
    SimpleLegs(jobs[h].route);
  }

  // ---- booking one trip twice ------------------------------------------------------------------

  /** Stands for a claim on its trip: a live row, or one about to be inserted. */
  predicate Claims(jobs: Jobs, s: State, h: Handler) {
    && h in jobs && jobs[h].Add?
    && (Inserting(s, h) || (jobs[h].id in s.bookings && Live(s.bookings[jobs[h].id])))
  }

  /** h's conflict check passes while g is between its own check and its insert. */
  predicate Overtakes(jobs: Jobs, s: State, h: Handler, g: Handler) {
    && g != h && h in jobs && jobs[h].Add? && g in jobs && jobs[g].Add? && Inserting(s, g)
    && StageOf(s, h) == Start && Inserting(Next(jobs, s, h), h)
  }

  /** x confirms a booking of h that has been cancelled meanwhile. */
  predicate Revives(jobs: Jobs, s: State, x: Handler, h: Handler) {
    && x in jobs && jobs[x].Settle? && StageOf(s, x).Confirming?
    && h in jobs && jobs[h].id == jobs[x].id && CancelledRow(s, jobs[x].id)
  }

  /** The booking lock keeps two bookings of the node itself apart. */
  lemma LockedBookingsNeverRace(jobs: Jobs, s: State, h: Handler, g: Handler)
    requires h in jobs && g in jobs && jobs[h].Add? && jobs[g].Add?
    requires jobs[h].status == Confirmed && jobs[g].status == Confirmed
    ensures !Overtakes(jobs, s, h, g)
  {
    if Inserting(s, g) {
      assert LockTaken(jobs, s);
    }
  }

  ghost predicate Raced(jobs: Jobs, roads: map<Edge, Road>, schedule: seq<Handler>, k: nat, g: Handler, h: Handler)
    requires k < |schedule|
  {
    var s := After(jobs, roads, schedule[..k]);
    || (schedule[k] == h && Overtakes(jobs, s, h, g))
    || (schedule[k] == g && Overtakes(jobs, s, g, h))
  }

  /** A new claim is made by passing the check or by a revival. */
  lemma NewClaim(jobs: Jobs, s: State, x: Handler, h: Handler)
    requires Valid(jobs) && Inv(jobs, s) && Claims(jobs, Next(jobs, s, x), h) && !Claims(jobs, s, h)
    ensures Revives(jobs, s, x, h)
         || (x == h && StageOf(s, h) == Start && Inserting(Next(jobs, s, h), h) && !Conflicts(s.bookings, jobs[h].trip))
  {
    assert StageFits(jobs, s, h);
    if x != h {
      OthersStay(jobs, s, x, h);
      RowsStay(jobs, s, x, jobs[h].id);
    }
  }

  /** A row carries the trip of the handler that inserted it. */
  lemma TripOfRow(jobs: Jobs, roads: map<Edge, Road>, schedule: seq<Handler>, h: Handler)
    requires Valid(jobs) && FreshRoads(roads) && h in jobs && jobs[h].Add?
    requires jobs[h].id in After(jobs, roads, schedule).bookings
    ensures After(jobs, roads, schedule).bookings[jobs[h].id].trip == jobs[h].trip
  {
    var g := RowHasJob(jobs, roads, schedule, jobs[h].id);
  }

  /** The handlers raced at step k, or a confirmation revived the booking of one of them while the
      other had its claim. */
  ghost predicate Met(jobs: Jobs, roads: map<Edge, Road>, schedule: seq<Handler>, k: nat, g: Handler, h: Handler)
    requires k < |schedule|
  {
    var s := After(jobs, roads, schedule[..k]);
    || Raced(jobs, roads, schedule, k, g, h)
    || (Revives(jobs, s, schedule[k], g) && Claims(jobs, s, h))
    || (Revives(jobs, s, schedule[k], h) && Claims(jobs, s, g))
  }

  /** A claim that is new next to another one was made by a race, or by a revival beside it. */
  lemma NewClaimMeets(jobs: Jobs, roads: map<Edge, Road>, schedule: seq<Handler>, k: nat, g: Handler, h: Handler)
    requires Valid(jobs) && FreshRoads(roads) && k < |schedule| && g != h
    requires g in jobs && h in jobs && jobs[g].Add? && jobs[h].Add? && Clash(jobs[g].trip, jobs[h].trip)
    requires var s := After(jobs, roads, schedule[..k]);
             var s' := Next(jobs, s, schedule[k]);
             Claims(jobs, s', g) && Claims(jobs, s', h) && !Claims(jobs, s, g)
    ensures Met(jobs, roads, schedule, k, g, h)
  {
    var s, x := After(jobs, roads, schedule[..k]), schedule[k];
    AfterHoldsInv(jobs, roads, schedule[..k]);
    NewClaim(jobs, s, x, g);
    if Revives(jobs, s, x, g) {
      if !Claims(jobs, s, h) {
        NewClaim(jobs, s, x, h);
      }
    } else {
      OneClaimIsOlder(jobs, s, x, h);
      if !Inserting(s, h) {
        TripOfRow(jobs, roads, schedule[..k], h);
      }
    }
  }

  /** Two claims on clashing trips: the handlers raced, or one booking was revived beside the
      other's claim. */
  lemma {:induction false} ClashMeansRace(jobs: Jobs, roads: map<Edge, Road>, schedule: seq<Handler>, n: nat,
                                          g: Handler, h: Handler) returns (k: nat)
    requires Valid(jobs) && FreshRoads(roads) && n <= |schedule| && g != h
    requires Claims(jobs, After(jobs, roads, schedule[..n]), g) && Claims(jobs, After(jobs, roads, schedule[..n]), h)
    requires Clash(jobs[g].trip, jobs[h].trip)
    ensures k < n && Met(jobs, roads, schedule, k, g, h)
  {
    if n == 0 {
      assert false;
    } else {
      OneMore(jobs, roads, schedule, n);
      var s := After(jobs, roads, schedule[..n - 1]);
      if Claims(jobs, s, g) && Claims(jobs, s, h) {
        k := ClashMeansRace(jobs, roads, schedule, n - 1, g, h);
      } else {
        hide Next;
        hide After;
        k := n - 1;
        if Claims(jobs, s, g) {
          NewClaimMeets(jobs, roads, schedule, k, h, g);
        } else {
          NewClaimMeets(jobs, roads, schedule, k, g, h);
        }
      }
    }
  }

  lemma OneClaimIsOlder(jobs: Jobs, s: State, x: Handler, h: Handler)
    requires Valid(jobs) && Inv(jobs, s) && Claims(jobs, Next(jobs, s, x), h)
    requires x in jobs && jobs[x].Add? && x != h
    ensures Claims(jobs, s, h)
  {
    if !Claims(jobs, s, h) {
      NewClaim(jobs, s, x, h);
    }
  }

  /** Two handlers with clashing trips hold claims at the same moment if and only if they raced, or
      a confirmation revived the booking of one beside the claim of the other. */
  lemma ClashIffRace(jobs: Jobs, roads: map<Edge, Road>, schedule: seq<Handler>, g: Handler, h: Handler)
    requires Valid(jobs) && FreshRoads(roads) && g != h
    requires g in jobs && jobs[g].Add? && h in jobs && jobs[h].Add? && Clash(jobs[g].trip, jobs[h].trip)
    ensures (exists n :: 0 <= n <= |schedule| && Claims(jobs, After(jobs, roads, schedule[..n]), g)
                         && Claims(jobs, After(jobs, roads, schedule[..n]), h))
       <==> (exists k :: 0 <= k < |schedule| && Met(jobs, roads, schedule, k, g, h))
  {
    hide Met;
    hide Next;
    if n :| 0 <= n <= |schedule| && Claims(jobs, After(jobs, roads, schedule[..n]), g)
            && Claims(jobs, After(jobs, roads, schedule[..n]), h) {
      var k := ClashMeansRace(jobs, roads, schedule, n, g, h);
    }
    if k :| 0 <= k < |schedule| && Met(jobs, roads, schedule, k, g, h) {
      MetLeavesClaims(jobs, roads, schedule, k, g, h);
    }
  }

  lemma RevivalLeavesClaims(jobs: Jobs, s: State, x: Handler, g: Handler, h: Handler)
    requires Valid(jobs) && Inv(jobs, s) && Revives(jobs, s, x, g) && jobs[g].Add? && Claims(jobs, s, h) && g != h
    ensures Claims(jobs, Next(jobs, s, x), g) && Claims(jobs, Next(jobs, s, x), h)
  {
    OthersStay(jobs, s, x, g);
    OthersStay(jobs, s, x, h);
  }

  lemma MetLeavesClaims(jobs: Jobs, roads: map<Edge, Road>, schedule: seq<Handler>, k: nat, g: Handler, h: Handler)
    requires Valid(jobs) && FreshRoads(roads) && k < |schedule| && Met(jobs, roads, schedule, k, g, h) && g != h
    requires g in jobs && jobs[g].Add? && h in jobs && jobs[h].Add?
    ensures Claims(jobs, After(jobs, roads, schedule[..k + 1]), g)
    ensures Claims(jobs, After(jobs, roads, schedule[..k + 1]), h)
  {
    hide Next;
    hide Claims;
    var s := After(jobs, roads, schedule[..k]);
    AfterHoldsInv(jobs, roads, schedule[..k]);
    OneMore(jobs, roads, schedule, k + 1);
    assert schedule[..k + 1 - 1] == schedule[..k];
    if Raced(jobs, roads, schedule, k, g, h) {
      RaceLeavesClaims(jobs, roads, schedule, k, g, h);
    } else if Revives(jobs, s, schedule[k], g) && Claims(jobs, s, h) {
      RevivalLeavesClaims(jobs, s, schedule[k], g, h);
    } else {
      RevivalLeavesClaims(jobs, s, schedule[k], h, g);
    }
  }

  lemma RaceLeavesClaims(jobs: Jobs, roads: map<Edge, Road>, schedule: seq<Handler>, k: nat, g: Handler, h: Handler)
    requires Valid(jobs) && FreshRoads(roads) && k < |schedule| && Raced(jobs, roads, schedule, k, g, h)
    ensures Claims(jobs, After(jobs, roads, schedule[..k + 1]), g)
    ensures Claims(jobs, After(jobs, roads, schedule[..k + 1]), h)
  {
    assert schedule[..k + 1][..k] == schedule[..k];
    var s := After(jobs, roads, schedule[..k]);
    OthersStay(jobs, s, schedule[k], if schedule[k] == g then h else g);
  }
}
