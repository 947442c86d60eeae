/** Agreement and freedom from double booking. */
module TwoPhaseProof {
  import opened Trips
  import opened TwoPhase

  // ---- agreement ------------------------------------------------------------------------

  ghost predicate CrossPlace(c: Config, p: Place) {
    p.bid.Cross? && c.Resolved(p.bid.txn) && p.region in c.Required(p.bid.txn)
  }

  /** Bookings and checks of a transaction exist only where it asked, once. */
  ghost predicate AskedOnce(c: Config, s: State) {
    AskedPlaces(c, s) && OnceThere(s)
  }

  ghost predicate AskedPlaces(c: Config, s: State) {
    && (forall p :: p in s.asked ==> CrossPlace(c, p))
    && (forall p :: p in s.book && p.bid.Cross? ==> p in s.asked)
    && (forall p :: p in s.checked && p.bid.Cross? ==> p in s.asked)
    && (forall p :: Prepare(p) in s.net ==> p in s.asked)
  }

  ghost predicate OnceThere(s: State) {
    && (forall p :: Prepare(p) in s.net ==> p !in s.checked && p !in s.book)
    && (forall p :: p in s.checked && p.bid.Cross? ==> p !in s.book)
  }

  ghost predicate RowsHaveBookings(s: State) {
    forall p :: p in s.rows ==> p in s.book && p.bid.Cross?
  }

  /** A YES vote, sent or counted, rests on a recorded booking. */
  ghost predicate YesHasRow(s: State) {
    && (forall p :: Answer(p, true) in s.net ==> p in s.rows)
    && (forall p :: p in s.votes ==> p in s.asked)
    && (forall p :: p in s.votes && s.votes[p] ==> p in s.rows)
  }

  ghost predicate YesIsRecorded(s: State) {
    RowsHaveBookings(s) && YesHasRow(s)
  }

  ghost predicate Traced(c: Config, s: State) {
    AskedOnce(c, s) && YesIsRecorded(s)
  }

  /** Who may be told what, and what handlers are told. */
  ghost predicate MessagesFit(c: Config, s: State) {
    && (forall p :: Commit(p) in s.net ==> CrossPlace(c, p) && PhaseOf(s, p.bid.txn) == Committed)
    && (forall p :: Abort(p) in s.net ==> CrossPlace(c, p) && PhaseOf(s, p.bid.txn) == Aborted)
  }

  ghost predicate HandlersFit(c: Config, s: State) {
    && (forall p :: p in s.confirming ==> CrossPlace(c, p) && PhaseOf(s, p.bid.txn) == Committed)
    && (forall p :: p in s.aborting ==> CrossPlace(c, p) && PhaseOf(s, p.bid.txn) == Aborted)
  }

  ghost predicate Told(c: Config, s: State) {
    MessagesFit(c, s) && HandlersFit(c, s)
  }

  /** What a booking's status says about the decision. */
  ghost predicate StatusFits(c: Config, s: State) {
    forall p :: p in s.book && p.bid.Cross? ==>
      && (s.book[p] == Confirmed ==> PhaseOf(s, p.bid.txn) == Committed)
      && (s.book[p] == Cancelled ==> PhaseOf(s, p.bid.txn) == Aborted)
  }

  ghost predicate Inv(c: Config, s: State) {
    Traced(c, s) && Told(c, s) && Backed(c, s) && StatusFits(c, s)
  }

  lemma AskedPlacesKept(c: Config, s: State, e: Event, s': State)
    requires AskedPlaces(c, s) && Step(c, s, e, s')
    ensures AskedPlaces(c, s')
  {}

  lemma OnceThereKept(c: Config, s: State, e: Event, s': State)
    requires AskedOnce(c, s) && Step(c, s, e, s')
    ensures OnceThere(s')
  {}

  lemma AskedOnceKept(c: Config, s: State, e: Event, s': State)
    requires AskedOnce(c, s) && Step(c, s, e, s')
    ensures AskedOnce(c, s')
  {
    AskedPlacesKept(c, s, e, s');
    OnceThereKept(c, s, e, s');
  }

  lemma RowsHaveBookingsKept(c: Config, s: State, e: Event, s': State)
    requires RowsHaveBookings(s) && Step(c, s, e, s')
    ensures RowsHaveBookings(s')
  {}

  lemma YesHasRowKept(c: Config, s: State, e: Event, s': State)
    requires YesHasRow(s) && Step(c, s, e, s')
    ensures YesHasRow(s')
  {}

  lemma YesIsRecordedKept(c: Config, s: State, e: Event, s': State)
    requires YesIsRecorded(s) && Step(c, s, e, s')
    ensures YesIsRecorded(s')
  {
    hide Step;
    RowsHaveBookingsKept(c, s, e, s');
    YesHasRowKept(c, s, e, s');
  }

  lemma TracedKept(c: Config, s: State, e: Event, s': State)
    requires Traced(c, s) && Step(c, s, e, s')
    ensures Traced(c, s')
  {
    AskedOnceKept(c, s, e, s');
    YesIsRecordedKept(c, s, e, s');
  }

  ghost predicate Backed(c: Config, s: State) {
    forall t :: PhaseOf(s, t) == Committed ==> c.Resolved(t) && AllYes(c, s, t)
  }

  lemma MessageSent(c: Config, s: State, e: Event, s': State, p: Place)
    requires Step(c, s, e, s')
    ensures Commit(p) in s'.net ==> Commit(p) in s.net || (CrossPlace(c, p) && PhaseOf(s, p.bid.txn) == Committed)
    ensures Abort(p) in s'.net ==> Abort(p) in s.net || (CrossPlace(c, p) && PhaseOf(s, p.bid.txn) == Aborted)
  {}

  lemma MessagesFitKept(c: Config, s: State, e: Event, s': State)
    requires MessagesFit(c, s) && Step(c, s, e, s')
    ensures MessagesFit(c, s')
  {
    hide Step;
    hide PhaseOf;
    forall p | Commit(p) in s'.net ensures CrossPlace(c, p) && PhaseOf(s', p.bid.txn) == Committed {
      MessageSent(c, s, e, s', p);
      DecisionKept(c, s, e, s', p.bid.txn);
    }
    forall p | Abort(p) in s'.net ensures CrossPlace(c, p) && PhaseOf(s', p.bid.txn) == Aborted {
      MessageSent(c, s, e, s', p);
      DecisionKept(c, s, e, s', p.bid.txn);
    }
  }

  lemma HandlerHeard(c: Config, s: State, e: Event, s': State, p: Place)
    requires Step(c, s, e, s')
    ensures p in s'.confirming ==> p in s.confirming || Commit(p) in s.net
    ensures p in s'.aborting ==> p in s.aborting || Abort(p) in s.net
  {}

  lemma HandlersFitKept(c: Config, s: State, e: Event, s': State)
    requires Told(c, s) && Step(c, s, e, s')
    ensures HandlersFit(c, s')
  {
    hide Step;
    hide PhaseOf;
    forall p | p in s'.confirming ensures CrossPlace(c, p) && PhaseOf(s', p.bid.txn) == Committed {
      HandlerHeard(c, s, e, s', p);
      DecisionKept(c, s, e, s', p.bid.txn);
    }
    forall p | p in s'.aborting ensures CrossPlace(c, p) && PhaseOf(s', p.bid.txn) == Aborted {
      HandlerHeard(c, s, e, s', p);
      DecisionKept(c, s, e, s', p.bid.txn);
    }
  }

  lemma ToldKept(c: Config, s: State, e: Event, s': State)
    requires Told(c, s) && Step(c, s, e, s')
    ensures Told(c, s')
  {
    MessagesFitKept(c, s, e, s');
    HandlersFitKept(c, s, e, s');
  }

  lemma BackedKept(c: Config, s: State, e: Event, s': State)
    requires Backed(c, s) && Step(c, s, e, s')
    ensures Backed(c, s')
  {
    VotesStay(c, s, e, s');
    forall t | PhaseOf(s', t) == Committed ensures c.Resolved(t) && AllYes(c, s', t) {
      if PhaseOf(s, t) == Committed {
        assert AllYes(c, s, t);
      } else {
        assert e == EDecide(t);
      }
    }
  }

  lemma VotesStay(c: Config, s: State, e: Event, s': State)
    requires Step(c, s, e, s')
    ensures forall p :: p in s.votes ==> p in s'.votes && s'.votes[p] == s.votes[p]
  {}

  lemma DecisionKept(c: Config, s: State, e: Event, s': State, t: Id)
    requires Step(c, s, e, s') && (PhaseOf(s, t) == Committed || PhaseOf(s, t) == Aborted)
    ensures PhaseOf(s', t) == PhaseOf(s, t)
  {}

  /** Only a handler of the coordinator's message settles a transaction's booking. */
  lemma BookingSettled(c: Config, s: State, e: Event, s': State, p: Place)
    requires Step(c, s, e, s') && !e.EUserCancel? && p in s'.book && p.bid.Cross?
    ensures (p in s.book && s'.book[p] == s.book[p]) || s'.book[p] == Held
         || (s'.book[p] == Confirmed && p in s.confirming) || (s'.book[p] == Cancelled && p in s.aborting)
  {}

  lemma StatusKept(c: Config, s: State, e: Event, s': State)
    requires Told(c, s) && StatusFits(c, s) && Step(c, s, e, s') && !e.EUserCancel?
    ensures StatusFits(c, s')
  {
    hide Step;
    forall p | p in s'.book && p.bid.Cross?
      ensures s'.book[p] == Confirmed ==> PhaseOf(s', p.bid.txn) == Committed
      ensures s'.book[p] == Cancelled ==> PhaseOf(s', p.bid.txn) == Aborted
    {
      BookingSettled(c, s, e, s', p);
      if s'.book[p] != Held {
        DecisionKept(c, s, e, s', p.bid.txn);
      }
    }
  }

  lemma {:induction false} RunHoldsInv(c: Config, ss: seq<State>, es: seq<Event>, i: nat)
    requires IsRun(c, ss, es) && NoUserCancel(es, i) && i < |ss|
    ensures Inv(c, ss[i])
  {
    if i > 0 {
      RunHoldsInv(c, ss, es, i - 1);
      TracedKept(c, ss[i - 1], es[i - 1], ss[i]);
      ToldKept(c, ss[i - 1], es[i - 1], ss[i]);
      BackedKept(c, ss[i - 1], es[i - 1], ss[i]);
      StatusKept(c, ss[i - 1], es[i - 1], ss[i]);
    }
  }

  /** Once a booking of a transaction is CONFIRMED anywhere, every required region has voted
      YES and holds that transaction's booking as HELD or CONFIRMED. */
  lemma ConfirmedMeansHeldEverywhere(c: Config, ss: seq<State>, es: seq<Event>, i: nat, p: Place, r: Region)
    requires IsRun(c, ss, es) && NoUserCancel(es, i) && i < |ss|
    requires p in ss[i].book && p.bid.Cross? && ss[i].book[p] == Confirmed
    requires c.Resolved(p.bid.txn) && r in c.Required(p.bid.txn)
    ensures var q := Place(r, p.bid);
            && q in ss[i].votes && ss[i].votes[q]
            && q in ss[i].book && (ss[i].book[q] == Held || ss[i].book[q] == Confirmed)
  {
    RunHoldsInv(c, ss, es, i);
    CommittedIsLive(c, ss[i], p.bid.txn, r);
  }

  lemma CommittedIsLive(c: Config, s: State, t: Id, r: Region)
    requires Inv(c, s) && PhaseOf(s, t) == Committed && c.Resolved(t) && r in c.Required(t)
    ensures var q := Place(r, Cross(t)); q in s.votes && s.votes[q] && Live(s, q)
  {
    assert AllYes(c, s, t);
    var q := Place(r, Cross(t));
    assert q in s.votes && s.votes[q];
  }

  /** No transaction is confirmed in one region and aborted in another, at any two times. */
  lemma NoMixedOutcome(c: Config, ss: seq<State>, es: seq<Event>, i: nat, j: nat, p: Place, q: Place)
    requires IsRun(c, ss, es) && i < |ss| && j < |ss| && NoUserCancel(es, i) && NoUserCancel(es, j)
    requires p.bid.Cross? && q.bid == p.bid && p in ss[i].book && q in ss[j].book
    ensures !(ss[i].book[p] == Confirmed && ss[j].book[q] == Cancelled)
  {
    RunHoldsInv(c, ss, es, i);
    RunHoldsInv(c, ss, es, j);
    var t := p.bid.txn;
    if PhaseOf(ss[i], t) == Committed && i <= j {
      DecisionStays(c, ss, es, i, j, t);
    } else if PhaseOf(ss[j], t) == Aborted && j < i {
      DecisionStays(c, ss, es, j, i, t);
    }
  }

  lemma {:induction false} DecisionStays(c: Config, ss: seq<State>, es: seq<Event>, i: nat, j: nat, t: Id)
    requires IsRun(c, ss, es) && i <= j < |ss|
    requires PhaseOf(ss[i], t) == Committed || PhaseOf(ss[i], t) == Aborted
    ensures PhaseOf(ss[j], t) == PhaseOf(ss[i], t)
  {
    hide Step;
    hide PhaseOf;
    if i < j {
      DecisionStays(c, ss, es, i, j - 1, t);
      DecisionKept(c, ss[j - 1], es[j - 1], ss[j], t);
    }
  }

  /** A booking held by a PREPARE that arrives after the abort may stay HELD for ever, but it
      is never CONFIRMED. */
  lemma AbortedIsNeverConfirmed(c: Config, ss: seq<State>, es: seq<Event>, i: nat, j: nat, p: Place)
    requires IsRun(c, ss, es) && NoUserCancel(es, j) && i <= j < |ss|
    requires p.bid.Cross? && PhaseOf(ss[i], p.bid.txn) == Aborted && p in ss[j].book
    ensures ss[j].book[p] != Confirmed
  {
    DecisionStays(c, ss, es, i, j, p.bid.txn);
    RunHoldsInv(c, ss, es, j);
  }

  // ---- what decisions and messages bring about ---------------------------------------------

  ghost predicate DecidedByVotes(c: Config, s: State, t: Id) {
    PhaseOf(s, t) == Committed || PhaseOf(s, t) == Aborted ==>
      c.Resolved(t) && AllVoted(c, s, t) && (PhaseOf(s, t) == Committed <==> AllYes(c, s, t))
  }

  lemma DecidedByVotesKept(c: Config, s: State, e: Event, s': State, t: Id)
    requires Step(c, s, e, s') && DecidedByVotes(c, s, t)
    ensures DecidedByVotes(c, s', t)
  {
    VotesStay(c, s, e, s');
  }

  /** A transaction is decided only when every required region's vote is in, and it is committed if
      and only if all of them are YES, however late messages come and whatever users cancel. */
  lemma {:induction false} CommittedIffAllYes(c: Config, ss: seq<State>, es: seq<Event>, i: nat, t: Id)
    requires IsRun(c, ss, es) && i < |ss|
    requires PhaseOf(ss[i], t) == Committed || PhaseOf(ss[i], t) == Aborted
    ensures c.Resolved(t) && AllVoted(c, ss[i], t)
    ensures PhaseOf(ss[i], t) == Committed <==> AllYes(c, ss[i], t)
  {
    var n := 0;
    while n < i
      invariant n <= i && DecidedByVotes(c, ss[n], t)
    {
      DecidedByVotesKept(c, ss[n], es[n], ss[n + 1], t);
      n := n + 1;
    }
  }

  ghost predicate CommitUnderWay(s: State, p: Place) {
    Commit(p) in s.net || p in s.confirming || (p in s.book && s.book[p] == Confirmed)
  }

  lemma CommitSent(c: Config, s: State, e: Event, s': State, p: Place)
    requires Step(c, s, e, s') && p in s'.told && p !in s.told && PhaseOf(s', p.bid.txn) == Committed
    requires p.bid.Cross?
    ensures Commit(p) in s'.net
  {}

  lemma CommitProceeds(c: Config, s: State, e: Event, s': State, p: Place)
    requires Step(c, s, e, s') && !e.EUserCancel? && e != ELose(Commit(p)) && CommitUnderWay(s, p)
    requires p in s.rows && Live(s, p) && p !in s.checked && p !in s.aborting
    ensures CommitUnderWay(s', p)
  {}

  lemma ToldWhenDecided(c: Config, s: State, e: Event, s': State, p: Place)
    requires Step(c, s, e, s') && p in s'.told && p !in s.told
    ensures CrossPlace(c, p) && (PhaseOf(s', p.bid.txn) == Committed || PhaseOf(s', p.bid.txn) == Aborted)
  {}

  lemma {:induction false} ToldAfterDecision(c: Config, ss: seq<State>, es: seq<Event>, i: nat, p: Place)
    requires IsRun(c, ss, es) && i < |ss| && p in ss[i].told
    ensures CrossPlace(c, p) && (PhaseOf(ss[i], p.bid.txn) == Committed || PhaseOf(ss[i], p.bid.txn) == Aborted)
  {
    hide Step;
    if i > 0 {
      if p in ss[i - 1].told {
        ToldAfterDecision(c, ss, es, i - 1, p);
        DecisionKept(c, ss[i - 1], es[i - 1], ss[i], p.bid.txn);
      } else {
        ToldWhenDecided(c, ss[i - 1], es[i - 1], ss[i], p);
      }
    }
  }

  /** A COMMIT that is sent and not lost is on its way, in its handler's hands, or has CONFIRMED the
      booking: nothing else can have happened to it. */
  lemma {:induction false} CommitConfirms(c: Config, ss: seq<State>, es: seq<Event>, i: nat, p: Place)
    requires IsRun(c, ss, es) && NoUserCancel(es, i) && i < |ss| && p in ss[i].told
    requires p.bid.Cross? && PhaseOf(ss[i], p.bid.txn) == Committed
    requires forall k :: 0 <= k < i ==> es[k] != ELose(Commit(p))
    ensures Commit(p) in ss[i].net || p in ss[i].confirming || (p in ss[i].book && ss[i].book[p] == Confirmed)
  {
    hide Step;
    hide PhaseOf;
    RunHoldsInv(c, ss, es, i - 1);
    if p in ss[i - 1].told {
      ToldAfterDecision(c, ss, es, i - 1, p);
      DecisionStays(c, ss, es, i - 1, i, p.bid.txn);
      CommitConfirms(c, ss, es, i - 1, p);
      CommittedIsLive(c, ss[i - 1], p.bid.txn, p.region);
      CommitProceeds(c, ss[i - 1], es[i - 1], ss[i], p);
    } else {
      CommitSent(c, ss[i - 1], es[i - 1], ss[i], p);
    }
  }

  lemma AbortRead(c: Config, s: State, p: Place, s': State)
    requires Step(c, s, EReadAbort(p), s') && IsHeld(s, p)
    ensures Abort(p) in s.net && p in s'.aborting && s'.book == s.book
  {}

  lemma AbortProceeds(c: Config, s: State, e: Event, s': State, p: Place)
    requires Step(c, s, e, s') && !e.EUserCancel?
    requires p in s.book && p !in s.checked && p !in s.confirming && (p in s.aborting || s.book[p] == Cancelled)
    ensures p in s'.book && (p in s'.aborting || s'.book[p] == Cancelled)
  {}

  /** An ABORT that finds the booking HELD is in its handler's hands until the booking is CANCELLED. */
  lemma {:induction false} AbortCancels(c: Config, ss: seq<State>, es: seq<Event>, k: nat, i: nat, p: Place)
    requires IsRun(c, ss, es) && NoUserCancel(es, i) && k < i < |ss|
    requires es[k] == EReadAbort(p) && p in ss[k].rows && p in ss[k].book && ss[k].book[p] == Held
    ensures p in ss[i].aborting || (p in ss[i].book && ss[i].book[p] == Cancelled)
    ensures p in ss[i].book
  {
    hide Step;
    hide PhaseOf;
    RunHoldsInv(c, ss, es, k);
    AbortRead(c, ss[k], p, ss[k + 1]);
    if k < i - 1 {
      RunHoldsInv(c, ss, es, i - 1);
      DecisionStays(c, ss, es, k, i - 1, p.bid.txn);
      AbortCancels(c, ss, es, k, i - 1, p);
      AbortProceeds(c, ss[i - 1], es[i - 1], ss[i], p);
    }
  }

  /** The status a step gives to the booking of its place. */
  function Given(e: Event): Status
    requires e.EInsert? || e.ELocalInsert? || e.EConfirm? || e.EAbort? || e.EUserCancel?
  {
    match e
    case EInsert(_) => Held
    case ELocalInsert(_) => Confirmed
    case EConfirm(_) => Confirmed
    case EAbort(_) => Cancelled
    case EUserCancel(_) => Cancelled
  }

  predicate Gives(e: Event, p: Place) {
    (e.EInsert? || e.ELocalInsert? || e.EConfirm? || e.EAbort? || e.EUserCancel?) && e.p == p
  }

  ghost predicate HandlersHaveBookings(s: State) {
    (forall p :: p in s.confirming ==> p in s.book) && (forall p :: p in s.aborting ==> p in s.book)
  }

  lemma OneStatusStep(c: Config, s: State, e: Event, s': State, p: Place)
    requires Step(c, s, e, s') && HandlersHaveBookings(s)
    ensures HandlersHaveBookings(s')
    ensures Gives(e, p) ==> p in s'.book && s'.book[p] == Given(e)
    ensures !Gives(e, p) ==> (p in s'.book <==> p in s.book) && (p in s.book ==> s'.book[p] == s.book[p])
  {}

  lemma {:induction false} RunHandlersHaveBookings(c: Config, ss: seq<State>, es: seq<Event>, i: nat, p: Place)
    requires IsRun(c, ss, es) && i < |ss|
    ensures HandlersHaveBookings(ss[i])
  {
    hide Step;
    if i > 0 {
      RunHandlersHaveBookings(c, ss, es, i - 1, p);
      OneStatusStep(c, ss[i - 1], es[i - 1], ss[i], p);
    }
  }

  lemma {:induction false} GivenStays(c: Config, ss: seq<State>, es: seq<Event>, k: nat, i: nat, p: Place)
    requires IsRun(c, ss, es) && k < i < |ss| && Gives(es[k], p) && forall j :: k < j < i ==> !Gives(es[j], p)
    ensures p in ss[i].book && ss[i].book[p] == Given(es[k])
  {
    hide Step;
    hide Given;
    hide HandlersHaveBookings;
    RunHandlersHaveBookings(c, ss, es, i - 1, p);
    OneStatusStep(c, ss[i - 1], es[i - 1], ss[i], p);
    if k < i - 1 {
      GivenStays(c, ss, es, k, i - 1, p);
    }
  }

  lemma {:induction false} LastGift(es: seq<Event>, i: nat, p: Place) returns (k: nat)
    requires i <= |es| && exists k :: 0 <= k < i && Gives(es[k], p)
    ensures k < i && Gives(es[k], p) && forall j :: k < j < i ==> !Gives(es[j], p)
  {
    if Gives(es[i - 1], p) {
      k := i - 1;
    } else {
      k := LastGift(es, i - 1, p);
    }
  }

  lemma {:induction false} NoGiftNoBooking(c: Config, ss: seq<State>, es: seq<Event>, i: nat, p: Place)
    requires IsRun(c, ss, es) && i < |ss| && forall k :: 0 <= k < i ==> !Gives(es[k], p)
    ensures p !in ss[i].book
  {
    hide Step;
    hide HandlersHaveBookings;
    if i > 0 {
      RunHandlersHaveBookings(c, ss, es, i - 1, p);
      NoGiftNoBooking(c, ss, es, i - 1, p);
      OneStatusStep(c, ss[i - 1], es[i - 1], ss[i], p);
    }
  }

  /** In every run, cancellations included, a booking is there once a step has given it a status, and
      it has the status that the last such step gave: HELD by a PREPARE, CONFIRMED by a COMMIT or the
      region's own insert, CANCELLED by an ABORT or a user. */
  lemma StatusFromHistory(c: Config, ss: seq<State>, es: seq<Event>, i: nat, p: Place)
    requires IsRun(c, ss, es) && i < |ss|
    ensures p in ss[i].book <==> exists k :: 0 <= k < i && Gives(es[k], p)
    ensures forall k :: 0 <= k < i && Gives(es[k], p) && (forall j :: k < j < i ==> !Gives(es[j], p)) ==>
              p in ss[i].book && ss[i].book[p] == Given(es[k])
  {
    hide Step;
    forall k | 0 <= k < i && Gives(es[k], p) && (forall j :: k < j < i ==> !Gives(es[j], p))
      ensures p in ss[i].book && ss[i].book[p] == Given(es[k])
    {
      GivenStays(c, ss, es, k, i, p);
    }
    if exists k :: 0 <= k < i && Gives(es[k], p) {
      var k := LastGift(es, i, p);
    } else {
      NoGiftNoBooking(c, ss, es, i, p);
    }
  }

  // ---- double booking ---------------------------------------------------------------------

  /** A place that stands for a claim on its trip: a live booking, or one about to be inserted. */
  ghost predicate Claims(c: Config, s: State, p: Place) {
    p.bid in c.trips && (Live(s, p) || p in s.checked)
  }

  ghost predicate Clean(c: Config, s: State) {
    forall p, q :: Claims(c, s, p) && Claims(c, s, q) && p.region == q.region && p != q ==>
      !Clash(c.trips[p.bid], c.trips[q.bid])
  }

  /** A conflict check passes while another handler of the node is between its own check and
      its insert for a clashing trip. */
  ghost predicate Races(c: Config, s: State, e: Event) {
    && (e.EPass? || e.ELocalCheck?)
    && exists q :: q in s.checked && q != e.p && q.region == e.p.region && q.bid in c.trips && e.p.bid in c.trips
                   && Clash(c.trips[q.bid], c.trips[e.p.bid])
  }

  /** Only places with a trip are ever checked or booked. */
  ghost predicate HasTrips(c: Config, s: State) {
    && (forall p :: p in s.checked || p in s.book ==> p.bid in c.trips)
    && (forall p :: p in s.checked ==> p !in s.book)
  }

  lemma HasTripsKept(c: Config, s: State, e: Event, s': State)
    requires AskedOnce(c, s) && HasTrips(c, s) && Step(c, s, e, s')
    ensures HasTrips(c, s')
  {}

  /** CONFIRMED is written to a booking that has been cancelled since the handler read it. */
  predicate Revives(s: State, e: Event, p: Place) {
    e == EConfirm(p) && p in s.book && s.book[p] == Cancelled
  }

  /** A booking is revived while another one claims a clashing trip on the node. */
  ghost predicate RevivesIntoClash(c: Config, s: State, e: Event) {
    && e.EConfirm? && Revives(s, e, e.p) && e.p.bid in c.trips
    && exists q :: Claims(c, s, q) && q != e.p && q.region == e.p.region && Clash(c.trips[q.bid], c.trips[e.p.bid])
  }

  /** A new claim is made by a passed check or by a revival. */
  lemma NewClaim(c: Config, s: State, e: Event, s': State, p: Place)
    requires AskedOnce(c, s) && HasTrips(c, s) && Step(c, s, e, s') && Claims(c, s', p) && !Claims(c, s, p)
    ensures ((e.EPass? || e.ELocalCheck?) && p == e.p) || Revives(s, e, p)
  {}

  /** The check sees every live booking of the node. */
  lemma CheckSeesBookings(c: Config, s: State, e: Event, s': State, q: Place)
    requires (e.EPass? || e.ELocalCheck?) && Step(c, s, e, s') && e.p.bid in c.trips
    requires Live(s, q) && q.region == e.p.region && q.bid in c.trips
    ensures !Clash(c.trips[q.bid], c.trips[e.p.bid])
  {
    assert !ConflictAt(c, s, e.p);
  }

  lemma RaceLeavesClash(c: Config, s: State, e: Event, s': State)
    requires Step(c, s, e, s') && Races(c, s, e)
    ensures !Clean(c, s')
  {
    var q :| q in s.checked && q != e.p && q.region == e.p.region && q.bid in c.trips && e.p.bid in c.trips
             && Clash(c.trips[q.bid], c.trips[e.p.bid]);
    assert Claims(c, s', q) && Claims(c, s', e.p);
  }

  lemma RevivalLeavesClash(c: Config, s: State, e: Event, s': State)
    requires Step(c, s, e, s') && RevivesIntoClash(c, s, e)
    ensures !Clean(c, s')
  {
    var q :| Claims(c, s, q) && q != e.p && q.region == e.p.region && Clash(c.trips[q.bid], c.trips[e.p.bid]);
    assert Claims(c, s', q) && Claims(c, s', e.p);
  }

  /** One step keeps a node free of clashing claims if and only if it is neither a check that
      overtakes a handler, nor a confirmation that revives a booking beside a clashing claim. */
  lemma CleanStepIff(c: Config, s: State, e: Event, s': State)
    requires Traced(c, s) && HasTrips(c, s) && Clean(c, s) && Step(c, s, e, s')
    ensures Clean(c, s') <==> !Races(c, s, e) && !RevivesIntoClash(c, s, e)
  {
    hide Step;
    hide ConflictAt;
    if Races(c, s, e) {
      RaceLeavesClash(c, s, e, s');
    } else if RevivesIntoClash(c, s, e) {
      RevivalLeavesClash(c, s, e, s');
    } else {
      forall p, q | Claims(c, s', p) && Claims(c, s', q) && p.region == q.region && p != q
        ensures !Clash(c.trips[p.bid], c.trips[q.bid])
      {
        if !Claims(c, s, p) {
          OldClaimApart(c, s, e, s', p, q);
        } else if !Claims(c, s, q) {
          OldClaimApart(c, s, e, s', q, p);
        }
      }
    }
  }

  /** A step that neither races nor revives into a clash leaves none between its new claim and
      any other. */
  lemma OldClaimApart(c: Config, s: State, e: Event, s': State, p: Place, q: Place)
    requires AskedOnce(c, s) && HasTrips(c, s) && Step(c, s, e, s') && !Races(c, s, e) && !RevivesIntoClash(c, s, e)
    requires Claims(c, s', p) && !Claims(c, s, p) && Claims(c, s', q) && q.region == p.region && q != p
    ensures !Clash(c.trips[q.bid], c.trips[p.bid]) && !Clash(c.trips[p.bid], c.trips[q.bid])
  {
    hide Step;
    hide ConflictAt;
    NewClaim(c, s, e, s', p);
    if !Claims(c, s, q) {
      NewClaim(c, s, e, s', q);
    }
    if !Revives(s, e, p) && Live(s, q) {
      CheckSeesBookings(c, s, e, s', q);
    }
  }

  lemma InitIsClean(c: Config, s: State)
    requires Init(s)
    ensures Traced(c, s) && HasTrips(c, s) && Clean(c, s)
  {}

  ghost predicate Soils(c: Config, s: State, e: Event) {
    Races(c, s, e) || RevivesIntoClash(c, s, e)
  }

  lemma {:induction false} RaceFreeRunIsClean(c: Config, ss: seq<State>, es: seq<Event>, n: nat)
    requires IsRun(c, ss, es) && n <= |es|
    requires forall i :: 0 <= i < n ==> !Soils(c, ss[i], es[i])
    ensures Traced(c, ss[n]) && HasTrips(c, ss[n]) && Clean(c, ss[n])
  {
    hide Step;
    hide Clean;
    hide HasTrips;
    hide Races;
    hide RevivesIntoClash;
    if n == 0 {
      InitIsClean(c, ss[0]);
    } else {
      RaceFreeRunIsClean(c, ss, es, n - 1);
      TracedKept(c, ss[n - 1], es[n - 1], ss[n]);
      HasTripsKept(c, ss[n - 1], es[n - 1], ss[n]);
      CleanStepIff(c, ss[n - 1], es[n - 1], ss[n]);
    }
  }

  lemma {:induction false} FirstSoiled(c: Config, ss: seq<State>, es: seq<Event>, n: nat) returns (i: nat)
    requires n <= |es| < |ss|
    requires exists i :: 0 <= i < n && Soils(c, ss[i], es[i])
    ensures i < n && Soils(c, ss[i], es[i])
    ensures forall j :: 0 <= j < i ==> !Soils(c, ss[j], es[j])
  {
    if exists i :: 0 <= i < n - 1 && Soils(c, ss[i], es[i]) {
      i := FirstSoiled(c, ss, es, n - 1);
    } else {
      i := n - 1;
    }
  }

  /** In every run, cancellations included: no node ever has two claims that clash, if and only if
      no conflict check overtakes a handler that is about to insert and no confirmation revives a
      cancelled booking beside a clashing claim. */
  lemma RunIsCleanIff(c: Config, ss: seq<State>, es: seq<Event>)
    requires IsRun(c, ss, es)
    ensures (forall i :: 0 <= i < |ss| ==> Clean(c, ss[i]))
       <==> (forall i :: 0 <= i < |es| ==> !Soils(c, ss[i], es[i]))
  {
    hide Step;
    hide Clean;
    if forall i :: 0 <= i < |es| ==> !Soils(c, ss[i], es[i]) {
      forall i | 0 <= i < |ss| ensures Clean(c, ss[i]) {
        RaceFreeRunIsClean(c, ss, es, i);
      }
    } else {
      var i := FirstSoiled(c, ss, es, |es|);
      RaceFreeRunIsClean(c, ss, es, i);
      CleanStepIff(c, ss[i], es[i], ss[i + 1]);
      assert !Clean(c, ss[i + 1]);
    }
  }

  // ---- which handlers of two transactions raced ---------------------------------------------

  /** The check of one place passed while the other place was between its check and its insert. */
  ghost predicate Overtook(s: State, e: Event, p: Place, q: Place) {
    && (e.EPass? || e.ELocalCheck?)
    && ((e.p == p && q in s.checked) || (e.p == q && p in s.checked))
  }

  lemma {:induction false} RunTraced(c: Config, ss: seq<State>, es: seq<Event>, n: nat)
    requires IsRun(c, ss, es) && n < |ss|
    ensures Traced(c, ss[n]) && HasTrips(c, ss[n])
  {
    hide Step;
    hide HasTrips;
    if n == 0 {
      InitIsClean(c, ss[0]);
    } else {
      RunTraced(c, ss, es, n - 1);
      TracedKept(c, ss[n - 1], es[n - 1], ss[n]);
      HasTripsKept(c, ss[n - 1], es[n - 1], ss[n]);
    }
  }

  /** One of the two bookings is revived while the other place has its claim. */
  ghost predicate RevivedBeside(c: Config, s: State, e: Event, p: Place, q: Place) {
    (Revives(s, e, p) && Claims(c, s, q)) || (Revives(s, e, q) && Claims(c, s, p))
  }

  ghost predicate Met(c: Config, s: State, e: Event, p: Place, q: Place) {
    Overtook(s, e, p, q) || RevivedBeside(c, s, e, p, q)
  }

  /** A new claim next to a clashing one overtook its handler or was revived. */
  lemma NewClaimMet(c: Config, s: State, e: Event, s': State, p: Place, q: Place)
    requires AskedOnce(c, s) && HasTrips(c, s) && Step(c, s, e, s')
    requires Claims(c, s', p) && !Claims(c, s, p) && Claims(c, s', q) && p != q && p.region == q.region
    requires Clash(c.trips[p.bid], c.trips[q.bid])
    ensures Met(c, s, e, p, q)
  {
    hide Step;
    hide ConflictAt;
    NewClaim(c, s, e, s', p);
    if !Claims(c, s, q) {
      NewClaim(c, s, e, s', q);
    }
    if !Revives(s, e, p) && Live(s, q) {
      CheckSeesBookings(c, s, e, s', q);
    }
  }

  lemma EitherIsNew(c: Config, s: State, e: Event, s': State, p: Place, q: Place)
    requires Traced(c, s) && HasTrips(c, s) && Step(c, s, e, s') && !(Claims(c, s, p) && Claims(c, s, q))
    requires Claims(c, s', p) && Claims(c, s', q) && p != q && p.region == q.region
    requires Clash(c.trips[p.bid], c.trips[q.bid])
    ensures Met(c, s, e, p, q)
  {
    hide Step;
    if !Claims(c, s, p) {
      NewClaimMet(c, s, e, s', p, q);
    } else {
      NewClaimMet(c, s, e, s', q, p);
    }
  }

  /** Two clashing claims of one region: one overtook the other, or was revived beside it, whatever
      else went on in the run. */
  lemma {:induction false} ClaimsMet(c: Config, ss: seq<State>, es: seq<Event>, n: nat, p: Place, q: Place)
    returns (k: nat)
    requires IsRun(c, ss, es) && n < |ss|
    requires Claims(c, ss[n], p) && Claims(c, ss[n], q) && p != q && p.region == q.region
    requires Clash(c.trips[p.bid], c.trips[q.bid])
    ensures k < n && Met(c, ss[k], es[k], p, q)
  {
    hide Step;
    hide Clash;
    hide Traced;
    hide Met;
    if n == 0 {
      assert false;
    } else if Claims(c, ss[n - 1], p) && Claims(c, ss[n - 1], q) {
      k := ClaimsMet(c, ss, es, n - 1, p, q);
    } else {
      k := n - 1;
      RunTraced(c, ss, es, n - 1);
      EitherIsNew(c, ss[n - 1], es[n - 1], ss[n], p, q);
    }
  }

  lemma MetLeavesClaims(c: Config, s: State, e: Event, s': State, p: Place, q: Place)
    requires Step(c, s, e, s') && Met(c, s, e, p, q) && p != q && p.bid in c.trips && q.bid in c.trips
    ensures Claims(c, s', p) && Claims(c, s', q)
  {}

  /** Two places of one region with clashing trips have their claims at the same moment if and only
      if one overtook the other or was revived beside it. */
  lemma ClaimsIffMet(c: Config, ss: seq<State>, es: seq<Event>, p: Place, q: Place)
    requires IsRun(c, ss, es) && p != q && p.region == q.region && p.bid in c.trips && q.bid in c.trips
    requires Clash(c.trips[p.bid], c.trips[q.bid])
    ensures (exists n :: 0 <= n < |ss| && Claims(c, ss[n], p) && Claims(c, ss[n], q))
       <==> (exists k :: 0 <= k < |es| && Met(c, ss[k], es[k], p, q))
  {
    hide Step;
    hide Met;
    if n :| 0 <= n < |ss| && Claims(c, ss[n], p) && Claims(c, ss[n], q) {
      var k := ClaimsMet(c, ss, es, n, p, q);
    }
    if k :| 0 <= k < |es| && Met(c, ss[k], es[k], p, q) {
      MetLeavesClaims(c, ss[k], es[k], ss[k + 1], p, q);
    }
  }

  /** Where no user cancels, nothing is revived. */
  lemma OvertookWithoutCancel(c: Config, ss: seq<State>, es: seq<Event>, i: nat, p: Place, q: Place) returns (k: nat)
    requires IsRun(c, ss, es) && NoUserCancel(es, i) && i < |ss|
    requires Claims(c, ss[i], p) && Claims(c, ss[i], q) && p != q && p.region == q.region
    requires Clash(c.trips[p.bid], c.trips[q.bid])
    ensures k < i && Overtook(ss[k], es[k], p, q)
  {
    k := ClaimsMet(c, ss, es, i, p, q);
    RunHoldsInv(c, ss, es, k);
    assert Step(c, ss[k], es[k], ss[k + 1]);
  }

  /** Two committed transactions that clash have overtaken each other in every region they
      require, before that moment and whatever others did. */
  lemma CommittedClashOvertook(c: Config, ss: seq<State>, es: seq<Event>, i: nat, t: Id, u: Id, r: Region)
    returns (k: nat)
    requires IsRun(c, ss, es) && NoUserCancel(es, i) && i < |ss|
    requires t != u && c.Resolved(t) && c.Resolved(u) && r in c.Required(t)
    requires PhaseOf(ss[i], t) == Committed && PhaseOf(ss[i], u) == Committed
    requires Clash(c.trips[Cross(t)], c.trips[Cross(u)])
    ensures k < i && Overtook(ss[k], es[k], Place(r, Cross(t)), Place(r, Cross(u)))
  {
    hide Step;
    assert r in c.Required(u);
    RunHoldsInv(c, ss, es, i);
    CommittedIsLive(c, ss[i], t, r);
    CommittedIsLive(c, ss[i], u, r);
    k := OvertookWithoutCancel(c, ss, es, i, Place(r, Cross(t)), Place(r, Cross(u)));
  }

  /** So two committed transactions are at least the window apart if there is one region they
      both require in which neither overtook the other. */
  lemma CommittedTripsApart(c: Config, ss: seq<State>, es: seq<Event>, i: nat, t: Id, u: Id, r: Region)
    requires IsRun(c, ss, es) && NoUserCancel(es, i) && i < |ss|
    requires t != u && c.Resolved(t) && c.Resolved(u) && r in c.Required(t)
    requires PhaseOf(ss[i], t) == Committed && PhaseOf(ss[i], u) == Committed
    requires forall k :: 0 <= k < i ==> !Overtook(ss[k], es[k], Place(r, Cross(t)), Place(r, Cross(u)))
    ensures !Clash(c.trips[Cross(t)], c.trips[Cross(u)])
  {
    if Clash(c.trips[Cross(t)], c.trips[Cross(u)]) {
      var k := CommittedClashOvertook(c, ss, es, i, t, u, r);
    }
  }

  /** Nor does a committed transaction clash with a live booking that a required region made
      itself, if their handlers did not race there. */
  lemma CommittedApartFromLocal(c: Config, ss: seq<State>, es: seq<Event>, i: nat, t: Id, p: Place)
    requires IsRun(c, ss, es) && NoUserCancel(es, i) && i < |ss|
    requires c.Resolved(t) && PhaseOf(ss[i], t) == Committed
    requires p.bid.Local? && p.bid in c.trips && Live(ss[i], p) && p.region in c.Required(t)
    requires forall k :: 0 <= k < i ==> !Overtook(ss[k], es[k], p, Place(p.region, Cross(t)))
    ensures !Clash(c.trips[Cross(t)], c.trips[p.bid])
  {
    hide Step;
    var q := Place(p.region, Cross(t));
    RunHoldsInv(c, ss, es, i);
    CommittedIsLive(c, ss[i], t, p.region);
    if Clash(c.trips[Cross(t)], c.trips[p.bid]) {
      var k := OvertookWithoutCancel(c, ss, es, i, p, q);
    }
  }
}
