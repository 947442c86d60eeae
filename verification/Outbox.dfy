/** The transactional outbox with any number of publishers and backlog drainers:
    journey-service/app/outbox_publisher.py, lines 39-70, and shared/recovery.py, lines 161-198.
    Rows are numbered in the order of their creation times. */
module Outbox {
  import opened Collections

  const BATCH_SIZE: nat := 50

  /** The first limit unpublished rows at or after row `from`, in order. */
  function Pending(published: seq<bool>, from: nat, limit: nat): seq<nat>
    requires from <= |published|
    decreases |published| - from
  {
    if from == |published| || limit == 0 then []
    else if published[from] then Pending(published, from + 1, limit)
    else [from] + Pending(published, from + 1, limit - 1)
  }

  function Mark(published: seq<bool>, rows: seq<nat>): seq<bool> {
    seq(|published|, i requires 0 <= i < |published| => published[i] || i in rows)
  }

  /** An open database session: the rows it selected and how many it has marked, uncommitted. */
  datatype Session = Session(batch: seq<nat>, sent: nat)

  datatype State = State(published: seq<bool>, log: seq<nat>, sessions: map<nat, Session>)

  datatype Event =
    | Append                              // a new outbox row is committed
    | Open(sid: nat, limit: nat)          // SELECT of the unpublished rows
    | Publish(sid: nat)                   // the broker takes the next row and says so
    | PublishUnheard(sid: nat)            // the broker takes it, the session sees a failure
    | Finish(sid: nat)                    // COMMIT, after the last row or the first failure
    | Crash(sid: nat)                     // the session is lost with its marks

  predicate Enabled(s: State, e: Event) {
    match e
    case Append => true
    case Open(sid, _) => sid !in s.sessions
    case Publish(sid) => sid in s.sessions && s.sessions[sid].sent < |s.sessions[sid].batch|
    case PublishUnheard(sid) => sid in s.sessions && s.sessions[sid].sent < |s.sessions[sid].batch|
    case Finish(sid) => sid in s.sessions && s.sessions[sid].sent <= |s.sessions[sid].batch|
    case Crash(sid) => sid in s.sessions
  }

  function Next(s: State, e: Event): State
    requires Enabled(s, e)
  {
    match e
    case Append => s.(published := s.published + [false])
    case Open(sid, limit) =>
      s.(sessions := s.sessions[sid := Session(Pending(s.published, 0, limit), 0)])
    case Publish(sid) =>
      var x := s.sessions[sid];
      s.(log := s.log + [x.batch[x.sent]], sessions := s.sessions[sid := x.(sent := x.sent + 1)])
    case PublishUnheard(sid) =>
      var x := s.sessions[sid];
      s.(log := s.log + [x.batch[x.sent]])
    case Finish(sid) =>
      var x := s.sessions[sid];
      s.(published := Mark(s.published, x.batch[..x.sent]), sessions := s.sessions - {sid})
    case Crash(sid) =>
      s.(sessions := s.sessions - {sid})
  }

  const INIT: State := State([], [], map[])

  ghost predicate IsRun(ss: seq<State>, es: seq<Event>) {
    && |ss| == |es| + 1 && ss[0] == INIT
    && forall i :: 0 <= i < |es| ==> Enabled(ss[i], es[i]) && ss[i + 1] == Next(ss[i], es[i])
  }

  // ---- the invariant -----------------------------------------------------------------------

  function Range(a: nat, b: nat): seq<nat>
    requires a <= b
  {
    seq(b - a, i => a + i)
  }

  predicate IsPrefix(published: seq<bool>, p: nat) {
    p <= |published| && forall i :: 0 <= i < |published| ==> (published[i] <==> i < p)
  }

  /** The session works on a block of consecutive rows that starts no later than the first
      unpublished row and has reached no further than the broker. */
  predicate SessionFits(x: Session, a: nat, p: nat, d: nat, n: nat) {
    && a <= p && x.sent <= |x.batch| && a + |x.batch| <= n && a + x.sent <= d
    && x.batch == Range(a, a + |x.batch|)
  }

  /** p rows are published, d rows have reached the broker, both from the start of the outbox. */
  ghost predicate Inv(s: State, p: nat, d: nat) {
    && IsPrefix(s.published, p) && p <= d <= |s.published|
    && FirstOccurrences(s.log) == Range(0, d)
    && forall sid :: sid in s.sessions ==>
         exists a: nat :: SessionFits(s.sessions[sid], a, p, d, |s.published|)
  }

  lemma RangeFrom(a: nat, b: nat)
    requires a <= b
    ensures Range(a, b) == if a == b then [] else [a] + Range(a + 1, b)
  {}

  /** The published rows at the front are passed over. */
  lemma {:induction false} PendingSkips(published: seq<bool>, p: nat, from: nat, limit: nat)
    requires IsPrefix(published, p) && from <= p
    ensures Pending(published, from, limit) == Pending(published, p, limit)
    decreases p - from
  {
    if from < p {
      PendingSkips(published, p, from + 1, limit);
    }
  }

  /** Behind them every row is taken, up to the limit. */
  lemma {:induction false} PendingTakes(published: seq<bool>, p: nat, from: nat, limit: nat)
    requires IsPrefix(published, p) && p <= from <= |published|
    ensures var batch := Pending(published, from, limit);
            from + |batch| <= |published| && batch == Range(from, from + |batch|)
    decreases limit
  {
    hide Range;
    if from == |published| || limit == 0 {
      RangeFrom(from, from);
    } else {
      PendingTakes(published, p, from + 1, limit - 1);
      RangeFrom(from, from + 1 + |Pending(published, from + 1, limit - 1)|);
    }
  }

  lemma {:induction false} LogMembers(log: seq<nat>, d: nat, x: nat)
    requires FirstOccurrences(log) == Range(0, d)
    ensures x in FirstOccurrences(log) <==> x < d
  {
    if x < d {
      assert Range(0, d)[x] == x;
    }
  }

  /** Delivering a row no later than the first undelivered one keeps first deliveries in order. */
  lemma DeliverNext(log: seq<nat>, d: nat, x: nat)
    requires FirstOccurrences(log) == Range(0, d) && x <= d
    ensures FirstOccurrences(log + [x]) == Range(0, if x == d then d + 1 else d)
  {
    FirstOccurrencesKeepsValues(log);
    LogMembers(log, d, x);
    assert (log + [x])[..|log|] == log;
    if x == d {
      assert Range(0, d) + [d] == Range(0, d + 1);
    }
  }

  lemma BlockAt(batch: seq<nat>, a: nat, i: nat)
    requires i < |batch| && batch == Range(a, a + |batch|)
    ensures batch[i] == a + i
  {}

  lemma MarkPrefix(published: seq<bool>, p: nat, a: nat, k: nat)
    requires IsPrefix(published, p) && a <= p && a + k <= |published|
    ensures IsPrefix(Mark(published, Range(a, a + k)), if a + k > p then a + k else p)
  {
    var rows := Range(a, a + k);
    forall i | 0 <= i < |published| ensures i in rows <==> a <= i < a + k {
      if a <= i < a + k {
        assert rows[i - a] == i;
      }
    }
  }

  lemma SessionsStay(s: State, s': State, p: nat, d: nat, p': nat, d': nat, except: set<nat>)
    requires Inv(s, p, d) && p <= p' && d <= d' && |s.published| <= |s'.published|
    requires forall sid :: sid in s'.sessions && sid !in except ==>
               sid in s.sessions && s'.sessions[sid] == s.sessions[sid]
    ensures forall sid :: sid in s'.sessions && sid !in except ==>
              exists a: nat :: SessionFits(s'.sessions[sid], a, p', d', |s'.published|)
  {
    forall sid | sid in s'.sessions && sid !in except
      ensures exists a: nat :: SessionFits(s'.sessions[sid], a, p', d', |s'.published|)
    {
      var a: nat :| SessionFits(s.sessions[sid], a, p, d, |s.published|);
      assert SessionFits(s'.sessions[sid], a, p', d', |s'.published|);
    }
  }

  lemma OpenKeepsInv(s: State, sid: nat, limit: nat, p: nat, d: nat)
    requires Inv(s, p, d) && Enabled(s, Open(sid, limit))
    ensures Inv(Next(s, Open(sid, limit)), p, d)
  {
    var s' := Next(s, Open(sid, limit));
    PendingSkips(s.published, p, 0, limit);
    PendingTakes(s.published, p, p, limit);
    SessionsStay(s, s', p, d, p, d, {sid});
    assert SessionFits(s'.sessions[sid], p, p, d, |s.published|);
  }

  /** The broker takes row a + sent; the session may or may not hear of it. */
  lemma DeliveryKeepsInv(s: State, sid: nat, heard: bool, p: nat, d: nat) returns (d': nat)
    requires Inv(s, p, d) && Enabled(s, Publish(sid))
    ensures Inv(Next(s, if heard then Publish(sid) else PublishUnheard(sid)), p, d') && d <= d'
  {
    hide FirstOccurrences;
    hide Range;
    var s' := Next(s, if heard then Publish(sid) else PublishUnheard(sid));
    var x := s.sessions[sid];
    var a: nat :| SessionFits(x, a, p, d, |s.published|);
    BlockAt(x.batch, a, x.sent);
    DeliverNext(s.log, d, a + x.sent);
    d' := if a + x.sent == d then d + 1 else d;
    assert SessionFits(s'.sessions[sid], a, p, d', |s.published|);
    SessionsStay(s, s', p, d, p, d', {sid});
  }

  lemma FinishKeepsInv(s: State, sid: nat, p: nat, d: nat) returns (p': nat)
    requires Inv(s, p, d) && Enabled(s, Finish(sid))
    ensures Inv(Next(s, Finish(sid)), p', d) && p <= p'
  {
    hide FirstOccurrences;
    var x := s.sessions[sid];
    var a: nat :| SessionFits(x, a, p, d, |s.published|);
    assert x.batch[..x.sent] == Range(a, a + x.sent);
    MarkPrefix(s.published, p, a, x.sent);
    p' := if a + x.sent > p then a + x.sent else p;
    SessionsStay(s, Next(s, Finish(sid)), p, d, p', d, {});
  }

  lemma NextKeepsInv(s: State, e: Event, p: nat, d: nat) returns (p': nat, d': nat)
    requires Inv(s, p, d) && Enabled(s, e)
    ensures Inv(Next(s, e), p', d') && p <= p' && d <= d'
  {
    hide SessionFits;
    p', d' := p, d;
    match e
    case Append =>
      SessionsStay(s, Next(s, e), p, d, p, d, {});
    case Open(sid, limit) =>
      OpenKeepsInv(s, sid, limit, p, d);
    case Publish(sid) =>
      d' := DeliveryKeepsInv(s, sid, true, p, d);
    case PublishUnheard(sid) =>
      d' := DeliveryKeepsInv(s, sid, false, p, d);
    case Finish(sid) =>
      p' := FinishKeepsInv(s, sid, p, d);
    case Crash(sid) =>
      SessionsStay(s, Next(s, e), p, d, p, d, {});
  }

  lemma {:induction false} RunHoldsInv(ss: seq<State>, es: seq<Event>, i: nat) returns (p: nat, d: nat)
    requires IsRun(ss, es) && i < |ss|
    ensures Inv(ss[i], p, d)
  {
    if i == 0 {
      p, d := 0, 0;
      assert Range(0, 0) == [];
    } else {
      p, d := RunHoldsInv(ss, es, i - 1);
      p, d := NextKeepsInv(ss[i - 1], es[i - 1], p, d);
    }
  }

  /** Whatever publishers, drainers, failures and crashes there are: the published rows are a
      prefix of the outbox, each of them has reached the broker, and rows reach the broker for
      the first time in outbox order, none left out. */
  lemma OutboxInOrder(ss: seq<State>, es: seq<Event>, i: nat) returns (p: nat, d: nat)
    requires IsRun(ss, es) && i < |ss|
    ensures IsPrefix(ss[i].published, p) && p <= d <= |ss[i].published|
    ensures FirstOccurrences(ss[i].log) == Range(0, d)
    ensures forall r :: 0 <= r < p ==> r in ss[i].log
  {
    p, d := RunHoldsInv(ss, es, i);
    FirstOccurrencesKeepsValues(ss[i].log);
    forall r | 0 <= r < p ensures r in ss[i].log {
      LogMembers(ss[i].log, d, r);
    }
  }

  // ---- one uninterrupted pass ------------------------------------------------------------

  /** Rows taken before the first failure; the outcome of each call to the broker is given. */
  function Successes(answers: seq<bool>, n: nat): nat {
    if n == 0 || answers == [] || !answers[0] then 0 else 1 + Successes(answers[1..], n - 1)
  }

  /** The session publishes k rows, each heard. */
  function Published(s: State, sid: nat, k: nat): State
    requires sid in s.sessions && s.sessions[sid].sent + k <= |s.sessions[sid].batch|
    ensures sid in Published(s, sid, k).sessions
    ensures Published(s, sid, k).sessions[sid] == s.sessions[sid].(sent := s.sessions[sid].sent + k)
  {
    if k == 0 then s else Next(Published(s, sid, k - 1), Publish(sid))
  }

  lemma {:induction false} PublishedLog(s: State, sid: nat, k: nat)
    requires sid in s.sessions && s.sessions[sid].sent == 0 && k <= |s.sessions[sid].batch|
    ensures Published(s, sid, k).log == s.log + s.sessions[sid].batch[..k]
    ensures Published(s, sid, k).published == s.published
    ensures Published(s, sid, k).sessions - {sid} == s.sessions - {sid}
  {
    if k > 0 {
      PublishedLog(s, sid, k - 1);
      assert s.sessions[sid].batch[..k] == s.sessions[sid].batch[..k - 1] + [s.sessions[sid].batch[k - 1]];
    }
  }

  /** A session that nothing interrupts and whose first k rows are taken leaves in the tables what a
      pass of the code leaves. */
  lemma SessionIsPass(s: State, sid: nat, limit: nat, k: nat)
    requires sid !in s.sessions && k <= |Pending(s.published, 0, limit)|
    ensures var batch := Pending(s.published, 0, limit);
            var done := Next(Published(Next(s, Open(sid, limit)), sid, k), Finish(sid));
            done == State(Mark(s.published, batch[..k]), s.log + batch[..k], s.sessions)
  {
    var begun := Next(s, Open(sid, limit));
    PublishedLog(begun, sid, k);
    assert begun.sessions - {sid} == s.sessions;
  }

  /** What one pass sends: the first unpublished rows, in order, none left out before the last one
      sent; it ends at the limit, at a refusal, or when no row is left. */
  ghost predicate FirstRows(published: seq<bool>, answers: seq<bool>, limit: nat, sent: seq<nat>) {
    && |sent| <= limit && |sent| <= |answers|
    && (forall i, j :: 0 <= i < j < |sent| ==> sent[i] < sent[j])
    && (forall r :: r in sent ==> r < |published| && !published[r])
    && (forall r, x :: 0 <= r < x && x in sent && !published[r] ==> r in sent)
    && (forall i :: 0 <= i < |sent| ==> answers[i])
    && (|sent| == limit || (|sent| < |answers| && !answers[|sent|])
        || forall r :: 0 <= r < |published| && !published[r] ==> r in sent)
  }

  /** The first unpublished rows at or after row `from`, at most limit, in order. */
  ghost predicate Selects(published: seq<bool>, from: nat, limit: nat, events: seq<nat>) {
    && |events| <= limit
    && (forall i, j :: 0 <= i < j < |events| ==> events[i] < events[j])
    && (forall r :: r in events ==> from <= r < |published| && !published[r])
    && (forall r, x :: from <= r < x && x in events && !published[r] ==> r in events)
    && (|events| == limit || forall r :: from <= r < |published| && !published[r] ==> r in events)
  }

  lemma TakesFirst(published: seq<bool>, from: nat, limit: nat, rest: seq<nat>)
    requires from < |published| && limit > 0 && !published[from] && Selects(published, from + 1, limit - 1, rest)
    ensures Selects(published, from, limit, [from] + rest)
  {
    var events := [from] + rest;
    forall r | r in events ensures r == from || r in rest {}
    forall r | r == from || r in rest ensures r in events {
      assert r == from ==> events[0] == r;
      if i :| 0 <= i < |rest| && rest[i] == r {
        assert events[i + 1] == r;
      }
    }
    forall i, j | 0 <= i < j < |events| ensures events[i] < events[j] {
      assert events[j] == rest[j - 1] && events[j] in rest;
      assert i > 0 ==> events[i] == rest[i - 1];
    }
  }

  lemma {:induction false} PendingSelects(published: seq<bool>, from: nat, limit: nat)
    requires from <= |published|
    ensures Selects(published, from, limit, Pending(published, from, limit))
    decreases |published| - from
  {
    if from == |published| || limit == 0 {
      assert Pending(published, from, limit) == [];
    } else if published[from] {
      PendingSelects(published, from + 1, limit);
    } else {
      PendingSelects(published, from + 1, limit - 1);
      TakesFirst(published, from, limit, Pending(published, from + 1, limit - 1));
    }
  }

  /** The front of a selection leaves out nothing that lies before its last row. */
  lemma FrontIsFirst(published: seq<bool>, answers: seq<bool>, limit: nat, events: seq<nat>, count: nat)
    requires Selects(published, 0, limit, events) && count <= |events| <= |answers|
    requires forall i :: 0 <= i < count ==> answers[i]
    requires count == |events| || !answers[count]
    ensures FirstRows(published, answers, limit, events[..count])
  {
    var sent := events[..count];
    forall r | r in sent ensures r in events {}
    forall r, x | 0 <= r < x && x in sent && !published[r] ensures r in sent {
      var j :| 0 <= j < count && events[j] == x;
      var i :| 0 <= i < |events| && events[i] == r;
      assert i < j && sent[i] == r;
    }
    if count == |events| {
      assert sent == events;
    }
  }

  /** Exactly the rows sent have been marked. */
  ghost predicate Marked(before: seq<bool>, sent: seq<nat>, after: seq<bool>) {
    |after| == |before| && forall r :: 0 <= r < |after| ==> (after[r] <==> before[r] || r in sent)
  }

  class Database {
    var published: seq<bool>
    var log: seq<nat>

    /** One pass of the publisher; answers are the broker's replies, in order. */
    method PublishPendingEvents(answers: seq<bool>)
      requires |answers| >= |published|
      modifies this
      ensures var batch := Pending(old(published), 0, BATCH_SIZE);
              var k := Successes(answers, |batch|);
              && k <= |batch|
              && log == old(log) + batch[..k]
              && published == Mark(old(published), batch[..k])
      ensures old(log) <= log
      ensures FirstRows(old(published), answers, 50, log[|old(log)|..])
      ensures Marked(old(published), log[|old(log)|..], published)
    {
      var events := SelectPending(BATCH_SIZE);
      var count := Drain(events, answers);
      FrontIsFirst(old(published), answers, BATCH_SIZE, events, count);
      assert log[|old(log)|..] == events[..count];
    }

    /** The recovery drain: the same, without a batch limit. */
    method DrainOutboxBacklog(answers: seq<bool>) returns (count: nat)
      requires |answers| >= |published|
      modifies this
      ensures var batch := Pending(old(published), 0, |old(published)|);
              && count == Successes(answers, |batch|) <= |batch|
              && log == old(log) + batch[..count]
              && published == Mark(old(published), batch[..count])
      ensures old(log) <= log && count == |log| - |old(log)|
      ensures FirstRows(old(published), answers, |old(published)|, log[|old(log)|..])
      ensures Marked(old(published), log[|old(log)|..], published)
    {
      var events := SelectPending(|published|);
      count := Drain(events, answers);
      FrontIsFirst(old(published), answers, |old(published)|, events, count);
      assert log[|old(log)|..] == events[..count];
    }

    /** The first unpublished rows, at most limit. */
    method SelectPending(limit: nat) returns (events: seq<nat>)
      ensures events == Pending(published, 0, limit)
      ensures Selects(published, 0, limit, events) && |events| <= |published|
    {
      events := [];
      var i := 0;
      while i < |published| && |events| < limit
        invariant 0 <= i <= |published| && |events| <= limit && |events| <= i
        invariant Pending(published, 0, limit) == events + Pending(published, i, limit - |events|)
        decreases |published| - i
      {
        if !published[i] {
          events := events + [i];
        }
        i := i + 1;
      }
      assert events + [] == events;
      PendingSelects(published, 0, limit);
    }

    /** Sends the events in order up to the first refusal, and marks what it sent. */
    method Drain(events: seq<nat>, answers: seq<bool>) returns (count: nat)
      requires |answers| >= |events|
      modifies this
      ensures count == Successes(answers, |events|) <= |events|
      ensures forall i :: 0 <= i < count ==> answers[i]
      ensures count == |events| || !answers[count]
      ensures log == old(log) + events[..count]
      ensures published == Mark(old(published), events[..count]) && Marked(old(published), events[..count], published)
    {
      count := 0;
      assert Mark(published, events[..0]) == published;
      while count < |events| && answers[count]
        invariant 0 <= count <= |events|
        invariant Successes(answers, |events|) == count + Successes(answers[count..], |events| - count)
        invariant forall i :: 0 <= i < count ==> answers[i]
        invariant log == old(log) + events[..count]
        invariant published == Mark(old(published), events[..count])
      {
        log := log + [events[count]];
        var row := events[count];
        if row < |published| {
          published := published[row := true];
        }
        assert events[..count + 1] == events[..count] + [row];
        assert published == Mark(old(published), events[..count + 1]);
        assert answers[count..][1..] == answers[count + 1..];
        count := count + 1;
      }
    }
  }
}
