/** The two circuit breakers: shared/circuit_breaker.py, lines 93-174, and
    conflict-service/circuitbreaker.go, lines 49-89, which is meant to mirror it. */
module Breakers {

  datatype Mode = Closed | Open | HalfOpen

  /** The Go breaker's constants are threshold 3 and 30 s; its one probe closes the circuit. */
  datatype Params = Params(threshold: nat, reset: int, probes: nat)

  datatype Py = Py(mode: Mode, failures: nat, successes: nat, openedAt: int)

  datatype Go = Go(mode: Mode, failures: nat, openedAt: int)

  const PY_INIT: Py := Py(Closed, 0, 0, 0)

  const GO_INIT: Go := Go(Closed, 0, 0)

  // ---- the Python breaker --------------------------------------------------------------

  function PyEnter(c: Params, b: Py, now: int): Py {
    if b.mode == Open && now - b.openedAt >= c.reset then b.(mode := HalfOpen, successes := 0) else b
  }

  predicate PyAdmits(c: Params, b: Py, now: int) {
    PyEnter(c, b, now).mode != Open
  }

  function PySuccess(c: Params, b: Py): Py {
    match b.mode
    case HalfOpen =>
      if b.successes + 1 >= c.probes then b.(successes := b.successes + 1, mode := Closed, failures := 0)
      else b.(successes := b.successes + 1)
    case Closed => b.(failures := 0)
    case Open => b
  }

  function PyFailure(c: Params, b: Py, now: int): Py {
    var n := b.failures + 1;
    if b.mode == HalfOpen || (b.mode == Closed && n >= c.threshold)
    then b.(failures := n, mode := Open, openedAt := now)
    else b.(failures := n)
  }

  // ---- the Go breaker ----------------------------------------------------------------------

  function GoAllow(c: Params, b: Go, now: int): Go {
    if b.mode == Open && now - b.openedAt >= c.reset then b.(mode := HalfOpen) else b
  }

  predicate GoAdmits(c: Params, b: Go, now: int) {
    GoAllow(c, b, now).mode != Open
  }

  function GoSuccess(b: Go): Go {
    b.(failures := 0, mode := if b.mode == HalfOpen then Closed else b.mode)
  }

  function GoFailure(c: Params, b: Go, now: int): Go {
    var n := b.failures + 1;
    if b.mode == HalfOpen || n >= c.threshold then Go(Open, n, now) else b.(failures := n)
  }

  // ---- calls one after another -----------------------------------------------------------

  /** A call that asks at `start` and, if let through, ends at `end`. */
  datatype Attempt = Attempt(start: int, end: int, ok: bool)

  function PyCall(c: Params, b: Py, a: Attempt): Py {
    var entered := PyEnter(c, b, a.start);
    if entered.mode == Open then entered
    else if a.ok then PySuccess(c, entered) else PyFailure(c, entered, a.end)
  }

  function GoCall(c: Params, b: Go, a: Attempt): Go {
    var entered := GoAllow(c, b, a.start);
    if entered.mode == Open then entered
    else if a.ok then GoSuccess(entered) else GoFailure(c, entered, a.end)
  }

  function PyAfter(c: Params, calls: seq<Attempt>): Py {
    if calls == [] then PY_INIT else PyCall(c, PyAfter(c, calls[..|calls| - 1]), calls[|calls| - 1])
  }

  function GoAfter(c: Params, calls: seq<Attempt>): Go {
    if calls == [] then GO_INIT else GoCall(c, GoAfter(c, calls[..|calls| - 1]), calls[|calls| - 1])
  }

  predicate Mirrors(p: Py, g: Go) {
    p.mode == g.mode && p.failures == g.failures && p.openedAt == g.openedAt
  }

  /** With one probe the breakers stay in step and let the same calls through, on every trace
      of calls that do not overlap. */
  lemma {:induction false} BreakersMirror(c: Params, calls: seq<Attempt>, next: Attempt)
    requires c.probes <= 1 && c.threshold >= 1
    ensures Mirrors(PyAfter(c, calls), GoAfter(c, calls))
    ensures PyAdmits(c, PyAfter(c, calls), next.start) <==> GoAdmits(c, GoAfter(c, calls), next.start)
    ensures GoAfter(c, calls).mode == Closed ==> GoAfter(c, calls).failures < c.threshold
  {
    if calls != [] {
      BreakersMirror(c, calls[..|calls| - 1], next);
    }
  }

  /** A trace that ends with the breaker half-open once the probe arrives: threshold failures. */
  lemma {:induction false} FailuresOpen(c: Params, n: nat)
    requires 1 <= n <= c.threshold
    ensures var calls := seq(n, i => Attempt(0, 0, false));
            && PyAfter(c, calls) == Py(if n == c.threshold then Open else Closed, n, 0, 0)
            && GoAfter(c, calls) == Go(if n == c.threshold then Open else Closed, n, 0)
  {
    var calls := seq(n, i => Attempt(0, 0, false));
    assert calls[..n - 1] == seq(n - 1, i => Attempt(0, 0, false));
    if n > 1 {
      FailuresOpen(c, n - 1);
    } else {
      assert calls[..0] == [];
    }
  }

  /** The first successful probe closes the Go breaker and leaves a Python breaker that wants
      more probes half-open. */
  lemma MoreProbesDiffer(c: Params)
    requires c.probes >= 2 && c.threshold >= 1
    ensures var calls := seq(c.threshold, i => Attempt(0, 0, false)) + [Attempt(c.reset, c.reset, true)];
            PyAfter(c, calls).mode == HalfOpen && GoAfter(c, calls).mode == Closed
  {
    var failing := seq(c.threshold, i => Attempt(0, 0, false));
    FailuresOpen(c, c.threshold);
    assert (failing + [Attempt(c.reset, c.reset, true)])[..c.threshold] == failing;
  }

  /** With equal parameters the breakers mirror each other on all traces of calls that do not
      overlap, if and only if one successful probe is enough to close. */
  lemma MirrorIffOneProbe(c: Params)
    requires c.threshold >= 1
    ensures (forall calls: seq<Attempt> :: Mirrors(PyAfter(c, calls), GoAfter(c, calls))) <==> c.probes <= 1
  {
    if c.probes <= 1 {
      forall calls: seq<Attempt> ensures Mirrors(PyAfter(c, calls), GoAfter(c, calls)) {
        BreakersMirror(c, calls, Attempt(0, 0, true));
      }
    } else {
      MoreProbesDiffer(c);
    }
  }

  // ---- calls that overlap: the Python breaker -------------------------------------------------

  datatype Event =
    | Enter(now: int)
    | Succeed(now: int)      // some call let through earlier ends well
    | Fail(now: int)         // some call let through earlier ends badly

  function PyNext(c: Params, b: Py, e: Event): Py {
    match e
    case Enter(now) => PyEnter(c, b, now)
    case Succeed(_) => PySuccess(c, b)
    case Fail(now) => PyFailure(c, b, now)
  }

  function PyRun(c: Params, es: seq<Event>): Py {
    if es == [] then PY_INIT else PyNext(c, PyRun(c, es[..|es| - 1]), es[|es| - 1])
  }

  /** Failures recorded since the last recorded success. */
  function Streak(es: seq<Event>): nat {
    if es == [] then 0
    else
      match es[|es| - 1]
      case Enter(_) => Streak(es[..|es| - 1])
      case Succeed(_) => 0
      case Fail(_) => Streak(es[..|es| - 1]) + 1
  }

  lemma {:induction false} ClosedCountsStreak(c: Params, es: seq<Event>)
    requires c.threshold >= 1
    ensures PyRun(c, es).mode == Closed ==> PyRun(c, es).failures == Streak(es) < c.threshold
  {
    if es != [] {
      ClosedCountsStreak(c, es[..|es| - 1]);
    }
  }

  /** However calls overlap, the breaker opens out of the closed mode exactly at the failure
      that makes the streak reach the threshold. */
  lemma OpensExactlyAtThreshold(c: Params, es: seq<Event>, e: Event)
    requires c.threshold >= 1 && PyRun(c, es).mode == Closed
    ensures PyRun(c, es + [e]).mode != Closed <==> e.Fail? && Streak(es + [e]) == c.threshold
  {
    ClosedCountsStreak(c, es);
    assert (es + [e])[..|es|] == es;
  }

  ghost predicate ClockMonotone(es: seq<Event>) {
    forall i, j :: 0 <= i <= j < |es| ==> es[i].now <= es[j].now
  }

  lemma {:induction false} StaysOpen(c: Params, es: seq<Event>, i: nat, j: nat)
    requires i < j <= |es| && ClockMonotone(es)
    requires PyRun(c, es[..i]).mode != Open && PyRun(c, es[..i + 1]).mode == Open
    requires j < |es| ==> es[j].now < es[i].now + c.reset
    requires j == |es| ==> es[j - 1].now < es[i].now + c.reset
    ensures PyRun(c, es[..j]).mode == Open && PyRun(c, es[..j]).openedAt == es[i].now
  {
    if j == i + 1 {
      assert es[..i + 1][..i] == es[..i];
    } else {
      assert es[..j][..j - 1] == es[..j - 1];
      assert es[j - 1].now < es[i].now + c.reset;
      StaysOpen(c, es, i, j - 1);
    }
  }

  /** Nothing is let through within the reset timeout of an opening, whatever late results
      arrive meanwhile. */
  lemma NothingWithinTimeout(c: Params, es: seq<Event>, i: nat, j: nat)
    requires i < j < |es| && ClockMonotone(es)
    requires PyRun(c, es[..i]).mode != Open && PyRun(c, es[..i + 1]).mode == Open
    requires es[j].Enter? && es[j].now < es[i].now + c.reset
    ensures !PyAdmits(c, PyRun(c, es[..j]), es[j].now)
  {
    StaysOpen(c, es, i, j);
  }

  // ---- where the claims stop holding ------------------------------------------------------------

  /** Half-open, every call is let through until one of them reports: not just one probe. */
  lemma HalfOpenAdmitsAll(c: Params, b: Py, now: int, later: int)
    requires b.mode == Open && now - b.openedAt >= c.reset
    ensures PyAdmits(c, b, now) && PyAdmits(c, PyEnter(c, b, now), later)
  {}

  function GoNext(c: Params, b: Go, e: Event): Go {
    match e
    case Enter(now) => GoAllow(c, b, now)
    case Succeed(_) => GoSuccess(b)
    case Fail(now) => GoFailure(c, b, now)
  }

  function GoRun(c: Params, es: seq<Event>): Go {
    if es == [] then GO_INIT else GoNext(c, GoRun(c, es[..|es| - 1]), es[|es| - 1])
  }

  /** A result that comes in while the breaker is open, from a call let through before: Go clears
      its count on a success, and restarts its timeout on a failure. */
  predicate LateResult(b: Py, e: Event) {
    b.mode == Open && (e.Succeed? || (e.Fail? && e.now != b.openedAt))
  }

  lemma {:induction false} OpenHasFailures(c: Params, es: seq<Event>)
    requires c.threshold >= 1
    ensures PyRun(c, es).mode == Closed || PyRun(c, es).failures >= c.threshold
  {
    if es != [] {
      OpenHasFailures(c, es[..|es| - 1]);
    }
  }

  lemma MirrorStepIff(c: Params, es: seq<Event>, e: Event)
    requires c.probes <= 1 && c.threshold >= 1 && Mirrors(PyRun(c, es), GoRun(c, es))
    ensures Mirrors(PyRun(c, es + [e]), GoRun(c, es + [e])) <==> !LateResult(PyRun(c, es), e)
  {
    OpenHasFailures(c, es);
    ClosedCountsStreak(c, es);
    assert (es + [e])[..|es|] == es;
  }

  ghost predicate NoLateResult(c: Params, es: seq<Event>, n: nat)
    requires n <= |es|
  {
    forall i :: 0 <= i < n ==> !LateResult(PyRun(c, es[..i]), es[i])
  }

  lemma {:induction false} MirrorSoFar(c: Params, es: seq<Event>, n: nat)
    requires c.probes <= 1 && c.threshold >= 1 && n <= |es| && NoLateResult(c, es, n)
    ensures Mirrors(PyRun(c, es[..n]), GoRun(c, es[..n]))
  {
    if n == 0 {
      assert es[..0] == [];
    } else {
      MirrorSoFar(c, es, n - 1);
      MirrorStepIff(c, es[..n - 1], es[n - 1]);
      assert es[..n] == es[..n - 1] + [es[n - 1]];
    }
  }

  /** However calls overlap: with one probe the breakers mirror each other in every state of a
      trace if and only if no result comes in while they are open, other than a failure at the
      very moment of the opening. */
  lemma MirrorOverlappingIff(c: Params, es: seq<Event>)
    requires c.probes <= 1 && c.threshold >= 1
    ensures (forall n :: 0 <= n <= |es| ==> Mirrors(PyRun(c, es[..n]), GoRun(c, es[..n])))
       <==> NoLateResult(c, es, |es|)
  {
    hide PyRun;
    hide GoRun;
    hide LateResult;
    if NoLateResult(c, es, |es|) {
      forall n | 0 <= n <= |es| ensures Mirrors(PyRun(c, es[..n]), GoRun(c, es[..n])) {
        MirrorSoFar(c, es, n);
      }
    } else {
      var i :| 0 <= i < |es| && LateResult(PyRun(c, es[..i]), es[i]);
      if Mirrors(PyRun(c, es[..i]), GoRun(c, es[..i])) {
        MirrorStepIff(c, es[..i], es[i]);
        assert es[..i + 1] == es[..i] + [es[i]];
        assert !Mirrors(PyRun(c, es[..i + 1]), GoRun(c, es[..i + 1]));
      }
    }
  }

  /** Two calls enter, the second fails after the first has opened the breakers: ten seconds after
      the opening only the Python breaker lets a call through. */
  lemma LateFailureSeparates()
    ensures var c := Params(1, 10, 1);
            var es := [Enter(0), Enter(0), Fail(1), Fail(5)];
            PyAdmits(c, PyRun(c, es), 11) && !GoAdmits(c, GoRun(c, es), 11)
  {
    var c := Params(1, 10, 1);
    var es := [Enter(0), Enter(0), Fail(1), Fail(5)];
    OneMore(c, [], Enter(0));
    assert [] + [Enter(0)] == [Enter(0)];
    OneMore(c, [Enter(0)], Enter(0));
    assert [Enter(0)] + [Enter(0)] == [Enter(0), Enter(0)];
    OneMore(c, [Enter(0), Enter(0)], Fail(1));
    assert [Enter(0), Enter(0)] + [Fail(1)] == [Enter(0), Enter(0), Fail(1)];
    OneMore(c, [Enter(0), Enter(0), Fail(1)], Fail(5));
    assert [Enter(0), Enter(0), Fail(1)] + [Fail(5)] == es;
  }

  lemma OneMore(c: Params, es: seq<Event>, e: Event)
    ensures PyRun(c, es + [e]) == PyNext(c, PyRun(c, es), e)
    ensures GoRun(c, es + [e]) == GoNext(c, GoRun(c, es), e)
  {
    assert (es + [e])[..|es|] == es;
  }

  // ---- the breakers as objects ----------------------------------------------------------------

  class PythonBreaker {
    const params: Params
    var mode: Mode
    var failureCount: nat
    var successCount: nat
    var openedAt: int

    ghost function Now(): Py
      reads this
    {
      Py(mode, failureCount, successCount, openedAt)
    }

    constructor (params: Params)
      ensures Now() == PY_INIT && this.params == params
    {
      this.params := params;
      mode, failureCount, successCount, openedAt := Closed, 0, 0, 0;
    }

    method TryEnter(now: int) returns (admitted: bool)
      modifies this
      ensures Now() == PyEnter(params, old(Now()), now) && (admitted <==> PyAdmits(params, old(Now()), now))
      ensures !admitted <==> old(mode) == Open && now < old(openedAt) + params.reset
      ensures old(mode) == Open && admitted ==> mode == HalfOpen && successCount == 0
      ensures !(old(mode) == Open && admitted) ==> mode == old(mode) && successCount == old(successCount)
      ensures failureCount == old(failureCount) && openedAt == old(openedAt)
    {
      if mode == Open && now - openedAt >= params.reset {
        mode := HalfOpen;
        successCount := 0;
      }
      admitted := mode != Open;
    }

    method OnSuccess()
      modifies this
      ensures Now() == PySuccess(params, old(Now()))
      ensures old(mode) == Closed ==> mode == Closed && failureCount == 0
      ensures old(mode) == HalfOpen && old(successCount) + 1 >= params.probes ==> mode == Closed && failureCount == 0
      ensures old(mode) == HalfOpen && old(successCount) + 1 < params.probes ==>
        mode == HalfOpen && failureCount == old(failureCount)
      ensures old(mode) == Open ==> mode == Open && failureCount == old(failureCount)
      ensures successCount == old(successCount) + if old(mode) == HalfOpen then 1 else 0
      ensures openedAt == old(openedAt)
    {
      if mode == HalfOpen {
        successCount := successCount + 1;
        if successCount >= params.probes {
          mode := Closed;
          failureCount := 0;
        }
      } else if mode == Closed {
        failureCount := 0;
      }
    }

    method OnFailure(now: int)
      modifies this
      ensures Now() == PyFailure(params, old(Now()), now)
      ensures old(mode) == Open ==> mode == Open && openedAt == old(openedAt)
      ensures old(mode) == HalfOpen ==> mode == Open && openedAt == now
      ensures old(mode) == Closed ==>
                mode == (if old(failureCount) + 1 >= params.threshold then Open else Closed)
                && openedAt == (if mode == Open then now else old(openedAt))
      ensures failureCount == old(failureCount) + 1 && successCount == old(successCount)
    {
      failureCount := failureCount + 1;
      if mode == HalfOpen {
        mode := Open;
        openedAt := now;
      } else if mode == Closed && failureCount >= params.threshold {
        mode := Open;
        openedAt := now;
      }
    }
  }

  class GoBreaker {
    const params: Params
    var mode: Mode
    var failures: nat
    var openedAt: int

    ghost function Now(): Go
      reads this
    {
      Go(mode, failures, openedAt)
    }

    constructor (params: Params)
      ensures Now() == GO_INIT && this.params == params
    {
      this.params := params;
      mode, failures, openedAt := Closed, 0, 0;
    }

    method Allow(now: int) returns (admitted: bool)
      modifies this
      ensures Now() == GoAllow(params, old(Now()), now) && (admitted <==> GoAdmits(params, old(Now()), now))
      ensures !admitted <==> old(mode) == Open && now < old(openedAt) + params.reset
      ensures mode == if old(mode) == Open && admitted then HalfOpen else old(mode)
      ensures failures == old(failures) && openedAt == old(openedAt)
    {
      match mode
      case Open =>
        if now - openedAt >= params.reset {
          mode := HalfOpen;
          return true;
        }
        admitted := false;
      case _ =>
        admitted := true;
    }

    method RecordSuccess()
      modifies this
      ensures Now() == GoSuccess(old(Now()))
      ensures failures == 0 && openedAt == old(openedAt)
      ensures mode == Open <==> old(mode) == Open
      ensures mode == Closed <==> old(mode) != Open
    {
      failures := 0;
      if mode == HalfOpen {
        mode := Closed;
      }
    }

    method RecordFailure(now: int)
      modifies this
      ensures Now() == GoFailure(params, old(Now()), now)
      ensures failures == old(failures) + 1
      ensures old(mode) == HalfOpen || failures >= params.threshold ==> mode == Open && openedAt == now
      ensures old(mode) != HalfOpen && failures < params.threshold ==> mode == old(mode) && openedAt == old(openedAt)
    {
      failures := failures + 1;
      if mode == HalfOpen || failures >= params.threshold {
        mode := Open;
        openedAt := now;
      }
    }
  }
}
