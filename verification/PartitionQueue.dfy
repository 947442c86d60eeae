/** The queue kept for a dependency that cannot be reached: shared/partition.py, lines 109-202. */
module PartitionQueue {

  const SUSPECT_THRESHOLD: nat := 1
  const PARTITION_THRESHOLD: nat := 3
  const MAX_QUEUED_OPS: nat := 1000

  type Operation = nat

  datatype Mode = Connected | Suspected | Partitioned | Merging

  /** What a merge that succeeded was handed, and the position of its first operation among the
      accepted ones. */
  datatype Block = Block(from: int, ops: seq<Operation>)
  {
    function To(): int { from + |ops| }
  }

  /** accepted and merged only record history: every operation taken into the queue, and the
      blocks handed to merges that succeeded. taken is the queue a running merge works on. */
  datatype State = State(
    mode: Mode, failures: nat, queue: seq<Operation>, taken: seq<Operation>,
    accepted: seq<Operation>, merged: seq<Block>)

  const INIT: State := State(Connected, 0, [], [], [], [])

  datatype Event =
    | Queue(op: Operation)
    | ProbeFails
    | ProbeSucceeds          // connected: nothing to do; otherwise a merge starts
    | MergeEnds(ok: bool)    // the merge handler returned or raised

  function Last(s: seq<Operation>, n: nat): seq<Operation> {
    if |s| <= n then s else s[|s| - n..]
  }

  /** Between queue_operation calls and probes; a merge is awaited before the next probe. */
  predicate Enabled(s: State, e: Event) {
    match e
    case Queue(_) => true
    case ProbeFails => s.mode != Merging
    case ProbeSucceeds => s.mode != Merging
    case MergeEnds(_) => s.mode == Merging
  }

  function Next(s: State, e: Event): State
    requires Enabled(s, e)
  {
    match e
    case Queue(op) =>
      if s.mode == Partitioned || s.mode == Suspected then
        var kept := if |s.queue| >= MAX_QUEUED_OPS then s.queue[1..] else s.queue;
        s.(queue := kept + [op], accepted := s.accepted + [op])
      else s
    case ProbeFails =>
      var n := s.failures + 1;
      s.(failures := n,
         mode := if n >= PARTITION_THRESHOLD then Partitioned
                 else if n >= SUSPECT_THRESHOLD && s.mode == Connected then Suspected
                 else s.mode)
    case ProbeSucceeds =>
      if s.mode == Connected then s.(failures := 0)
      else s.(mode := Merging, taken := s.queue, queue := [])
    case MergeEnds(ok) =>
      var done := s.(mode := Connected, failures := 0, taken := []);
      if ok then done.(merged := s.merged + [Block(|s.accepted| - |s.taken|, s.taken)])
      else done.(queue := s.queue + s.taken)
  }

  ghost predicate IsRun(ss: seq<State>, es: seq<Event>) {
    && |ss| == |es| + 1 && ss[0] == INIT
    && forall i :: 0 <= i < |es| ==> Enabled(ss[i], es[i]) && ss[i + 1] == Next(ss[i], es[i])
  }

  /** Operations waiting, in the queue or in the hands of the merge. */
  function Waiting(s: State): seq<Operation> {
    if s.mode == Merging then s.taken else s.queue
  }

  /** The merge got those very operations, in the order in which they were accepted. */
  predicate HandedOver(accepted: seq<Operation>, b: Block) {
    0 <= b.from && b.To() <= |accepted| && b.ops == accepted[b.from..b.To()]
  }

  ghost predicate Inv(s: State) {
    && |Waiting(s)| <= MAX_QUEUED_OPS
    && |Waiting(s)| <= |s.accepted| && Waiting(s) == Last(s.accepted, |Waiting(s)|)
    && (s.mode == Merging ==> s.queue == [] && s.failures >= 1)
    && (s.mode == Connected <==> s.failures == 0)
    && (s.mode == Suspected ==> 1 <= s.failures < PARTITION_THRESHOLD)
    && (s.mode == Partitioned ==> s.failures >= PARTITION_THRESHOLD)
    && (forall i :: 0 <= i < |s.merged| ==> HandedOver(s.accepted, s.merged[i]))
    && (forall i :: 0 <= i < |s.merged| ==> s.merged[i].To() <= |s.accepted| - |Waiting(s)|)
    && (forall i, j :: 0 <= i < j < |s.merged| ==> s.merged[i].To() <= s.merged[j].from)
  }

  lemma SuffixGrows(accepted: seq<Operation>, queue: seq<Operation>, op: Operation)
    requires |queue| <= |accepted| && queue == Last(accepted, |queue|)
    ensures queue + [op] == Last(accepted + [op], |queue| + 1)
    ensures queue != [] ==> queue[1..] == Last(accepted, |queue| - 1)
  {}

  lemma HandedOverStays(accepted: seq<Operation>, b: Block, op: Operation)
    requires HandedOver(accepted, b)
    ensures HandedOver(accepted + [op], b)
  {
    assert (accepted + [op])[b.from..b.To()] == accepted[b.from..b.To()];
  }

  lemma QueueKeepsInv(s: State, op: Operation)
    requires Inv(s)
    ensures Inv(Next(s, Queue(op)))
  {
    if s.mode == Partitioned || s.mode == Suspected {
      var kept := if |s.queue| >= MAX_QUEUED_OPS then s.queue[1..] else s.queue;
      SuffixGrows(s.accepted, s.queue, op);
      SuffixGrows(s.accepted, kept, op);
      hide Last;
      forall i | 0 <= i < |s.merged| ensures HandedOver(s.accepted + [op], s.merged[i]) {
        HandedOverStays(s.accepted, s.merged[i], op);
      }
      hide HandedOver;
    }
  }

  lemma NextKeepsInv(s: State, e: Event)
    requires Inv(s) && Enabled(s, e)
    ensures Inv(Next(s, e))
  {
    match e
    case Queue(op) => QueueKeepsInv(s, op);
    case ProbeFails =>
    case ProbeSucceeds =>
    case MergeEnds(ok) =>
      assert [] + s.taken == s.taken;
  }

  lemma {:induction false} RunHoldsInv(ss: seq<State>, es: seq<Event>, i: nat)
    requires IsRun(ss, es) && i < |ss|
    ensures Inv(ss[i])
  {
    if i > 0 {
      RunHoldsInv(ss, es, i - 1);
      NextKeepsInv(ss[i - 1], es[i - 1]);
    }
  }

  /** In every run the queue is a suffix of the accepted operations, of at most 1000; successful
      merges were handed blocks of them in order, without overlap and all before the queue; between
      probes the number of failures alone tells the mode. */
  lemma QueueIsSuffix(ss: seq<State>, es: seq<Event>, i: nat)
    requires IsRun(ss, es) && i < |ss| && ss[i].mode != Merging
    ensures |ss[i].queue| <= MAX_QUEUED_OPS && ss[i].queue == Last(ss[i].accepted, |ss[i].queue|)
    ensures forall k :: 0 <= k < |ss[i].merged| ==> HandedOver(ss[i].accepted, ss[i].merged[k])
    ensures forall k, l :: 0 <= k < l < |ss[i].merged| ==> ss[i].merged[k].To() <= ss[i].merged[l].from
    ensures forall k :: 0 <= k < |ss[i].merged| ==> ss[i].merged[k].To() <= |ss[i].accepted| - |ss[i].queue|
    ensures ss[i].mode == if ss[i].failures == 0 then Connected
                          else if ss[i].failures < PARTITION_THRESHOLD then Suspected else Partitioned
  {
    RunHoldsInv(ss, es, i);
  }

  /** A merge that fails puts everything back, whatever was offered to the queue meanwhile. */
  lemma {:induction false} FailedMergeRestores(ss: seq<State>, es: seq<Event>, i: nat, j: nat)
    requires IsRun(ss, es) && i < j < |es|
    requires ss[i].mode != Connected && es[i] == ProbeSucceeds && es[j] == MergeEnds(false)
    requires forall k :: i < k < j ==> es[k].Queue?
    ensures ss[j + 1].queue == ss[i].queue && ss[j + 1].accepted == ss[i].accepted && ss[j + 1].mode == Connected
  {
    MergingIgnoresQueue(ss, es, i + 1, j);
    assert ss[j].queue + ss[j].taken == ss[i].queue;
  }

  lemma {:induction false} MergingIgnoresQueue(ss: seq<State>, es: seq<Event>, i: nat, j: nat)
    requires IsRun(ss, es) && i <= j < |ss| && ss[i].mode == Merging
    requires forall k :: i <= k < j ==> es[k].Queue?
    ensures ss[j] == ss[i]
  {
    if i < j {
      MergingIgnoresQueue(ss, es, i, j - 1);
    }
  }

  /** What a failed merge put back is not offered again while the dependency stays connected. */
  lemma {:induction false} FailedMergeWaitsForNextPartition(ss: seq<State>, es: seq<Event>, i: nat, j: nat)
    requires IsRun(ss, es) && i <= j < |ss| && ss[i].mode == Connected
    requires forall k :: i <= k < j ==> es[k] != ProbeFails
    ensures ss[j].mode == Connected && ss[j].queue == ss[i].queue && ss[j].merged == ss[i].merged
  {
    if i < j {
      FailedMergeWaitsForNextPartition(ss, es, i, j - 1);
    }
  }

  class Dependency {
    var mode: Mode
    var consecutiveFailures: nat
    var queuedOperations: seq<Operation>
    ghost var taken: seq<Operation>
    ghost var accepted: seq<Operation>
    ghost var merged: seq<Block>

    ghost function Now(): State
      reads this
    {
      State(mode, consecutiveFailures, queuedOperations, taken, accepted, merged)
    }

    constructor ()
      ensures Now() == INIT
    {
      mode, consecutiveFailures, queuedOperations := Connected, 0, [];
      taken, accepted, merged := [], [], [];
    }

    /** Kept only while the dependency is suspected or partitioned; of more than 1000 the oldest
        are dropped. */
    method QueueOperation(op: Operation)
      requires Inv(Now())
      modifies this
      ensures Inv(Now()) && Now() == Next(old(Now()), Queue(op))
      ensures mode == old(mode) && consecutiveFailures == old(consecutiveFailures)
      ensures mode == Connected || mode == Merging ==> queuedOperations == old(queuedOperations)
      ensures mode == Connected || mode == Merging ==> accepted == old(accepted)
      ensures mode == Suspected || mode == Partitioned ==>
        var n := |old(queuedOperations)|;
        && |queuedOperations| == (if n < 1000 then n + 1 else 1000)
        && queuedOperations == (old(queuedOperations) + [op])[n + 1 - |queuedOperations|..]
        && accepted == old(accepted) + [op]
      ensures taken == old(taken) && merged == old(merged)
    {
      NextKeepsInv(Now(), Queue(op));
      if mode == Partitioned || mode == Suspected {
        if |queuedOperations| >= MAX_QUEUED_OPS {
          queuedOperations := queuedOperations[1..];
        }
        queuedOperations := queuedOperations + [op];
        accepted := accepted + [op];
      }
    }

    /** Three failures in a row make a partition, whatever the mode was; nothing queued is lost. */
    method OnProbeFailure()
      requires Inv(Now()) && mode != Merging
      modifies this
      ensures Inv(Now()) && Now() == Next(old(Now()), ProbeFails)
      ensures consecutiveFailures == old(consecutiveFailures) + 1 && queuedOperations == old(queuedOperations)
      ensures mode == if consecutiveFailures < 3 then Suspected else Partitioned
    {
      NextKeepsInv(Now(), ProbeFails);
      consecutiveFailures := consecutiveFailures + 1;
      if consecutiveFailures >= PARTITION_THRESHOLD {
        if mode != Partitioned {
          mode := Partitioned;
        }
      } else if consecutiveFailures >= SUSPECT_THRESHOLD {
        if mode == Connected {
          mode := Suspected;
        }
      }
    }

    /** Up to the call of the merge handler: returns what the handler is given. */
    method OnProbeSuccess() returns (queued: seq<Operation>)
      requires Inv(Now()) && mode != Merging
      modifies this
      ensures Inv(Now()) && Now() == Next(old(Now()), ProbeSucceeds)
      ensures old(mode) == Connected ==>
        && mode == Connected && consecutiveFailures == 0 && queued == []
        && queuedOperations == old(queuedOperations) && taken == old(taken)
      ensures old(mode) != Connected ==>
        && mode == Merging && queued == old(queuedOperations) && queuedOperations == [] && taken == queued
        && consecutiveFailures == old(consecutiveFailures)
      ensures accepted == old(accepted) && merged == old(merged)
      ensures |queued| <= |accepted| && (queued != [] ==> queued == accepted[|accepted| - |queued|..])
    {
      NextKeepsInv(Now(), ProbeSucceeds);
      queued := [];
      if mode == Partitioned || mode == Suspected {
        mode := Merging;
        queued := queuedOperations;
        taken := queuedOperations;
        queuedOperations := [];
      } else {
        consecutiveFailures := 0;
      }
    }

    /** After the merge handler: ok is false if it raised. */
    method AfterMerge(queued: seq<Operation>, ok: bool)
      requires Inv(Now()) && mode == Merging && queued == taken
      modifies this
      ensures Inv(Now()) && Now() == Next(old(Now()), MergeEnds(ok))
      ensures mode == Connected && consecutiveFailures == 0 && accepted == old(accepted)
      ensures merged == if ok then old(merged) + [Block(|accepted| - |queued|, queued)] else old(merged)
      ensures queuedOperations == if ok then [] else queued
    {
      assert queuedOperations == [];
      hide Inv;
      NextKeepsInv(Now(), MergeEnds(ok));
      assert [] + queued == queued;
      if ok {
        merged := merged + [Block(|accepted| - |taken|, queued)];
      } else {
        queuedOperations := queuedOperations + queued;
      }
      taken := [];
      mode := Connected;
      consecutiveFailures := 0;
    }
  }
}
