/**
 * The workers of one Refresh: one per cluster to sample, a semaphore that admits only so many Source calls at a
 * time, and a buffered channel for the results. Any worker may move at any time, and the context may be cancelled.
 */
module WorkerPool {
  import SamplerState
  import opened Wrappers

  datatype Phase = Starting | Calling | Sending | Sent | Finished

  /** `tokens` is the fill of the semaphore, `delivered` the workers whose results are in the channel. */
  datatype Pool = Pool(limit: nat, workers: seq<Phase>, tokens: nat, delivered: seq<nat>, cancelled: bool)

  datatype Step =
    | Acquire(w: nat)
    | GiveUp(w: nat)
    | Answer(w: nat)
    | Send(w: nat)
    | Release(w: nat)
    | Cancel

  function Begin(limit: nat, clusters: nat): Pool {
    Pool(limit, seq(clusters, _ => Starting), 0, [], false)
  }

  predicate In(p: Pool, w: nat, phase: Phase) {
    w < |p.workers| && p.workers[w] == phase
  }

  /** A channel operation that would block is not enabled. */
  predicate Enabled(p: Pool, step: Step) {
    match step
    case Acquire(w) => In(p, w, Starting) && p.tokens < p.limit
    case GiveUp(w) => In(p, w, Starting) && p.cancelled
    case Answer(w) => In(p, w, Calling)
    case Send(w) => In(p, w, Sending) && |p.delivered| < |p.workers|
    case Release(w) => In(p, w, Sent) && p.tokens > 0
    case Cancel => true
  }

  function Next(p: Pool, step: Step): Pool
    requires Enabled(p, step)
  {
    match step
    case Acquire(w) => p.(workers := p.workers[w := Calling], tokens := p.tokens + 1)
    case GiveUp(w) => p.(workers := p.workers[w := Finished])
    case Answer(w) => p.(workers := p.workers[w := Sending])
    case Send(w) => p.(workers := p.workers[w := Sent], delivered := p.delivered + [w])
    case Release(w) => p.(workers := p.workers[w := Finished], tokens := p.tokens - 1)
    case Cancel => p.(cancelled := true)
  }

  ghost predicate IsRun(states: seq<Pool>, steps: seq<Step>, limit: nat, clusters: nat) {
    && |states| == |steps| + 1
    && states[0] == Begin(limit, clusters)
    && forall i :: 0 <= i < |steps| ==> Enabled(states[i], steps[i]) && states[i + 1] == Next(states[i], steps[i])
  }

  // ----- Counting workers

  predicate HoldsToken(phase: Phase) {
    phase in {Calling, Sending, Sent}
  }

  function Holding(workers: seq<Phase>): nat {
    if workers == [] then 0
    else Holding(workers[..|workers| - 1]) + if HoldsToken(workers[|workers| - 1]) then 1 else 0
  }

  /** The workers inside a Source call. */
  function Callers(workers: seq<Phase>): set<nat> {
    set w: nat | w < |workers| && workers[w] == Calling
  }

  function StepsLeft(phase: Phase): nat {
    match phase case Starting => 4 case Calling => 3 case Sending => 2 case Sent => 1 case Finished => 0
  }

  /** How many more steps the workers can take between them. */
  function Remaining(workers: seq<Phase>): nat {
    if workers == [] then 0 else Remaining(workers[..|workers| - 1]) + StepsLeft(workers[|workers| - 1])
  }

  lemma {:induction false} CountsAfterUpdate(workers: seq<Phase>, w: nat, phase: Phase)
    requires w < |workers|
    ensures Holding(workers[w := phase]) ==
            Holding(workers) - (if HoldsToken(workers[w]) then 1 else 0) + (if HoldsToken(phase) then 1 else 0)
    ensures Remaining(workers[w := phase]) == Remaining(workers) - StepsLeft(workers[w]) + StepsLeft(phase)
  {
    var n := |workers| - 1;
    if w < n {
      assert workers[w := phase][..n] == workers[..n][w := phase];
      CountsAfterUpdate(workers[..n], w, phase);
    } else {
      assert workers[w := phase][..n] == workers[..n];
    }
  }

  lemma {:induction false} ActiveHold(workers: seq<Phase>)
    ensures Holding(workers) > 0 ==> exists w :: 0 <= w < |workers| && HoldsToken(workers[w])
    ensures (forall w :: 0 <= w < |workers| ==> workers[w] == Finished) <==> Remaining(workers) == 0
  {
    if workers != [] {
      var rest := workers[..|workers| - 1];
      ActiveHold(rest);
      if Holding(rest) > 0 {
        var w :| 0 <= w < |rest| && HoldsToken(rest[w]);
        assert HoldsToken(workers[w]);
      }
      assert forall w :: 0 <= w < |rest| ==> rest[w] == workers[w];
    }
  }

  lemma CallersOneMore(workers: seq<Phase>, last: Phase)
    ensures |Callers(workers + [last])| == |Callers(workers)| + if last == Calling then 1 else 0
  {
    assert Callers(workers + [last]) == Callers(workers) + if last == Calling then {|workers|} else {};
  }

  lemma {:induction false} CallersHold(workers: seq<Phase>)
    ensures |Callers(workers)| <= Holding(workers)
  {
    if workers == [] {
      assert Callers(workers) == {};
    } else {
      var rest, last := workers[..|workers| - 1], workers[|workers| - 1];
      CallersHold(rest);
      CallersOneMore(rest, last);
      assert workers == rest + [last];
    }
  }

  lemma {:induction false} NoneHold(workers: seq<Phase>)
    requires forall w :: 0 <= w < |workers| ==> workers[w] == Starting
    ensures Holding(workers) == 0 && Remaining(workers) == 4 * |workers|
  {
    if workers != [] {
      NoneHold(workers[..|workers| - 1]);
    }
  }

  // ----- The invariant

  ghost predicate Valid(p: Pool) {
    && p.tokens == Holding(p.workers) && p.tokens <= p.limit
    && (forall i :: 0 <= i < |p.delivered| ==>
          p.delivered[i] < |p.workers| && p.workers[p.delivered[i]] in {Sent, Finished})
    && (forall i, j :: 0 <= i < j < |p.delivered| ==> p.delivered[i] != p.delivered[j])
    && (forall w: nat :: In(p, w, Sent) || (In(p, w, Finished) && !p.cancelled) ==> w in p.delivered)
  }

  lemma StepKeepsValid(p: Pool, step: Step)
    requires Valid(p) && Enabled(p, step)
    ensures Valid(Next(p, step))
    ensures Next(p, step).limit == p.limit && |Next(p, step).workers| == |p.workers|
    ensures Remaining(Next(p, step).workers) + (if step.Cancel? then 0 else 1) <= Remaining(p.workers)
  {
    if !step.Cancel? {
      CountsAfterUpdate(p.workers, step.w, Next(p, step).workers[step.w]);
    }
  }

  lemma {:induction false} RunIsValid(states: seq<Pool>, steps: seq<Step>, limit: nat, clusters: nat, i: nat)
    requires IsRun(states, steps, limit, clusters) && i < |states|
    ensures Valid(states[i]) && states[i].limit == limit && |states[i].workers| == clusters
    ensures Remaining(states[i].workers) + |Moves(steps[..i])| <= 4 * clusters
  {
    if i == 0 {
      NoneHold(states[0].workers);
      assert Moves(steps[..0]) == {};
    } else {
      RunIsValid(states, steps, limit, clusters, i - 1);
      StepKeepsValid(states[i - 1], steps[i - 1]);
      MovesOneMore(steps[..i - 1], steps[i - 1]);
      assert steps[..i] == steps[..i - 1] + [steps[i - 1]];
    }
  }

  /** The steps of a run that some worker takes. */
  function Moves(steps: seq<Step>): set<nat> {
    set k: nat | k < |steps| && !steps[k].Cancel?
  }

  lemma MovesOneMore(steps: seq<Step>, step: Step)
    ensures |Moves(steps + [step])| == |Moves(steps)| + if step.Cancel? then 0 else 1
  {
    var more := steps + [step];
    assert Moves(more) == Moves(steps) + if step.Cancel? then {} else {|steps|};
  }

  function Below(n: nat): set<nat> {
    if n == 0 then {} else Below(n - 1) + {n - 1}
  }

  lemma {:induction false} BelowIsComplete(n: nat)
    ensures |Below(n)| == n && forall x: nat :: x in Below(n) <==> x < n
  {
    if n > 0 {
      BelowIsComplete(n - 1);
    }
  }

  function Elements(s: seq<nat>): set<nat> {
    set x <- s
  }

  lemma {:induction false} DistinctLength(s: seq<nat>)
    requires forall i, j :: 0 <= i < j < |s| ==> s[i] != s[j]
    ensures |Elements(s)| == |s|
  {
    if s != [] {
      var rest, last := s[..|s| - 1], s[|s| - 1];
      DistinctLength(rest);
      assert Elements(s) == Elements(rest) + {last};
    }
  }

  /** Distinct workers, one of all missing: the list is shorter than the number of workers. */
  lemma Pigeonhole(s: seq<nat>, n: nat, missing: nat)
    requires forall i :: 0 <= i < |s| ==> s[i] < n && s[i] != missing
    requires forall i, j :: 0 <= i < j < |s| ==> s[i] != s[j]
    requires missing < n
    ensures |s| < n
  {
    var values := Elements(s);
    DistinctLength(s);
    BelowIsComplete(n);
    assert missing !in values;
    SubsetSize(values + {missing}, Below(n));
  }

  // ----- The results

  /** At most `limit` Source calls are active, no worker delivers twice, and a worker with a result never blocks. */
  lemma BoundedAndNonBlocking(states: seq<Pool>, steps: seq<Step>, limit: nat, clusters: nat, i: nat)
    requires IsRun(states, steps, limit, clusters) && i < |states|
    ensures |Callers(states[i].workers)| <= limit
    ensures forall a, b :: 0 <= a < b < |states[i].delivered| ==> states[i].delivered[a] != states[i].delivered[b]
    ensures forall w: nat :: In(states[i], w, Sending) ==> Enabled(states[i], Send(w))
    ensures forall w: nat :: In(states[i], w, Sent) ==> Enabled(states[i], Release(w))
  {
    RunIsValid(states, steps, limit, clusters, i);
    var p := states[i];
    CallersHold(p.workers);
    forall w: nat | In(p, w, Sending) ensures Enabled(p, Send(w)) {
      Pigeonhole(p.delivered, |p.workers|, w);
    }
    forall w: nat | In(p, w, Sent) ensures Enabled(p, Release(w)) {
      SomeoneHolds(p.workers, w);
    }
  }

  lemma {:induction false} SomeoneHolds(workers: seq<Phase>, w: nat)
    requires w < |workers| && HoldsToken(workers[w])
    ensures Holding(workers) > 0
  {
    if w < |workers| - 1 {
      SomeoneHolds(workers[..|workers| - 1], w);
    }
  }

  ghost predicate AllFinished(p: Pool) {
    forall w :: 0 <= w < |p.workers| ==> In(p, w, Finished)
  }

  ghost predicate SomeWorkerCanMove(p: Pool) {
    exists step: Step :: !step.Cancel? && Enabled(p, step)
  }

  /**
   * The final wait completes: a run has at most four worker steps per cluster, and until every worker has finished
   * some worker can move, with or without cancellation, when at least one call is admitted at a time.
   */
  lemma WaitCompletes(states: seq<Pool>, steps: seq<Step>, limit: nat, clusters: nat, i: nat)
    requires IsRun(states, steps, limit, clusters) && i < |states|
    ensures |Moves(steps[..i])| <= 4 * clusters
    ensures limit >= 1 || states[i].cancelled ==> AllFinished(states[i]) == !SomeWorkerCanMove(states[i])
  {
    RunIsValid(states, steps, limit, clusters, i);
    var p := states[i];
    BoundedAndNonBlocking(states, steps, limit, clusters, i);
    if AllFinished(p) {
      forall step: Step | !step.Cancel? ensures !Enabled(p, step) {
        assert step.w < clusters ==> In(p, step.w, Finished);
      }
    } else if limit >= 1 || p.cancelled {
      SomeoneMoves(p);
    }
  }

  lemma SomeoneMoves(p: Pool)
    requires Valid(p) && (p.limit >= 1 || p.cancelled) && !AllFinished(p)
    requires forall w: nat :: In(p, w, Sending) ==> Enabled(p, Send(w))
    requires forall w: nat :: In(p, w, Sent) ==> Enabled(p, Release(w))
    ensures SomeWorkerCanMove(p)
  {
    if w :| 0 <= w < |p.workers| && HoldsToken(p.workers[w]) {
      assert In(p, w, p.workers[w]);
      var step := if p.workers[w] == Calling then Answer(w) else if p.workers[w] == Sending then Send(w) else Release(w);
      assert !step.Cancel? && Enabled(p, step);
    } else {
      var w :| 0 <= w < |p.workers| && !In(p, w, Finished);
      ActiveHold(p.workers);
      assert !HoldsToken(p.workers[w]);
      var step := if p.cancelled then GiveUp(w) else Acquire(w);
      assert !step.Cancel? && Enabled(p, step);
    }
  }

  /** The context can be cancelled at any time, and is exactly after it was. */
  lemma {:induction false} CancelledByCancel(states: seq<Pool>, steps: seq<Step>, limit: nat, clusters: nat, i: nat)
    requires IsRun(states, steps, limit, clusters) && i < |states|
    ensures states[i].cancelled <==> exists j :: 0 <= j < i && steps[j].Cancel?
    ensures Enabled(states[i], Cancel)
  {
    if i > 0 {
      CancelledByCancel(states, steps, limit, clusters, i - 1);
    }
  }

  /** Without a cancellation, every worker has delivered its result by the end of the wait. */
  lemma ResultsArrive(states: seq<Pool>, steps: seq<Step>, limit: nat, clusters: nat, i: nat)
    requires IsRun(states, steps, limit, clusters) && i < |states| && AllFinished(states[i])
    requires forall j :: 0 <= j < i ==> !steps[j].Cancel?
    ensures forall w: nat :: w < clusters <==> w in states[i].delivered
    ensures |states[i].delivered| == clusters
  {
    RunIsValid(states, steps, limit, clusters, i);
    CancelledByCancel(states, steps, limit, clusters, i);
    var p := states[i];
    forall w: nat | w < clusters ensures w in p.delivered {
      assert In(p, w, Finished);
    }
    DistinctLength(p.delivered);
    BelowIsComplete(clusters);
    assert Elements(p.delivered) == Below(clusters);
  }

  /** With no call admitted only a cancellation can happen. */
  lemma {:induction false} NobodyStarts(states: seq<Pool>, steps: seq<Step>, clusters: nat, i: nat)
    requires IsRun(states, steps, 0, clusters) && i < |states|
    ensures states[i].cancelled || states[i] == Begin(0, clusters)
  {
    if i > 0 {
      NobodyStarts(states, steps, clusters, i - 1);
      var step := steps[i - 1];
      assert Enabled(states[i - 1], step) && states[i] == Next(states[i - 1], step);
    }
  }

  /** The wait hangs exactly when no call is admitted, nothing was cancelled and there is a worker to wait for. */
  lemma NoLimitHangs(states: seq<Pool>, steps: seq<Step>, limit: nat, clusters: nat, i: nat)
    requires IsRun(states, steps, limit, clusters) && i < |states|
    ensures !AllFinished(states[i]) && !SomeWorkerCanMove(states[i]) <==>
            limit == 0 && !states[i].cancelled && clusters > 0
  {
    var p := states[i];
    RunIsValid(states, steps, limit, clusters, i);
    WaitCompletes(states, steps, limit, clusters, i);
    if limit == 0 && !p.cancelled {
      NobodyStarts(states, steps, clusters, i);
      forall step: Step | !step.Cancel? ensures !Enabled(p, step) {
        assert step.w < clusters ==> In(p, step.w, Starting);
      }
      assert clusters > 0 ==> In(p, 0, Starting) && !In(p, 0, Finished);
    }
  }

  /** The options a Refresh reads are normalized, and so its wait never hangs. */
  lemma RefreshNeverHangs(states: seq<Pool>, steps: seq<Step>, options: SamplerState.Options, clusters: nat, i: nat)
    requires IsRun(states, steps, SamplerState.Normalized(options).maxConcurrent, clusters) && i < |states|
    ensures AllFinished(states[i]) || SomeWorkerCanMove(states[i])
  {
    NoLimitHangs(states, steps, SamplerState.Normalized(options).maxConcurrent, clusters, i);
  }
}
