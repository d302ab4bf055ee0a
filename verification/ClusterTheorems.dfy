/** The main results about the cluster manager, over all runs of ClusterMachine. */
module ClusterTheorems {
  import opened Wrappers
  import opened Config
  import opened ClusterState
  import opened ClusterMachine
  import opened ClusterSafety

  // ----- Client lifetimes

  ghost predicate Finished(s: State) {
    forall o <- s.ops :: s.ops[o].phase.Closing? && s.ops[o].phase.queue == {}
  }

  /**
   * In every reachable state no installed client has been closed, no client was closed twice and no nil client is
   * installed; when all operations are done, the clients ever created are those installed and those closed.
   */
  lemma ClientLifetimes(states: seq<State>, steps: seq<Step>, i: nat)
    requires IsRun(states, steps) && i < |states|
    ensures var s := states[i];
            && Installed(s) !! Closed(s) && NoDuplicates(s.closed) && NIL !in Installed(s)
            && (Finished(s) ==> s.dialled.Keys == Installed(s) + Closed(s))
  {
    RunIsSafe(states, steps, i);
  }

  /** An operation that failed installed none of its clients and closes exactly the clients it created. */
  lemma FailureClosesWhatItMade(states: seq<State>, steps: seq<Step>, i: nat, o: OpId)
    requires IsRun(states, steps) && i < |states| && o in states[i].ops
    requires states[i].ops[o].phase.Closing? && states[i].ops[o].phase.outcome != Succeeded
    ensures var s, op := states[i], states[i].ops[o];
            && op.made !! Installed(s)
            && op.made == op.phase.queue + op.closedBy && op.phase.queue !! Closed(s) && op.closedBy <= Closed(s)
            && (op.phase.queue == {} ==> op.made == op.closedBy <= Closed(s))
  {
    RunIsSafe(states, steps, i);
    assert PhaseValid(states[i], states[i].ops[o]);
  }

  /** Only an operation that succeeds changes what the manager guards. */
  lemma OnlySuccessChangesShared(s: State, step: Step)
    requires Enabled(s, step) && Next(s, step).shared != s.shared
    ensures Next(s, step).ops[step.op].phase.Closing? && Next(s, step).ops[step.op].phase.outcome == Succeeded
  {
  }

  /** When an Apply commits, it has dialled the enabled ids it could not reuse, each with its own configuration. */
  lemma ApplyDialsExactlyTheRest(states: seq<State>, steps: seq<Step>, i: nat)
    requires IsRun(states, steps) && i < |steps| && steps[i].Commit?
    requires states[i].ops[steps[i].op].phase.Applying?
    ensures var op := states[i].ops[steps[i].op];
            && op.phase.created.Keys == EnabledConfigs(op.phase.clusters).Keys - op.phase.reused
            && op.made == op.phase.created.Values
            && forall id <- op.phase.created ::
                 && op.phase.created[id] in states[i].dialled
                 && states[i].dialled[op.phase.created[id]] == EnabledConfigs(op.phase.clusters)[id]
  {
    RunIsSafe(states, steps, i);
    var op := states[i].ops[steps[i].op];
    assert PhaseValid(states[i], op);
    assert op.phase.clusters[..op.phase.next] == op.phase.clusters;
  }

  // ----- What the network answered

  /** The ping of a client is answered. */
  ghost predicate Answers(s: State, step: Step, c: Client) {
    && step.Ping? && step.healthy && step.op in s.ops
    && match s.ops[step.op].phase
       case Applying(_, _, _, _, _, _, pinging) => pinging == Some(c)
       case Pinging(_, _, client) => client == c
       case _ => false
  }

  /** Installed, or held by an operation that means to install it. */
  ghost predicate Trusted(s: State, c: Client) {
    || c in Installed(s)
    || exists o <- s.ops :: c in ToInstall(s.ops[o].phase)
  }

  function ToInstall(p: Phase): set<Client> {
    match p
    case Applying(_, _, _, _, _, created, _) => created.Values
    case Committing(_, _, c) => {c}
    case _ => {}
  }

  lemma ToInstallStep(s: State, step: Step, o: OpId, c: Client)
    requires Enabled(s, step) && o in Next(s, step).ops && c in ToInstall(Next(s, step).ops[o].phase)
    ensures Answers(s, step, c) || (o in s.ops && c in ToInstall(s.ops[o].phase))
  {
  }

  /** A commit installs what its operation held for it and what was installed before. */
  lemma CommitInstalls(s: State, o: OpId, c: Client)
    requires Safe(s) && Enabled(s, Commit(o)) && c in Installed(Next(s, Commit(o)))
    ensures c in Installed(s) || c in ToInstall(s.ops[o].phase)
  {
    var p, clients := s.ops[o].phase, Next(s, Commit(o)).shared.clients;
    var id :| id in clients && clients[id] == c;
    assert PhaseValid(s, s.ops[o]);
    if p.Applying? {
      assert p.clusters[..p.next] == p.clusters;
    }
  }

  lemma TrustIsEarned(s: State, step: Step, c: Client)
    requires Safe(s) && Enabled(s, step) && Trusted(Next(s, step), c)
    ensures Trusted(s, c) || Answers(s, step, c)
  {
    var t := Next(s, step);
    if c in Installed(t) {
      if step.Commit? {
        CommitInstalls(s, step.op, c);
      } else {
        var id :| id in t.shared.clients && t.shared.clients[id] == c;
        assert id in s.shared.clients && s.shared.clients[id] == c;
      }
    } else {
      var o :| o in t.ops && c in ToInstall(t.ops[o].phase);
      ToInstallStep(s, step, o, c);
    }
  }

  lemma {:induction false} TrustedClientsAnswered(states: seq<State>, steps: seq<Step>, i: nat, c: Client)
    requires IsRun(states, steps) && i < |states| && Trusted(states[i], c)
    ensures exists j :: 0 <= j < i && Answers(states[j], steps[j], c)
  {
    if i > 0 {
      RunIsSafe(states, steps, i - 1);
      TrustIsEarned(states[i - 1], steps[i - 1], c);
      if !Answers(states[i - 1], steps[i - 1], c) {
        TrustedClientsAnswered(states, steps, i - 1, c);
      }
    }
  }

  /** In every run, each installed client has answered a ping: at some step before, an operation's ping of it succeeded. */
  lemma InstalledClientsAnswered(states: seq<State>, steps: seq<Step>, i: nat, id: Id)
    requires IsRun(states, steps) && i < |states| && id in states[i].shared.clients
    ensures exists j :: 0 <= j < i && steps[j].Ping? && steps[j].healthy
                        && Answers(states[j], steps[j], states[i].shared.clients[id])
  {
    TrustedClientsAnswered(states, steps, i, states[i].shared.clients[id]);
  }

  /** The desired set does not list the connection. */
  ghost predicate Refuses(s: State, cfg: ClusterConfig)
    requires s.shared.Valid()
  {
    && s.shared.desiredSet
    && !(&& cfg.id in s.shared.Desired()
         && s.shared.Desired()[cfg.id].brokers == cfg.brokers && s.shared.Desired()[cfg.id].security == cfg.security)
  }

  /** What an operation met when it ended in this way. */
  ghost predicate EndsIn(s: State, step: Step, outcome: Outcome)
    requires s.shared.Valid()
  {
    match outcome
    case CreateFailed => step.Dial? && step.answer == None
    case PingFailed => step.Ping? && !step.healthy
    case Stale =>
      || (step.BeginUpsert? && Refuses(s, step.cfg))
      || (step.Commit? && !Current(s, step.op))
    case Succeeded =>
      step.SetDesired? || step.Retain? || step.CloseAll? || (step.Commit? && Current(s, step.op))
  }

  /** What an operation about to commit decided earlier still holds. */
  ghost predicate Current(s: State, o: OpId)
    requires s.shared.Valid()
  {
    && o in s.ops
    && match s.ops[o].phase
       case Applying(_, _, snapshot, _, _, _, _) => snapshot == s.shared.generation
       case Committing(cfg, snapshot, _) => snapshot == s.shared.generation && !Refuses(s, cfg)
       case _ => false
  }

  /** Every outcome has its cause: the step at which the operation ended. */
  lemma {:induction false} OutcomesHaveCauses(states: seq<State>, steps: seq<Step>, i: nat, o: OpId)
    requires IsRun(states, steps) && i < |states| && o in states[i].ops && states[i].ops[o].phase.Closing?
    ensures exists j :: 0 <= j < i && steps[j].op == o && states[j].shared.Valid()
                        && EndsIn(states[j], steps[j], states[i].ops[o].phase.outcome)
  {
    if i > 0 {
      var s := states[i - 1];
      if o in s.ops && s.ops[o].phase.Closing? && s.ops[o].phase.outcome == states[i].ops[o].phase.outcome {
        OutcomesHaveCauses(states, steps, i - 1, o);
      } else {
        assert steps[i - 1].op == o && EndsIn(s, steps[i - 1], states[i].ops[o].phase.outcome);
      }
    }
  }

  // ----- Progress

  /** An operation of the manager that is not over can take a step. */
  lemma OpMoves(m: State, o: OpId) returns (step: Step)
    requires Safe(m) && o in m.ops && !(m.ops[o].phase.Closing? && m.ops[o].phase.queue == {})
    ensures Enabled(m, step) && step.op == o
    ensures !step.BeginApply? && !step.SetDesired? && !step.Retain? && !step.CloseAll?
  {
    assert PhaseValid(m, m.ops[o]);
    match m.ops[o].phase
    case Applying(clusters, _, _, _, next, _, pinging) =>
      step := if pinging.Some? then Ping(o, true) else if next == |clusters| then Commit(o)
              else if Skipped(m.ops[o].phase) then Skip(o) else Dial(o, None);
    case Dialling(_, _) => step := Dial(o, None);
    case Pinging(_, _, _) => step := Ping(o, true);
    case Committing(_, _, _) => step := Commit(o);
    case Closing(queue, _) =>
      var c :| c in queue;
      step := CloseOne(o, c);
  }

  /** In every run nothing waits for anything else: an operation can always begin, and one under way can always go on. */
  lemma OperationsGoOn(states: seq<State>, steps: seq<Step>, i: nat, o: OpId, clusters: seq<ClusterConfig>)
    requires IsRun(states, steps) && i < |states| && DistinctIds(clusters)
    ensures o !in states[i].ops ==>
              && Enabled(states[i], BeginApply(o, clusters)) && Enabled(states[i], SetDesired(o, clusters))
              && (forall cfg :: Enabled(states[i], BeginUpsert(o, cfg)))
              && (forall active :: Enabled(states[i], Retain(o, active)))
              && Enabled(states[i], CloseAll(o))
    ensures o in states[i].ops && !(states[i].ops[o].phase.Closing? && states[i].ops[o].phase.queue == {}) ==>
              exists step :: Enabled(states[i], step) && step.op == o
  {
    RunIsSafe(states, steps, i);
    if o in states[i].ops && !(states[i].ops[o].phase.Closing? && states[i].ops[o].phase.queue == {}) {
      var step := OpMoves(states[i], o);
    }
  }

  // ----- Stale snapshots

  predicate HasSnapshot(p: Phase) {
    !p.Closing?
  }

  /** The steps that invalidate every snapshot taken before them. */
  lemma BumpingSteps(s: State, step: Step)
    requires Safe(s) && Enabled(s, step)
    ensures Next(s, step).shared.generation > s.shared.generation <==>
            || step.SetDesired? || step.CloseAll?
            || (step.Retain? && !(s.shared.clients.Keys <= step.active))
            || (step.Commit? && s.ops[step.op].phase.Applying? &&
                s.ops[step.op].phase.snapshot == s.shared.generation)
    ensures Next(s, step).shared.generation <= s.shared.generation ==>
              Next(s, step).shared.generation == s.shared.generation
  {
    if step.Retain? {
      NothingLeft(s.shared.clients.Keys, step.active);
    }
  }

  lemma NothingLeft(a: set<Id>, b: set<Id>)
    ensures a - b == {} <==> a <= b
  {
    if a - b == {} {
      forall x <- a ensures x in b {
        assert x !in a - b;
      }
    }
  }

  lemma SnapshotStep(s: State, step: Step, o: OpId)
    requires Enabled(s, step) && o in s.ops
    ensures var t := Next(s, step);
            && o in t.ops && s.shared.generation <= t.shared.generation
            && (HasSnapshot(t.ops[o].phase) ==>
                  HasSnapshot(s.ops[o].phase) && t.ops[o].phase.snapshot == s.ops[o].phase.snapshot)
  {
  }

  lemma {:induction false} SnapshotStays(states: seq<State>, steps: seq<Step>, i: nat, j: nat, o: OpId)
    requires IsRun(states, steps) && i <= j < |states| && o in states[i].ops
    ensures o in states[j].ops && states[i].shared.generation <= states[j].shared.generation
    ensures HasSnapshot(states[j].ops[o].phase) ==>
              && HasSnapshot(states[i].ops[o].phase)
              && states[j].ops[o].phase.snapshot == states[i].ops[o].phase.snapshot
  {
    if i < j {
      SnapshotStays(states, steps, i, j - 1, o);
      SnapshotStep(states[j - 1], steps[j - 1], o);
    }
  }

  /**
   * An Apply or Upsert whose snapshot predates a generation change never changes the maps: its commit reports the
   * configuration as stale and queues exactly the clients it created for closing.
   */
  lemma StaleCommitChangesNothing(states: seq<State>, steps: seq<Step>, i: nat, k: nat, j: nat, o: OpId)
    requires IsRun(states, steps) && i <= k < j < |steps|
    requires o in states[i].ops
    requires states[k + 1].shared.generation > states[k].shared.generation
    requires steps[j] == Commit(o)
    ensures states[j + 1].shared == states[j].shared
    ensures states[j + 1].ops[o].phase == Closing(states[j].ops[o].made, Stale)
  {
    SnapshotStays(states, steps, i, j, o);
    SnapshotStays(states, steps, i, k, o);
    SnapshotStays(states, steps, k + 1, j, o);
    SnapshotIsOld(states, steps, i, o);
    SnapshotIsOld(states, steps, j, o);
    StaleCommitStep(states[j], o);
  }

  lemma SnapshotIsOld(states: seq<State>, steps: seq<Step>, i: nat, o: OpId)
    requires IsRun(states, steps) && i < |states| && o in states[i].ops
    ensures PhaseValid(states[i], states[i].ops[o])
    ensures HasSnapshot(states[i].ops[o].phase) ==> states[i].ops[o].phase.snapshot <= states[i].shared.generation
  {
    RunIsSafe(states, steps, i);
  }

  lemma StaleCommitStep(s: State, o: OpId)
    requires Enabled(s, Commit(o)) && PhaseValid(s, s.ops[o])
    requires s.ops[o].phase.snapshot != s.shared.generation
    ensures Next(s, Commit(o)).shared == s.shared
    ensures Next(s, Commit(o)).ops[o].phase == Closing(s.ops[o].made, Stale)
  {
  }

  // ----- Agreement of clients, configs and desired

  /** main.go calls SetDesired before anything may call Apply. */
  ghost predicate IsOrderedRun(states: seq<State>, steps: seq<Step>) {
    && IsRun(states, steps)
    && forall i :: 0 <= i < |steps| ==> steps[i].BeginApply? ==> states[i].shared.desiredSet
  }

  ghost predicate Settled(s: State) {
    && s.shared.Valid()
    && Agreement(s.shared, s.dialled)
    && forall o <- s.ops :: PhaseSettled(s.shared, s.ops[o].phase)
  }

  ghost predicate PhaseSettled(shared: Shared, p: Phase)
    requires shared.Valid()
  {
    p.Applying? && p.snapshot == shared.generation ==> StillReusable(shared, p.want, p.reused)
  }

  ghost predicate SnapshotsArePast(s: State) {
    forall o <- s.ops :: HasSnapshot(s.ops[o].phase) ==> s.ops[o].phase.snapshot <= s.shared.generation
  }

  lemma SafeSnapshotsArePast(s: State)
    requires Safe(s)
    ensures SnapshotsArePast(s)
  {
    forall o <- s.ops ensures HasSnapshot(s.ops[o].phase) ==> s.ops[o].phase.snapshot <= s.shared.generation {
      assert PhaseValid(s, s.ops[o]);
    }
  }

  lemma OthersStaySettled(s: State, t: State, o: OpId)
    requires Settled(s) && SnapshotsArePast(s) && t.shared.Valid()
    requires o in t.ops && t.ops == s.ops[o := t.ops[o]]
    requires t.shared == s.shared || t.shared.generation > s.shared.generation
    ensures forall p <- t.ops :: p != o ==> PhaseSettled(t.shared, t.ops[p].phase)
  {
    forall p <- t.ops | p != o ensures PhaseSettled(t.shared, t.ops[p].phase) {
      assert t.ops[p] == s.ops[p] && PhaseSettled(s.shared, s.ops[p].phase);
    }
  }

  lemma UpsertCommitSettles(s: State, step: Step)
    requires Settled(s) && SnapshotsArePast(s) && Enabled(s, step) && step.Commit?
    requires s.ops[step.op].phase.Committing? && PhaseValid(s, s.ops[step.op])
    ensures Settled(Next(s, step))
  {
    var t, o, p := Next(s, step), step.op, s.ops[step.op].phase;
    if t.shared == s.shared {
      OthersStaySettled(s, t, o);
    } else {
      PutKeepsAgreement(s.shared, s.dialled, p.cfg, p.client);
      forall q <- t.ops | q != o ensures PhaseSettled(t.shared, t.ops[q].phase) {
        var other := s.ops[q].phase;
        assert PhaseSettled(s.shared, other);
        if other.Applying? && other.snapshot == t.shared.generation {
          PutKeepsReusable(s.shared, s.dialled, p.cfg, p.client, other.want, other.reused);
        }
      }
    }
  }

  lemma ApplyCommitSettles(s: State, step: Step)
    requires Settled(s) && SnapshotsArePast(s) && Enabled(s, step) && step.Commit?
    requires s.ops[step.op].phase.Applying? && PhaseValid(s, s.ops[step.op])
    ensures Settled(Next(s, step))
    ensures Next(s, step).shared != s.shared ==>
              Next(s, step).shared.Desired() == EnabledConfigs(s.ops[step.op].phase.clusters)
  {
    var t, o, p := Next(s, step), step.op, s.ops[step.op].phase;
    assert PhaseSettled(s.shared, p);
    assert p.clusters[..p.next] == p.clusters;
    if p.snapshot == s.shared.generation {
      InstallKeepsAgreement(s.shared, s.dialled, p.want, p.reused, p.created);
    }
    OthersStaySettled(s, t, o);
  }

  lemma SetDesiredSettles(s: State, step: Step)
    requires Settled(s) && SnapshotsArePast(s) && Enabled(s, step) && step.SetDesired?
    ensures Settled(Next(s, step))
    ensures Next(s, step).shared.Desired() == EnabledConfigs(step.clusters)
  {
    DesireKeepsAgreement(s.shared, s.dialled, EnabledConfigs(step.clusters));
    OthersStaySettled(s, Next(s, step), step.op);
  }

  lemma RetainSettles(s: State, step: Step)
    requires Settled(s) && SnapshotsArePast(s) && Enabled(s, step) && step.Retain?
    ensures Settled(Next(s, step))
  {
    var gone := s.shared.clients.Keys - step.active;
    RemovalKeepsAgreement(s.shared, s.dialled, gone);
    if gone == {} {
      RemovingNothing(s.shared);
    }
    OthersStaySettled(s, Next(s, step), step.op);
  }

  lemma CloseAllSettles(s: State, step: Step)
    requires Settled(s) && SnapshotsArePast(s) && Enabled(s, step) && step.CloseAll?
    ensures Settled(Next(s, step))
  {
    OthersStaySettled(s, Next(s, step), step.op);
  }

  lemma StepSettles(s: State, step: Step)
    requires Safe(s) && Settled(s) && Enabled(s, step)
    requires step.BeginApply? ==> s.shared.desiredSet
    ensures Settled(Next(s, step))
  {
    SafeSnapshotsArePast(s);
    SafeIsApart(s, step.op);
    match step
    case SetDesired(_, _) => SetDesiredSettles(s, step);
    case Retain(_, _) => RetainSettles(s, step);
    case CloseAll(_) => CloseAllSettles(s, step);
    case Commit(o) =>
      if s.ops[o].phase.Applying? { ApplyCommitSettles(s, step); } else { UpsertCommitSettles(s, step); }
    case _ => QuietStepSettles(s, step);
  }

  /** Steps outside the lock leave the maps alone and never forget what a client was dialled with. */
  lemma QuietStepSettles(s: State, step: Step)
    requires Settled(s) && SnapshotsArePast(s) && Enabled(s, step)
    requires !step.SetDesired? && !step.Retain? && !step.CloseAll? && !step.Commit?
    requires step.BeginApply? ==> s.shared.desiredSet
    ensures Settled(Next(s, step)) && Next(s, step).shared == s.shared
  {
    var t, o := Next(s, step), step.op;
    assert forall c <- s.dialled :: c in t.dialled && t.dialled[c] == s.dialled[c];
    OthersStaySettled(s, t, o);
    if o in s.ops {
      assert PhaseSettled(s.shared, s.ops[o].phase);
    }
  }

  lemma {:induction false} OrderedRunIsSettled(states: seq<State>, steps: seq<Step>, i: nat)
    requires IsOrderedRun(states, steps) && i < |states|
    ensures Safe(states[i]) && Settled(states[i])
  {
    RunIsSafe(states, steps, i);
    if i > 0 {
      OrderedRunIsSettled(states, steps, i - 1);
      StepSettles(states[i - 1], steps[i - 1]);
    }
  }

  /**
   * From the first SetDesired on, the clients and the active configurations have the same ids, all of them desired,
   * and every installed client was dialled with the connection of both its active and its desired configuration.
   */
  lemma InstalledClientsMatchDesired(states: seq<State>, steps: seq<Step>, i: nat)
    requires IsOrderedRun(states, steps) && i < |states| && states[i].shared.desiredSet
    ensures states[i].shared.Valid()
    ensures var s, shared := states[i], states[i].shared;
            && shared.clients.Keys == shared.Configs().Keys && shared.clients.Keys <= shared.Desired().Keys
            && forall id <- shared.clients ::
                 && shared.clients[id] in s.dialled
                 && s.dialled[shared.clients[id]].brokers == shared.Configs()[id].brokers == shared.Desired()[id].brokers
                 && s.dialled[shared.clients[id]].security == shared.Configs()[id].security == shared.Desired()[id].security
  {
    OrderedRunIsSettled(states, steps, i);
  }

  // ----- Why SetDesired has to come first

  /**
   * Whether an Apply's commit keeps the agreement, in any order of operations: it does if and only if every client it
   * reuses still has the wanted connection when it commits.
   */
  lemma ApplyAgreesExactly(s: State, o: OpId)
    requires Safe(s) && Enabled(s, Commit(o)) && s.ops[o].phase.Applying?
    requires s.ops[o].phase.snapshot == s.shared.generation && Agreement(s.shared, s.dialled)
    ensures var p, t := s.ops[o].phase, Next(s, Commit(o));
            && t.shared.Valid()
            && (Agreement(t.shared, t.dialled) <==>
                forall id <- p.reused :: id in s.shared.Configs() && SameConnection(s.shared.Configs()[id], p.want[id]))
  {
    var p := s.ops[o].phase;
    assert PhaseValid(s, s.ops[o]);
    assert p.clusters[..p.next] == p.clusters;
    InstallAgreesExactly(s.shared, s.dialled, p.want, p.reused, p.created);
  }

  lemma Extend(states: seq<State>, steps: seq<Step>, step: Step)
    returns (longer: seq<State>, done: seq<Step>, last: State)
    requires IsRun(states, steps) && Enabled(states[|steps|], step)
    ensures IsRun(longer, done) && done == steps + [step]
    ensures last == Next(states[|steps|], step) && longer[|done|] == last
  {
    last := Next(states[|steps|], step);
    longer, done := states + [last], steps + [step];
  }

  function Sample(broker: string): ClusterConfig {
    ClusterConfig("x", "x", [broker], None, false, Security("", "", "", "", false))
  }

  const DONE := Closing({}, Succeeded)

  /** An Upsert of connection "a" has installed client 1 before any desired set exists. */
  lemma EarlyUpsert() returns (states: seq<State>, steps: seq<Step>, s: State)
    ensures IsRun(states, steps) && s == states[|steps|]
    ensures s == State(Shared(map["x" := 1], [map["x" := Sample("a")], map[]], 0, 1, false, 0),
                       map[0 := Op(DONE, {1}, {})], map[1 := Sample("a")], [])
  {
    var a := Sample("a");
    states, steps, s := Extend([START], [], BeginUpsert(0, a));
    states, steps, s := Extend(states, steps, Dial(0, Some(1)));
    assert s.ops[0] == Op(Pinging(a, 0, 1), {1}, {});
    states, steps, s := Extend(states, steps, Ping(0, true));
    assert s.ops[0] == Op(Committing(a, 0, 1), {1}, {});
    states, steps, s := Extend(states, steps, Commit(0));
    assert s.shared.clients == map["x" := 1] && s.shared.tables == [map["x" := a], map[]];
    assert ClientsOf(INITIAL.clients, {"x"}) == {};
    assert s.ops == map[0 := Op(DONE, {1}, {})];
  }

  /** An Apply of connection "a" then decides to reuse client 1. */
  lemma EarlyReuse() returns (states: seq<State>, steps: seq<Step>, s: State)
    ensures IsRun(states, steps) && s == states[|steps|]
    ensures s.ops.Keys == {0, 1} && s.dialled.Keys == {1}
    ensures s.shared == Shared(map["x" := 1], [map["x" := Sample("a")], map[]], 0, 1, false, 0)
    ensures s.ops[1].phase == Applying([Sample("a")], map["x" := Sample("a")], 0, {"x"}, 0, map[], None)
  {
    var a := Sample("a");
    states, steps, s := EarlyUpsert();
    EnabledConfigsStep([a], 0);
    assert [a][..1] == [a] && EnabledConfigs([a]) == map["x" := a];
    assert ReusedIds(s.shared, map["x" := a]) == {"x"};
    states, steps, s := Extend(states, steps, BeginApply(1, [a]));
  }

  /** A second Upsert, of connection "b", has dialled client 2 and may commit. */
  lemma EarlySecondUpsert() returns (states: seq<State>, steps: seq<Step>, s: State)
    ensures IsRun(states, steps) && s == states[|steps|]
    ensures s.ops.Keys == {0, 1, 2} && 2 in s.dialled && s.dialled[2] == Sample("b")
    ensures s.shared == Shared(map["x" := 1], [map["x" := Sample("a")], map[]], 0, 1, false, 0)
    ensures s.ops[1].phase == Applying([Sample("a")], map["x" := Sample("a")], 0, {"x"}, 0, map[], None)
    ensures s.ops[2].phase == Committing(Sample("b"), 0, 2)
  {
    states, steps, s := EarlyReuse();
    states, steps, s := Extend(states, steps, BeginUpsert(2, Sample("b")));
    states, steps, s := Extend(states, steps, Dial(2, Some(2)));
    states, steps, s := Extend(states, steps, Ping(2, true));
  }

  /** Its commit replaces client 1 by client 2. */
  lemma EarlyReplacement() returns (states: seq<State>, steps: seq<Step>, s: State)
    ensures IsRun(states, steps) && s == states[|steps|]
    ensures 1 in s.ops && 2 in s.dialled && s.dialled[2] == Sample("b")
    ensures s.shared == Shared(map["x" := 2], [map["x" := Sample("b")], map[]], 0, 1, false, 0)
    ensures s.ops[1].phase == Applying([Sample("a")], map["x" := Sample("a")], 0, {"x"}, 0, map[], None)
  {
    var b := Sample("b");
    states, steps, s := EarlySecondUpsert();
    states, steps, s := Extend(states, steps, Commit(2));
    assert map["x" := Sample("a")]["x" := b] == map["x" := b];
    assert s.shared.clients == map["x" := 2] && s.shared.tables == [map["x" := b], map[]];
  }

  /**
   * Without that order the agreement fails: while no desired set exists, an Upsert of another connection may replace
   * the client an Apply has chosen to reuse, and the Apply then files it under the old configuration.
   */
  lemma EarlyApplyBreaksAgreement() returns (states: seq<State>, steps: seq<Step>)
    ensures IsRun(states, steps)
    ensures var s := states[|steps|];
            s.shared.Valid() && s.shared.desiredSet && !Agreement(s.shared, s.dialled)
  {
    var s;
    states, steps, s := EarlyReplacement();
    states, steps, s := Extend(states, steps, Skip(1));
    states, steps, s := Extend(states, steps, Commit(1));
    assert s.shared.clients["x"] == 2 && s.shared.Configs() == map["x" := Sample("a")];
    assert s.dialled[2] == Sample("b") && Sample("a").brokers[0] != Sample("b").brokers[0];
  }
}
