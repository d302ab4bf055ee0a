/** The main results about configuration transactions, over all histories of ServerMachine. */
module ServerTheorems {
  import opened Wrappers
  import opened Config
  import opened ClusterState
  import opened ClusterMachine
  import opened ClusterSafety
  import opened ClusterTheorems
  import opened ServerMachine

  // ----- The manager under background steps

  /** Background steps other than the transaction's own commit leave the desired connections as they are. */
  lemma BackgroundKeepsDesired(m: State, step: Step, cs: seq<ClusterConfig>)
    requires Safe(m) && Settled(m) && m.shared.desiredSet && InBackground(step) && Enabled(m, step)
    requires !(step.Commit? && m.ops[step.op].phase.Applying? && m.ops[step.op].phase.snapshot == m.shared.generation)
    ensures var t := Next(m, step);
            && t.shared.Valid() && t.shared.desiredSet && t.shared.generation == m.shared.generation
            && (t.shared.Matches(cs) <==> m.shared.Matches(cs))
  {
    StepSettles(m, step);
    if step.Commit? && m.ops[step.op].phase.Committing? {
      var p := m.ops[step.op].phase;
      if m.shared.Allows(p.cfg) {
        PutKeepsDesired(m.shared, p.cfg, p.client, cs);
      }
    } else if !step.Commit? {
      SafeSnapshotsArePast(m);
      QuietStepSettles(m, step);
    }
  }

  /** A commit of a current Apply makes exactly its clusters the desired ones. */
  lemma CommitSetsDesired(m: State, o: OpId)
    requires Safe(m) && Settled(m) && Enabled(m, Commit(o))
    requires m.ops[o].phase.Applying? && m.ops[o].phase.snapshot == m.shared.generation
    ensures var t := Next(m, Commit(o));
            && t.shared.Valid() && t.shared.Matches(m.ops[o].phase.clusters)
            && Succeeding(t, o)
  {
    SafeSnapshotsArePast(m);
    SafeIsApart(m, o);
    ApplyCommitSettles(m, Commit(o));
  }

  lemma DialledIsKept(m: State, step: Step)
    requires Safe(m) && Enabled(m, step)
    ensures forall c <- m.dialled :: c in Next(m, step).dialled && Next(m, step).dialled[c] == m.dialled[c]
  {
    SafeIsApart(m, step.op);
    StepIsLocal(m, step);
  }

  /** Where the transaction's Apply can go by one background step. */
  lemma ApplyProgress(m: State, step: Step, o: OpId, clusters: seq<ClusterConfig>)
    requires Safe(m) && Settled(m) && m.shared.desiredSet && InBackground(step) && Enabled(m, step)
    requires ApplyRuns(m, o, clusters)
    requires forall p <- m.ops :: m.ops[p].phase.Applying? && m.ops[p].phase.snapshot == m.shared.generation ==> p == o
    ensures var t := Next(m, step);
            && t.shared.Valid() && ApplyRuns(t, o, clusters)
            && (Succeeding(m, o) ==> Succeeding(t, o))
            && (step != Commit(o) ==> Succeeding(t, o) == Succeeding(m, o))
            && (step == Commit(o) ==> Succeeding(t, o) && t.shared.Matches(clusters))
  {
    if step == Commit(o) {
      CommitSetsDesired(m, o);
    } else {
      BackgroundKeepsDesired(m, step, clusters);
      SnapshotStep(m, step, o);
    }
  }

  lemma BackgroundKeepsOwnApply(s: Server, step: Step)
    requires Consistent(s) && CanHappen(s, Background(step))
    ensures OwnApply(After(s, Background(step)))
  {
    var t := Next(s.mgr, step);
    SafeSnapshotsArePast(s.mgr);
    forall p <- t.ops | t.ops[p].phase.Applying? && t.ops[p].phase.snapshot == t.shared.generation
      ensures (s.txn.Connecting? || s.txn.RollingBack?) && p == s.txn.op
    {
      if p in s.mgr.ops {
        SnapshotStep(s.mgr, step, p);
      }
    }
  }

  lemma BackgroundKeepsTxn(s: Server, step: Step)
    requires Consistent(s) && CanHappen(s, Background(step))
    ensures After(s, Background(step)).mgr.shared.Valid() && After(s, Background(step)).mgr.shared.desiredSet
    ensures TxnValid(After(s, Background(step)))
  {
    var m := s.mgr;
    StepSettles(m, step);
    if step.Commit? && m.ops[step.op].phase.Applying? && m.ops[step.op].phase.snapshot == m.shared.generation {
      ApplyProgress(m, step, step.op, if s.txn.Connecting? then s.txn.candidate else s.cfg);
    } else {
      BackgroundKeepsDesired(m, step, s.cfg);
      match s.txn
      case Connecting(candidate, _, o) =>
        BackgroundKeepsDesired(m, step, candidate);
        ApplyProgress(m, step, o, candidate);
      case RollingBack(o) => ApplyProgress(m, step, o, s.cfg);
      case Saving(candidate, _) => BackgroundKeepsDesired(m, step, candidate);
      case Publishing(candidate) => BackgroundKeepsDesired(m, step, candidate);
      case Reinstating(o) => SnapshotStep(m, step, o);
      case _ =>
    }
  }

  lemma BackgroundIsConsistent(s: Server, step: Step)
    requires Consistent(s) && CanHappen(s, Background(step))
    ensures Consistent(After(s, Background(step)))
  {
    StepIsSafe(s.mgr, step);
    StepSettles(s.mgr, step);
    BackgroundKeepsOwnApply(s, step);
    BackgroundKeepsTxn(s, step);
    DialledIsKept(s.mgr, step);
  }

  // ----- The transaction's own events

  lemma StartedApply(m: State, o: OpId, clusters: seq<ClusterConfig>)
    requires Safe(m) && Settled(m) && m.shared.desiredSet && Enabled(m, BeginApply(o, clusters))
    ensures var t := Next(m, BeginApply(o, clusters));
            && Safe(t) && Settled(t) && t.shared == m.shared && t.dialled == m.dialled
            && ApplyRuns(t, o, clusters) && !Succeeding(t, o)
  {
    StepIsSafe(m, BeginApply(o, clusters));
    StepSettles(m, BeginApply(o, clusters));
  }

  lemma StartKeepsOwnApply(s: Server, e: Event)
    requires s.mgr.shared.Valid() && OwnApply(s) && !s.txn.Connecting? && !s.txn.RollingBack?
    requires CanHappen(s, e) && (e.Decide? || e.Saved?)
    ensures OwnApply(After(s, e))
  {
  }

  lemma DecideIsConsistent(s: Server, e: Event)
    requires Consistent(s) && CanHappen(s, e) && e.Decide?
    ensures Consistent(After(s, e))
  {
    StartKeepsOwnApply(s, e);
    if !s.mgr.shared.Matches(s.txn.candidate) {
      StartedApply(s.mgr, e.op, s.txn.candidate);
    }
  }

  lemma SavedIsConsistent(s: Server, e: Event)
    requires Consistent(s) && CanHappen(s, e) && e.Saved?
    ensures Consistent(After(s, e))
  {
    StartKeepsOwnApply(s, e);
    if !e.ok && s.txn.changed {
      StartedApply(s.mgr, e.op, s.cfg);
    }
  }

  lemma ReinstatingIsConsistent(s: Server, e: Event)
    requires Consistent(s) && CanHappen(s, e) && e.RolledBack?
    ensures Consistent(After(s, e))
  {
    if !Worked(s.mgr, s.txn.op) {
      var step := SetDesired(e.op, s.cfg);
      var t := Next(s.mgr, step);
      StepIsSafe(s.mgr, step);
      StepSettles(s.mgr, step);
      SafeSnapshotsArePast(s.mgr);
      SetDesiredSettles(s.mgr, step);
      forall p <- t.ops | t.ops[p].phase.Applying? ensures t.ops[p].phase.snapshot < t.shared.generation {
        assert t.ops[p] == s.mgr.ops[p];
      }
    }
  }

  lemma QuietEventIsConsistent(s: Server, e: Event)
    requires Consistent(s) && CanHappen(s, e)
    requires e.Begin? || e.Connected? || e.Reinstated? || e.Publish? || e.Refresh?
    ensures Consistent(After(s, e))
  {
  }

  /** The pair a handler receives: the client installed under the id it looked up was dialled for that configuration. */
  lemma TakenPairMatches(s: Server, r: ReaderId)
    requires Consistent(s) && CanHappen(s, Take(r)) && s.readers[r].id in s.mgr.shared.clients
    ensures var c := s.mgr.shared.clients[s.readers[r].id];
            && c in s.mgr.dialled && c !in s.mgr.closed
            && SameConnection(s.mgr.dialled[c], s.readers[r].cfg)
  {
    var id, cfg, shared := s.readers[r].id, s.readers[r].cfg, s.mgr.shared;
    var c := shared.clients[id];
    assert c in Installed(s.mgr);
    assert c !in Closed(s.mgr);
    assert id in shared.Desired() && SameConnection(s.mgr.dialled[c], shared.Desired()[id]);
    FoundIsEnabled(s.cfg, id);
  }

  /** With distinct ids, the configuration found under an enabled id is the enabled one. */
  lemma FoundIsEnabled(cs: seq<ClusterConfig>, id: Id)
    requires DistinctIds(cs) && id in EnabledConfigs(cs)
    ensures FindCluster(cs, id) == Some(EnabledConfigs(cs)[id])
  {
    EnabledConfigsSound(cs);
    FindMember(cs, EnabledConfigs(cs)[id]);
  }

  lemma HandlerKeepsHanded(s: Server, e: Event)
    requires CanHappen(s, e) && (e.LookUp? || e.Take?) && HandedValid(s)
    requires e.Take? && s.readers[e.reader].id in s.mgr.shared.clients ==>
               var c := s.mgr.shared.clients[s.readers[e.reader].id];
               c in s.mgr.dialled && SameConnection(s.mgr.dialled[c], s.readers[e.reader].cfg)
    ensures HandedValid(After(s, e))
  {
  }

  lemma HandlerIsConsistent(s: Server, e: Event)
    requires Consistent(s) && CanHappen(s, e) && (e.LookUp? || e.Take?)
    ensures Consistent(After(s, e))
  {
    if e.Take? && s.readers[e.reader].id in s.mgr.shared.clients {
      TakenPairMatches(s, e.reader);
    }
    HandlerKeepsHanded(s, e);
  }

  lemma EventIsConsistent(s: Server, e: Event)
    requires Consistent(s) && CanHappen(s, e)
    ensures Consistent(After(s, e))
  {
    match e
    case Background(step) => BackgroundIsConsistent(s, step);
    case Decide(_) => DecideIsConsistent(s, e);
    case Saved(_, _) => SavedIsConsistent(s, e);
    case RolledBack(_) => ReinstatingIsConsistent(s, e);
    case LookUp(_, _) => HandlerIsConsistent(s, e);
    case Take(_) => HandlerIsConsistent(s, e);
    case _ => QuietEventIsConsistent(s, e);
  }

  lemma StartsConsistent(s: Server)
    requires Starts(s)
    ensures Consistent(s)
  {
    var states: seq<State>, steps: seq<Step>, o: OpId :|
      IsOrderedRun(states, steps + [SetDesired(o, s.cfg)]) && s.mgr == states[|steps| + 1];
    var all := steps + [SetDesired(o, s.cfg)];
    OrderedRunIsSettled(states, all, |steps|);
    OrderedRunIsSettled(states, all, |steps| + 1);
    var m := states[|steps|];
    assert all[|steps|] == SetDesired(o, s.cfg);
    SafeSnapshotsArePast(m);
    SetDesiredSettles(m, all[|steps|]);
    forall p <- s.mgr.ops | s.mgr.ops[p].phase.Applying?
      ensures s.mgr.ops[p].phase.snapshot < s.mgr.shared.generation
    {
      assert s.mgr.ops[p] == m.ops[p];
    }
  }

  lemma {:induction false} HistoryIsConsistent(states: seq<Server>, events: seq<Event>, i: nat)
    requires IsHistory(states, events) && i < |states|
    ensures Consistent(states[i])
  {
    if i == 0 {
      StartsConsistent(states[0]);
    } else {
      HistoryIsConsistent(states, events, i - 1);
      EventIsConsistent(states[i - 1], events[i - 1]);
    }
  }

  // ----- The results

  /**
   * Whenever no transaction runs, the manager's desired connections are those of the server's configuration and the
   * sampler watches exactly its enabled clusters. Every transaction ends so, whether it succeeded, failed to
   * connect, failed to save and rolled back, or failed to roll back as well.
   */
  lemma AgreementBetweenTransactions(states: seq<Server>, events: seq<Event>, i: nat)
    requires IsHistory(states, events) && i < |states| && states[i].txn.Idle?
    ensures states[i].mgr.shared.Valid()
    ensures var desired, enabled := states[i].mgr.shared.Desired(), EnabledConfigs(states[i].cfg);
            && states[i].mgr.shared.desiredSet && desired.Keys == enabled.Keys
            && forall id <- enabled ::
                 desired[id].brokers == enabled[id].brokers && desired[id].security == enabled[id].security
    ensures states[i].monitor == EnabledClusters(states[i].cfg)
  {
    HistoryIsConsistent(states, events, i);
  }

  /** The exported UpdateConfig: it waits for the transaction lock and publishes without asking the manager. */
  predicate MayPublish(s: Server) {
    s.txn.Idle? && forall r <- s.readers :: s.readers[r].Done?
  }

  function Published(s: Server, updated: seq<ClusterConfig>): Server {
    s.(cfg := updated, monitor := EnabledClusters(updated))
  }

  /** A configuration published in this way keeps the joint invariant exactly when the manager matches it already. */
  lemma UpdateConfigAgreesExactly(s: Server, updated: seq<ClusterConfig>)
    requires Consistent(s) && MayPublish(s) && DistinctIds(updated)
    ensures Consistent(Published(s, updated)) <==> s.mgr.shared.Matches(updated)
  {
    var t := Published(s, updated);
    assert t.mgr == s.mgr && t.txn == s.txn && t.readers == s.readers && t.handed == s.handed;
    assert OwnApply(t) && HandedValid(t);
  }

  /** Every client a handler ever received was dialled with the brokers and security of the configuration beside it. */
  lemma HandedPairsMatch(states: seq<Server>, events: seq<Event>, i: nat, k: nat)
    requires IsHistory(states, events) && i < |states| && k < |states[i].handed|
    ensures var (c, cfg) := states[i].handed[k];
            && c in states[i].mgr.dialled
            && states[i].mgr.dialled[c].brokers == cfg.brokers && states[i].mgr.dialled[c].security == cfg.security
  {
    HistoryIsConsistent(states, events, i);
  }

  /** A handler that asks for an id finds the configuration served under it, if there is one. */
  lemma LookUpFindsServed(states: seq<Server>, events: seq<Event>, i: nat, c: ClusterConfig)
    requires IsHistory(states, events) && i < |events| && events[i].LookUp?
    ensures states[i + 1].readers[events[i].reader] == Looking(events[i].id, c) <==>
            c in states[i].cfg && c.id == events[i].id
    ensures (forall d <- states[i].cfg :: d.id != events[i].id) ==> states[i + 1].readers[events[i].reader] == Done
  {
    HistoryIsConsistent(states, events, i);
    FoundIsMember(states[i].cfg, events[i].id);
    if c in states[i].cfg && c.id == events[i].id {
      FindMember(states[i].cfg, c);
    }
  }

  lemma {:induction false} FoundIsMember(cs: seq<ClusterConfig>, id: Id)
    ensures var found := FindCluster(cs, id); found.Some? ==> found.value in cs && found.value.id == id
  {
    if cs != [] && cs[0].id != id {
      FoundIsMember(cs[1..], id);
    }
  }

  /**
   * A handler is given the client installed under its id, if there is one, beside the configuration the server serves
   * under that id, and at that moment the client is open.
   */
  lemma HandedClientIsOpen(states: seq<Server>, events: seq<Event>, i: nat)
    requires IsHistory(states, events) && i < |events| && events[i].Take?
    ensures var s, reader := states[i], states[i].readers[events[i].reader];
            && reader.Looking? && reader.cfg in s.cfg && reader.cfg.id == reader.id
            && (reader.id !in s.mgr.shared.clients ==> states[i + 1].handed == s.handed)
            && (reader.id in s.mgr.shared.clients ==>
                  && states[i + 1].handed == s.handed + [(s.mgr.shared.clients[reader.id], reader.cfg)]
                  && s.mgr.shared.clients[reader.id] !in s.mgr.closed)
            && states[i + 1].readers == s.readers[events[i].reader := Done]
  {
    HistoryIsConsistent(states, events, i);
    var s, r := states[i], events[i].reader;
    FoundIsMember(s.cfg, s.readers[r].id);
    if s.readers[r].id in s.mgr.shared.clients {
      TakenPairMatches(s, r);
    }
  }

  // ----- Where a published configuration comes from

  /** The last transaction to begin before event `i` is that of event `j`, with this candidate. */
  ghost predicate BeganAt(events: seq<Event>, i: nat, j: nat, candidate: seq<ClusterConfig>)
    requires i <= |events|
  {
    && j < i && events[j].Begin? && events[j].candidate == candidate
    && forall m :: j < m < i ==> !events[m].Begin?
  }

  ghost predicate SavedSince(events: seq<Event>, i: nat, j: nat)
    requires i <= |events|
  {
    exists k :: j < k < i && events[k].Saved? && events[k].ok
  }

  ghost predicate ConnectedSince(events: seq<Event>, i: nat, j: nat)
    requires i <= |events|
  {
    exists k :: j < k < i && events[k].Connected?
  }

  ghost predicate HasOrigin(events: seq<Event>, i: nat, j: nat, txn: Txn)
    requires i <= |events|
  {
    match txn
    case Deciding(candidate, persist) =>
      BeganAt(events, i, j, candidate) && events[j].persist == persist && !ConnectedSince(events, i, j)
    case Connecting(candidate, persist, _) => BeganAt(events, i, j, candidate) && events[j].persist == persist
    case Saving(candidate, changed) => BeganAt(events, i, j, candidate) && (changed <==> ConnectedSince(events, i, j))
    case Publishing(candidate) => BeganAt(events, i, j, candidate) && (events[j].persist ==> SavedSince(events, i, j))
    case _ => true
  }

  /** How a transaction's candidate is handed on from one of its points to the next. */
  lemma CandidateIsKept(s: Server, e: Event)
    requires CanHappen(s, e)
    ensures var t := After(s, e).txn;
            && (e.Begin? ==> t == Deciding(e.candidate, e.persist))
            && (!e.Begin? && (t.Deciding? || t.Connecting?) ==>
                  (s.txn.Deciding? || s.txn.Connecting?) && s.txn.candidate == t.candidate && s.txn.persist == t.persist)
            && (!e.Begin? && t.Deciding? ==> s.txn.Deciding? && !e.Connected?)
            && (t.Saving? ==>
                  && (s.txn.Deciding? || s.txn.Connecting? || s.txn.Saving?) && s.txn.candidate == t.candidate
                  && (s.txn.Deciding? ==> !t.changed && !e.Connected?)
                  && (s.txn.Connecting? ==> t.changed && e.Connected?)
                  && (s.txn.Saving? ==> t.changed == s.txn.changed && !e.Connected?))
            && (t.Publishing? ==>
                  && (s.txn.Deciding? || s.txn.Connecting? || s.txn.Saving? || s.txn.Publishing?)
                  && s.txn.candidate == t.candidate
                  && (s.txn.Saving? ==> e.Saved? && e.ok)
                  && (s.txn.Deciding? || s.txn.Connecting? ==> !s.txn.persist))
  {
  }

  lemma OriginIsKept(events: seq<Event>, i: nat, j: nat, s: Server, t: Server)
    requires i < |events| && CanHappen(s, events[i]) && t == After(s, events[i])
    requires !events[i].Begin? && HasOrigin(events, i, j, s.txn)
    ensures HasOrigin(events, i + 1, j, t.txn)
  {
    CandidateIsKept(s, events[i]);
    assert t.txn.Saving? && s.txn.Deciding? ==> BeganAt(events, i + 1, j, t.txn.candidate);
    assert ConnectedSince(events, i + 1, j) <==> ConnectedSince(events, i, j) || (j < i && events[i].Connected?);
  }

  lemma {:induction false} TransactionsHaveOrigins(states: seq<Server>, events: seq<Event>, i: nat) returns (j: nat)
    requires IsHistory(states, events) && i < |states|
    ensures HasOrigin(events, i, j, states[i].txn)
  {
    j := 0;
    if i > 0 {
      if events[i - 1].Begin? {
        CandidateIsKept(states[i - 1], events[i - 1]);
        j := i - 1;
      } else {
        j := TransactionsHaveOrigins(states, events, i - 1);
        OriginIsKept(events, i - 1, j, states[i - 1], states[i]);
      }
    }
  }

  /**
   * The served configuration changes only by publishing, and then to the candidate of the transaction begun last; one
   * that comes from the Web is published only after the store has taken it.
   */
  lemma PublishedWasBegunAndSaved(states: seq<Server>, events: seq<Event>, i: nat)
    requires IsHistory(states, events) && i < |events|
    ensures !events[i].Publish? ==> states[i + 1].cfg == states[i].cfg
    ensures events[i].Publish? ==>
              exists j: nat :: BeganAt(events, i, j, states[i + 1].cfg) && (events[j].persist ==> SavedSince(events, i, j))
  {
    var j := TransactionsHaveOrigins(states, events, i);
  }

  /**
   * When a save fails, the manager is left alone if the transaction has not reconnected it, and is told to reconnect to
   * the served clusters if it has.
   */
  lemma RollbackUndoesReconnect(states: seq<Server>, events: seq<Event>, i: nat) returns (j: nat)
    requires IsHistory(states, events) && i < |events| && events[i].Saved? && !events[i].ok
    ensures BeganAt(events, i, j, states[i].txn.candidate)
    ensures if ConnectedSince(events, i, j) then
              && states[i + 1].txn == RollingBack(events[i].op)
              && states[i + 1].mgr == Next(states[i].mgr, BeginApply(events[i].op, states[i].cfg))
            else states[i + 1].txn == Idle && states[i + 1].mgr == states[i].mgr
  {
    j := TransactionsHaveOrigins(states, events, i);
  }

  // ----- Progress

  lemma {:induction false} FreshId(ids: set<nat>) returns (o: nat)
    ensures o !in ids && forall i <- ids :: i < o
    decreases |ids|
  {
    o := 0;
    if ids != {} {
      var i :| i in ids;
      var rest := FreshId(ids - {i});
      o := if i < rest then rest else i + 1;
      assert forall k <- ids :: k == i || k in ids - {i};
    }
  }

  /**
   * A running transaction never gets stuck: in every reachable state it can go on itself, or the operation of the
   * manager it waits for can.
   */
  lemma TransactionsGoOn(states: seq<Server>, events: seq<Event>, i: nat) returns (e: Event)
    requires IsHistory(states, events) && i < |states| && states[i].txn != Idle
    ensures CanHappen(states[i], e) && !e.Begin? && !e.LookUp? && !e.Take?
    ensures e.Background? ==>
              (states[i].txn.Connecting? || states[i].txn.RollingBack? || states[i].txn.Reinstating?) &&
              e.step.op == states[i].txn.op
  {
    HistoryIsConsistent(states, events, i);
    var s := states[i];
    var unused := FreshId(s.mgr.ops.Keys);
    match s.txn
    case Deciding(_, _) => e := Decide(unused);
    case Connecting(_, _, o) => e := GoOn(s.mgr, o, Connected);
    case Saving(_, _) => e := Saved(true, unused);
    case RollingBack(o) => e := GoOn(s.mgr, o, RolledBack(unused));
    case Reinstating(o) => e := GoOn(s.mgr, o, Reinstated);
    case Publishing(_) => e := Publish;
    case Refreshing => e := Refresh;
  }

  /** A step of the operation, or the given event once it has returned. */
  lemma GoOn(m: State, o: OpId, next: Event) returns (e: Event)
    requires Safe(m) && o in m.ops
    ensures if Returned(m, o) then e == next
            else e.Background? && e.step.op == o && InBackground(e.step) && Enabled(m, e.step)
  {
    if Returned(m, o) {
      e := next;
    } else {
      var step := OpMoves(m, o);
      e := Background(step);
    }
  }

  /** How far a transaction is from its end. */
  function Stage(txn: Txn): nat {
    match txn
    case Deciding(_, _) => 7
    case Connecting(_, _, _) => 6
    case Saving(_, _) => 5
    case RollingBack(_) => 4
    case Reinstating(_) => 3
    case Publishing(_) => 2
    case Refreshing => 1
    case Idle => 0
  }

  /** Each of its own events brings a transaction closer to its end, and no other event but a new beginning touches it. */
  lemma TransactionsMoveOn(states: seq<Server>, events: seq<Event>, i: nat)
    requires IsHistory(states, events) && i < |events|
    ensures match events[i]
            case Begin(candidate, persist) => states[i].txn == Idle && states[i + 1].txn == Deciding(candidate, persist)
            case Background(_) => states[i + 1].txn == states[i].txn
            case LookUp(_, _) => states[i + 1].txn == states[i].txn
            case Take(_) => states[i + 1].txn == states[i].txn
            case _ => Stage(states[i + 1].txn) < Stage(states[i].txn)
  {
  }

  // ----- The manager below

  /** The step of the manager that an event is. */
  ghost function StepsOf(s: Server, e: Event): seq<Step> {
    if !CanHappen(s, e) then []
    else
      match e
      case Background(step) => [step]
      case Decide(o) => if s.mgr.shared.Matches(s.txn.candidate) then [] else [BeginApply(o, s.txn.candidate)]
      case Saved(ok, o) => if !ok && s.txn.changed then [BeginApply(o, s.cfg)] else []
      case RolledBack(o) => if Worked(s.mgr, s.txn.op) then [] else [SetDesired(o, s.cfg)]
      case _ => []
  }

  ghost function AllSteps(states: seq<Server>, events: seq<Event>, n: nat): seq<Step>
    requires n <= |events| <= |states|
  {
    if n == 0 then [] else AllSteps(states, events, n - 1) + StepsOf(states[n - 1], events[n - 1])
  }

  ghost predicate RunsTo(run: seq<State>, steps: seq<Step>, m: State) {
    IsOrderedRun(run, steps) && run[|steps|] == m
  }

  lemma EventIsSteps(s: Server, e: Event)
    requires Consistent(s) && CanHappen(s, e)
    ensures var steps := StepsOf(s, e);
            && |steps| <= 1
            && (steps == [] ==> After(s, e).mgr == s.mgr)
            && (|steps| == 1 ==> Enabled(s.mgr, steps[0]) && After(s, e).mgr == Next(s.mgr, steps[0]))
  {
  }

  lemma OneStepFurther(run: seq<State>, steps: seq<Step>, m: State, step: Step)
    requires RunsTo(run, steps, m) && Enabled(m, step) && m.shared.desiredSet
    ensures RunsTo(run + [Next(m, step)], steps + [step], Next(m, step))
  {
  }

  lemma OneEventFurther(run: seq<State>, steps: seq<Step>, s: Server, e: Event) returns (longer: seq<State>)
    requires RunsTo(run, steps, s.mgr) && Consistent(s) && CanHappen(s, e)
    ensures RunsTo(longer, steps + StepsOf(s, e), After(s, e).mgr)
  {
    EventIsSteps(s, e);
    var more := StepsOf(s, e);
    longer := run;
    if more == [] {
      assert steps + more == steps;
    } else {
      OneStepFurther(run, steps, s.mgr, more[0]);
      longer := run + [Next(s.mgr, more[0])];
      assert more == [more[0]];
    }
  }

  lemma StartIsReached(s: Server) returns (run: seq<State>, steps: seq<Step>)
    requires Starts(s)
    ensures RunsTo(run, steps, s.mgr)
  {
    var first: seq<State>, before: seq<Step>, o: OpId :|
      IsOrderedRun(first, before + [SetDesired(o, s.cfg)]) && s.mgr == first[|before| + 1];
    run, steps := first, before + [SetDesired(o, s.cfg)];
  }

  lemma HistoryGoesOn(states: seq<Server>, events: seq<Event>, i: nat)
    requires IsHistory(states, events) && i < |events|
    ensures Consistent(states[i]) && CanHappen(states[i], events[i]) && states[i + 1] == After(states[i], events[i])
    ensures AllSteps(states, events, i + 1) == AllSteps(states, events, i) + StepsOf(states[i], events[i])
  {
    HistoryIsConsistent(states, events, i);
  }

  lemma RunGoesOn(states: seq<Server>, events: seq<Event>, i: nat, run: seq<State>, before: seq<Step>)
    returns (longer: seq<State>)
    requires IsHistory(states, events) && i < |events|
    requires RunsTo(run, before + AllSteps(states, events, i), states[i].mgr)
    ensures RunsTo(longer, before + AllSteps(states, events, i + 1), states[i + 1].mgr)
  {
    HistoryGoesOn(states, events, i);
    var steps, more := AllSteps(states, events, i), StepsOf(states[i], events[i]);
    longer := OneEventFurther(run, before + steps, states[i], events[i]);
    assert before + steps + more == before + (steps + more);
  }

  /**
   * What the manager does under a server is a run of the manager that began before with SetDesired: the background steps
   * of the history and those its transactions take, in order. So whatever holds in all such runs holds in the server.
   */
  lemma {:induction false} HistoriesRunTheManager(states: seq<Server>, events: seq<Event>, i: nat)
    returns (run: seq<State>, before: seq<Step>)
    requires IsHistory(states, events) && i < |states|
    ensures RunsTo(run, before + AllSteps(states, events, i), states[i].mgr)
  {
    if i == 0 {
      run, before := StartIsReached(states[0]);
      assert before + [] == before;
    } else {
      run, before := HistoriesRunTheManager(states, events, i - 1);
      run := RunGoesOn(states, events, i - 1, run, before);
    }
  }

  lemma RunAnswers(run: seq<State>, steps: seq<Step>, m: State, id: Id)
    requires RunsTo(run, steps, m) && id in m.shared.clients
    ensures exists j :: 0 <= j < |steps| && steps[j].Ping? && steps[j].healthy
                        && Answers(run[j], steps[j], m.shared.clients[id])
  {
    InstalledClientsAnswered(run, steps, |steps|, id);
  }

  /** For example: every client a handler can be given has answered a ping before. */
  lemma ServedClientsAnswered(states: seq<Server>, events: seq<Event>, i: nat, id: Id)
    returns (run: seq<State>, steps: seq<Step>)
    requires IsHistory(states, events) && i < |states| && id in states[i].mgr.shared.clients
    ensures RunsTo(run, steps, states[i].mgr)
    ensures exists j :: 0 <= j < |steps| && steps[j].Ping? && steps[j].healthy
                        && Answers(run[j], steps[j], states[i].mgr.shared.clients[id])
  {
    var before;
    run, before := HistoriesRunTheManager(states, events, i);
    steps := before + AllSteps(states, events, i);
    RunAnswers(run, steps, states[i].mgr, id);
  }

  /** A transaction goes on from an operation of the manager only when that has closed all it had to close. */
  lemma TransactionsWait(states: seq<Server>, events: seq<Event>, i: nat)
    requires IsHistory(states, events) && i < |events|
    requires events[i].Connected? || events[i].RolledBack? || events[i].Reinstated?
    ensures var s := states[i];
            && s.txn.op in s.mgr.ops && s.mgr.ops[s.txn.op].phase.Closing? && s.mgr.ops[s.txn.op].phase.queue == {}
            && s.mgr.ops[s.txn.op].closedBy <= Closed(s.mgr)
  {
    HistoryIsConsistent(states, events, i);
    assert PhaseValid(states[i].mgr, states[i].mgr.ops[states[i].txn.op]);
  }

  /** Handlers are admitted whenever no transaction runs, and one that has looked its id up can always take its client. */
  lemma HandlersAreAdmitted(states: seq<Server>, events: seq<Event>, i: nat, id: Id) returns (r: ReaderId)
    requires IsHistory(states, events) && i < |states|
    ensures states[i].txn == Idle ==> CanHappen(states[i], LookUp(r, id))
    ensures forall q <- states[i].readers :: states[i].readers[q].Looking? ==> CanHappen(states[i], Take(q))
  {
    HistoryIsConsistent(states, events, i);
    r := FreshId(states[i].readers.Keys);
  }

  /** A transaction's Apply is never refused as stale: only transactions change the generation. */
  lemma TransactionIsNeverStale(states: seq<Server>, events: seq<Event>, i: nat)
    requires IsHistory(states, events) && i < |states|
    requires states[i].txn.Connecting? || states[i].txn.RollingBack?
    requires states[i].txn.op in states[i].mgr.ops && states[i].mgr.ops[states[i].txn.op].phase.Closing?
    ensures states[i].mgr.ops[states[i].txn.op].phase.outcome != Stale
  {
    HistoryIsConsistent(states, events, i);
  }
}
