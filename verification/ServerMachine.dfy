/**
 * Configuration transactions above the cluster manager, interleaved with background Upserts and request handlers.
 * A transaction holds the server's transaction lock exclusively; a handler holds it shared while it looks up its
 * client. Manager steps are the steps of ClusterMachine.
 */
module ServerMachine {
  import opened Wrappers
  import opened Config
  import opened ClusterState
  import opened ClusterMachine
  import opened ClusterSafety
  import opened ClusterTheorems

  type ReaderId = nat

  datatype Reader = Looking(id: Id, cfg: ClusterConfig) | Done

  /** `persist` tells a Web change, which is saved to the store, from a reload of the file. */
  datatype Txn =
    | Idle
    | Deciding(candidate: seq<ClusterConfig>, persist: bool)
    | Connecting(candidate: seq<ClusterConfig>, persist: bool, op: OpId)
    | Saving(candidate: seq<ClusterConfig>, changed: bool)
    | RollingBack(op: OpId)
    | Reinstating(op: OpId)
    | Publishing(candidate: seq<ClusterConfig>)
    | Refreshing

  /** `handed` records every (client, configuration) pair given to a handler. */
  datatype Server = Server(
    mgr: State, cfg: seq<ClusterConfig>, monitor: seq<ClusterConfig>, txn: Txn,
    readers: map<ReaderId, Reader>, handed: seq<(Client, ClusterConfig)>)

  datatype Event =
    | Begin(candidate: seq<ClusterConfig>, persist: bool)
    | Decide(op: OpId)
    | Background(step: Step)
    | Connected
    | Saved(ok: bool, op: OpId)
    | RolledBack(op: OpId)
    | Reinstated
    | Publish
    | Refresh
    | LookUp(reader: ReaderId, id: Id)
    | Take(reader: ReaderId)

  /** Steps the manager may take on its own while the server runs: Upserts, dials, pings, commits and closes. */
  predicate InBackground(step: Step) {
    !step.BeginApply? && !step.SetDesired? && !step.Retain? && !step.CloseAll?
  }

  predicate Returned(s: State, o: OpId) {
    o in s.ops && s.ops[o].phase.Closing? && s.ops[o].phase.queue == {}
  }

  predicate Worked(s: State, o: OpId)
    requires Returned(s, o)
  {
    s.ops[o].phase.outcome == Succeeded
  }

  ghost predicate CanHappen(s: Server, e: Event) {
    && s.mgr.shared.Valid()
    && match e
       case Begin(candidate, _) =>
         s.txn.Idle? && DistinctIds(candidate) && forall r <- s.readers :: s.readers[r].Done?
       case Decide(o) => s.txn.Deciding? && Enabled(s.mgr, BeginApply(o, s.txn.candidate))
       case Background(step) => InBackground(step) && Enabled(s.mgr, step)
       case Connected => s.txn.Connecting? && Returned(s.mgr, s.txn.op)
       case Saved(_, o) => s.txn.Saving? && Enabled(s.mgr, BeginApply(o, s.cfg))
       case RolledBack(o) =>
         s.txn.RollingBack? && Returned(s.mgr, s.txn.op) && Enabled(s.mgr, SetDesired(o, s.cfg))
       case Reinstated => s.txn.Reinstating? && Returned(s.mgr, s.txn.op)
       case Publish => s.txn.Publishing?
       case Refresh => s.txn.Refreshing?
       case LookUp(r, id) => s.txn.Idle? && r !in s.readers
       case Take(r) => r in s.readers && s.readers[r].Looking?
  }

  function Accepted(candidate: seq<ClusterConfig>, persist: bool, changed: bool): Txn {
    if persist then Saving(candidate, changed) else Publishing(candidate)
  }

  ghost function After(s: Server, e: Event): Server
    requires CanHappen(s, e)
  {
    match e
    case Begin(candidate, persist) => s.(txn := Deciding(candidate, persist))
    case Decide(o) =>
      var candidate, persist := s.txn.candidate, s.txn.persist;
      if s.mgr.shared.Matches(candidate) then s.(txn := Accepted(candidate, persist, false))
      else s.(mgr := Next(s.mgr, BeginApply(o, candidate)), txn := Connecting(candidate, persist, o))
    case Background(step) => s.(mgr := Next(s.mgr, step))
    case Connected =>
      s.(txn := if Worked(s.mgr, s.txn.op) then Accepted(s.txn.candidate, s.txn.persist, true) else Idle)
    case Saved(ok, o) =>
      if ok then s.(txn := Publishing(s.txn.candidate))
      else if s.txn.changed then s.(mgr := Next(s.mgr, BeginApply(o, s.cfg)), txn := RollingBack(o))
      else s.(txn := Idle)
    case RolledBack(o) =>
      if Worked(s.mgr, s.txn.op) then s.(txn := Idle)
      else s.(mgr := Next(s.mgr, SetDesired(o, s.cfg)), txn := Reinstating(o))
    case Reinstated => s.(txn := Idle)
    case Publish => s.(cfg := s.txn.candidate, txn := Refreshing)
    case Refresh => s.(monitor := EnabledClusters(s.cfg), txn := Idle)
    case LookUp(r, id) =>
      var found := FindCluster(s.cfg, id);
      s.(readers := s.readers[r := if found.Some? then Looking(id, found.value) else Done])
    case Take(r) =>
      var reader := s.readers[r];
      s.(readers := s.readers[r := Done],
         handed := if reader.id in s.mgr.shared.clients
                   then s.handed + [(s.mgr.shared.clients[reader.id], reader.cfg)] else s.handed)
  }

  /** NewServer: the manager has just been told the configured clusters, and the sampler starts with them. */
  ghost predicate Starts(s: Server) {
    && DistinctIds(s.cfg)
    && s.monitor == EnabledClusters(s.cfg)
    && s.txn == Idle && s.readers == map[] && s.handed == []
    && exists states: seq<State>, steps: seq<Step>, o: OpId ::
         IsOrderedRun(states, steps + [SetDesired(o, s.cfg)]) && s.mgr == states[|steps| + 1]
  }

  ghost predicate IsHistory(states: seq<Server>, events: seq<Event>) {
    && |states| == |events| + 1
    && Starts(states[0])
    && forall i :: 0 <= i < |events| ==> CanHappen(states[i], events[i]) && states[i + 1] == After(states[i], events[i])
  }

  // ----- The invariant

  /** Only the running transaction has an Apply that could still commit. */
  ghost predicate OwnApply(s: Server) {
    forall o <- s.mgr.ops :: s.mgr.ops[o].phase.Applying? && s.mgr.ops[o].phase.snapshot == s.mgr.shared.generation
      ==> (s.txn.Connecting? || s.txn.RollingBack?) && o == s.txn.op
  }

  /** The transaction's Apply either still holds a current snapshot or has ended. */
  ghost predicate ApplyRuns(m: State, o: OpId, clusters: seq<ClusterConfig>) {
    && o in m.ops
    && var p := m.ops[o].phase;
       || (p.Applying? && p.snapshot == m.shared.generation && p.clusters == clusters)
       || (p.Closing? && p.outcome != Stale)
  }

  predicate Succeeding(m: State, o: OpId)
    requires o in m.ops
  {
    m.ops[o].phase.Closing? && m.ops[o].phase.outcome == Succeeded
  }

  /** At each point of a transaction, which configuration the manager's desired connections are those of. */
  ghost predicate TxnValid(s: Server)
    requires s.mgr.shared.Valid()
  {
    var desired := s.mgr.shared;
    && DistinctIds(s.cfg)
    && (!s.txn.Refreshing? ==> s.monitor == EnabledClusters(s.cfg))
    && match s.txn
       case Idle => desired.Matches(s.cfg)
       case Deciding(candidate, _) => desired.Matches(s.cfg) && DistinctIds(candidate)
       case Connecting(candidate, _, o) =>
         && DistinctIds(candidate) && ApplyRuns(s.mgr, o, candidate)
         && desired.Matches(if Succeeding(s.mgr, o) then candidate else s.cfg)
       case Saving(candidate, changed) =>
         DistinctIds(candidate) && desired.Matches(candidate) && (!changed ==> desired.Matches(s.cfg))
       case RollingBack(o) =>
         ApplyRuns(s.mgr, o, s.cfg) && (Succeeding(s.mgr, o) ==> desired.Matches(s.cfg))
       case Reinstating(o) => desired.Matches(s.cfg) && o in s.mgr.ops && s.mgr.ops[o].phase.Closing?
       case Publishing(candidate) => DistinctIds(candidate) && desired.Matches(candidate)
       case Refreshing => desired.Matches(s.cfg)
  }

  ghost predicate HandedValid(s: Server) {
    && (forall r <- s.readers :: s.readers[r].Looking? ==>
          s.txn == Idle && FindCluster(s.cfg, s.readers[r].id) == Some(s.readers[r].cfg))
    && (forall i :: 0 <= i < |s.handed| ==>
          s.handed[i].0 in s.mgr.dialled && SameConnection(s.mgr.dialled[s.handed[i].0], s.handed[i].1))
  }

  ghost predicate Consistent(s: Server) {
    && Safe(s.mgr) && Settled(s.mgr) && s.mgr.shared.desiredSet
    && OwnApply(s) && TxnValid(s) && HandedValid(s)
  }
}
