/**
 * Any number of Apply, Upsert, SetDesired, Retain and Close operations in flight on one manager.
 * Every locked section, every dial, every ping and every single client close is a step of its own,
 * so all interleavings the Go scheduler can produce are runs of this machine.
 */
module ClusterMachine {
  import opened Wrappers
  import opened Config
  import opened ClusterState

  type OpId = nat

  datatype Outcome = Succeeded | CreateFailed | PingFailed | Stale

  /** Where an operation stands between two of its steps. */
  datatype Phase =
    | Applying(clusters: seq<ClusterConfig>, want: Table, snapshot: nat, reused: set<Id>, next: nat,
               created: map<Id, Client>, pinging: Option<Client>)
    | Dialling(cfg: ClusterConfig, snapshot: nat)
    | Pinging(cfg: ClusterConfig, snapshot: nat, client: Client)
    | Committing(cfg: ClusterConfig, snapshot: nat, client: Client)
    | Closing(queue: set<Client>, outcome: Outcome)

  /** `made` and `closedBy` record which clients the operation created and which it closed. */
  datatype Op = Op(phase: Phase, made: set<Client>, closedBy: set<Client>)

  /** `dialled` records the configuration each client was created with, `closed` every Close call in order. */
  datatype State = State(
    shared: Shared, ops: map<OpId, Op>, dialled: map<Client, ClusterConfig>, closed: seq<Client>)

  datatype Step =
    | BeginApply(op: OpId, clusters: seq<ClusterConfig>)
    | BeginUpsert(op: OpId, cfg: ClusterConfig)
    | SetDesired(op: OpId, clusters: seq<ClusterConfig>)
    | Retain(op: OpId, active: set<Id>)
    | CloseAll(op: OpId)
    | Skip(op: OpId)
    | Dial(op: OpId, answer: Option<Client>)
    | Ping(op: OpId, healthy: bool)
    | Commit(op: OpId)
    | CloseOne(op: OpId, client: Client)

  const START := State(INITIAL, map[], map[], [])

  function Pending(o: Option<Client>): set<Client> {
    if o.Some? then {o.value} else {}
  }

  /** The clients an operation holds: nobody else may use or close them. */
  function Held(op: Op): set<Client> {
    match op.phase
    case Applying(_, _, _, _, _, created, pinging) => created.Values + Pending(pinging)
    case Dialling(_, _) => {}
    case Pinging(_, _, c) => {c}
    case Committing(_, _, c) => {c}
    case Closing(queue, _) => queue
  }

  predicate Skipped(p: Phase)
    requires p.Applying? && p.next < |p.clusters|
  {
    !IsEnabled(p.clusters[p.next]) || p.clusters[p.next].id in p.reused
  }

  ghost predicate Enabled(s: State, step: Step) {
    && s.shared.Valid()
    && (step.BeginApply? || step.BeginUpsert? || step.SetDesired? || step.Retain? || step.CloseAll?
        <==> step.op !in s.ops)
    && match step
       case BeginApply(_, clusters) => DistinctIds(clusters)
       case SetDesired(_, clusters) => DistinctIds(clusters)
       case BeginUpsert(_, _) => true
       case Retain(_, _) => true
       case CloseAll(_) => true
       case Skip(o) =>
         var p := s.ops[o].phase;
         p.Applying? && p.pinging == None && p.next < |p.clusters| && Skipped(p)
       case Dial(o, answer) =>
         && AtDial(s.ops[o].phase)
         && (answer.Some? ==> answer.value != NIL && answer.value !in s.dialled)
       case Ping(o, _) => AtPing(s.ops[o].phase)
       case Commit(o) => AtCommit(s.ops[o].phase)
       case CloseOne(o, c) => s.ops[o].phase.Closing? && c in s.ops[o].phase.queue
  }

  function Finish(s: State, o: OpId, queue: set<Client>, outcome: Outcome): State {
    var record := if o in s.ops then s.ops[o] else Op(Closing({}, outcome), {}, {});
    s.(ops := s.ops[o := record.(phase := Closing(queue, outcome))])
  }

  predicate AtDial(p: Phase) {
    || p.Dialling?
    || (p.Applying? && p.pinging == None && p.next < |p.clusters| && !Skipped(p))
  }

  predicate AtPing(p: Phase) {
    p.Pinging? || (p.Applying? && p.pinging.Some? && p.next < |p.clusters|)
  }

  predicate AtCommit(p: Phase) {
    p.Committing? || (p.Applying? && p.pinging == None && p.next == |p.clusters|)
  }

  function AfterDial(s: State, o: OpId, answer: Option<Client>): State
    requires o in s.ops && AtDial(s.ops[o].phase)
  {
    var op := s.ops[o];
    if answer.None? then Finish(s, o, Held(op), CreateFailed)
    else
      var c := answer.value;
      match op.phase
      case Dialling(cfg, snapshot) =>
        s.(ops := s.ops[o := Op(Pinging(cfg, snapshot, c), op.made + {c}, op.closedBy)],
           dialled := s.dialled[c := cfg])
      case Applying(clusters, _, _, _, next, _, _) =>
        s.(ops := s.ops[o := Op(op.phase.(pinging := answer), op.made + {c}, op.closedBy)],
           dialled := s.dialled[c := clusters[next]])
  }

  function AfterPing(s: State, o: OpId, healthy: bool): State
    requires o in s.ops && AtPing(s.ops[o].phase)
  {
    var op := s.ops[o];
    if !healthy then Finish(s, o, Held(op), PingFailed)
    else
      match op.phase
      case Pinging(cfg, snapshot, c) => s.(ops := s.ops[o := op.(phase := Committing(cfg, snapshot, c))])
      case Applying(clusters, want, snapshot, reused, next, created, Some(c)) =>
        s.(ops := s.ops[o := op.(phase :=
          Applying(clusters, want, snapshot, reused, next + 1, created[clusters[next].id := c], None))])
  }

  function AfterCommit(s: State, o: OpId): State
    requires s.shared.Valid() && o in s.ops && AtCommit(s.ops[o].phase)
  {
    match s.ops[o].phase
    case Committing(cfg, snapshot, c) =>
      if snapshot != s.shared.generation || !s.shared.Allows(cfg) then Finish(s, o, {c}, Stale)
      else
        Finish(s.(shared := s.shared.Put(cfg, c)), o, ClientsOf(s.shared.clients, {cfg.id}), Succeeded)
    case Applying(_, want, snapshot, reused, _, created, _) =>
      if snapshot != s.shared.generation then Finish(s, o, created.Values, Stale)
      else
        var dropped := ClientsOf(s.shared.clients, s.shared.clients.Keys - reused);
        Finish(s.(shared := s.shared.Install(want, created)), o, dropped, Succeeded)
  }

  ghost function Next(s: State, step: Step): State
    requires Enabled(s, step)
  {
    match step
    case BeginApply(o, clusters) =>
      var want := EnabledConfigs(clusters);
      s.(ops := s.ops[o := Op(
        Applying(clusters, want, s.shared.generation, ReusedIds(s.shared, want), 0, map[], None), {}, {})])
    case BeginUpsert(o, cfg) =>
      s.(ops := s.ops[o := Op(
        if s.shared.Allows(cfg) then Dialling(cfg, s.shared.generation) else Closing({}, Stale), {}, {})])
    case SetDesired(o, clusters) =>
      var want := EnabledConfigs(clusters);
      Finish(s.(shared := s.shared.Desire(want)), o,
             ClientsOf(s.shared.clients, s.shared.Unwanted(want)), Succeeded)
    case Retain(o, active) =>
      Finish(s.(shared := s.shared.Retained(active)), o,
             ClientsOf(s.shared.clients, s.shared.clients.Keys - active), Succeeded)
    case CloseAll(o) =>
      Finish(s.(shared := s.shared.Emptied()), o, s.shared.clients.Values, Succeeded)
    case Skip(o) => s.(ops := s.ops[o := s.ops[o].(phase := s.ops[o].phase.(next := s.ops[o].phase.next + 1))])
    case Dial(o, answer) => AfterDial(s, o, answer)
    case Ping(o, healthy) => AfterPing(s, o, healthy)
    case Commit(o) => AfterCommit(s, o)
    case CloseOne(o, c) =>
      var op := s.ops[o];
      s.(ops := s.ops[o := Op(op.phase.(queue := op.phase.queue - {c}), op.made, op.closedBy + {c})],
         closed := s.closed + [c])
  }

  /** A run: each state follows from the one before by an enabled step. */
  ghost predicate IsRun(states: seq<State>, steps: seq<Step>) {
    && |states| == |steps| + 1
    && states[0] == START
    && forall i :: 0 <= i < |steps| ==> Enabled(states[i], steps[i]) && states[i + 1] == Next(states[i], steps[i])
  }
}
