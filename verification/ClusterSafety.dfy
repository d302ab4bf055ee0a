/** What every interleaving of manager operations keeps, proved over all runs of ClusterMachine. */
module ClusterSafety {
  import opened Wrappers
  import opened Config
  import opened ClusterState
  import opened ClusterMachine

  // ----- Ownership

  function Installed(s: State): set<Client> {
    s.shared.clients.Values
  }

  function Closed(s: State): set<Client> {
    set c <- s.closed
  }

  ghost predicate NoDuplicates(cs: seq<Client>) {
    forall i, j :: 0 <= i < j < |cs| ==> cs[i] != cs[j]
  }

  /** Every client ever created is in exactly one place: installed, closed once, or held by one operation. */
  ghost predicate Partition(s: State) {
    && NIL !in s.dialled
    && NoDuplicates(s.closed)
    && Injective(s.shared.clients)
    && Installed(s) !! Closed(s)
    && (forall o <- s.ops :: Held(s.ops[o]) !! Installed(s) && Held(s.ops[o]) !! Closed(s))
    && (forall o <- s.ops, p <- s.ops :: o != p ==> Held(s.ops[o]) !! Held(s.ops[p]))
    && (forall c :: c in s.dialled <==> c in Installed(s) || c in Closed(s) || exists o <- s.ops :: c in Held(s.ops[o]))
  }

  /** The clients one operation and the manager have between them. */
  function Around(s: State, o: OpId): set<Client> {
    Installed(s) + Closed(s) + if o in s.ops then Held(s.ops[o]) else {}
  }

  /** One operation's step moves clients between it, the maps and the closed list, and adds new ones. */
  ghost predicate LocalMove(s: State, t: State, o: OpId) {
    && o in t.ops && t.ops == s.ops[o := t.ops[o]]
    && s.dialled.Keys <= t.dialled.Keys && NIL !in t.dialled
    && NoDuplicates(t.closed) && Injective(t.shared.clients)
    && Installed(t) !! Closed(t) !! Held(t.ops[o])
    && Around(t, o) == Around(s, o) + (t.dialled.Keys - s.dialled.Keys)
  }

  lemma OthersStayApart(s: State, t: State, o: OpId, p: OpId)
    requires Partition(s) && LocalMove(s, t, o) && p in s.ops && p != o
    ensures t.ops[p] == s.ops[p] && Held(t.ops[p]) !! Around(t, o)
  {
    assert Held(s.ops[p]) !! Around(s, o);
    forall c <- Held(s.ops[p]) ensures c in s.dialled {
    }
  }

  lemma EveryClientHasAPlace(s: State, t: State, o: OpId, c: Client)
    requires Partition(s) && LocalMove(s, t, o)
    ensures c in t.dialled <==> c in Installed(t) || c in Closed(t) || exists p <- t.ops :: c in Held(t.ops[p])
  {
    if c in s.dialled && c !in Around(s, o) {
      var p :| p in s.ops && c in Held(s.ops[p]);
      assert p in t.ops && t.ops[p] == s.ops[p];
    } else {
      forall p <- t.ops | p != o ensures c !in Held(t.ops[p]) {
        assert t.ops[p] == s.ops[p];
      }
      assert c in t.dialled <==> c in Around(t, o);
    }
  }

  lemma Repartition(s: State, t: State, o: OpId)
    requires Partition(s) && LocalMove(s, t, o)
    ensures Partition(t)
  {
    forall p <- t.ops | p != o ensures t.ops[p] == s.ops[p] && Held(t.ops[p]) !! Around(t, o) {
      OthersStayApart(s, t, o, p);
    }
    forall c ensures c in t.dialled <==>
                     c in Installed(t) || c in Closed(t) || exists p <- t.ops :: c in Held(t.ops[p]) {
      EveryClientHasAPlace(s, t, o, c);
    }
  }

  // ----- What each operation knows between its steps

  ghost predicate PhaseValid(s: State, op: Op) {
    match op.phase
    case Applying(clusters, want, snapshot, reused, next, created, pinging) =>
      && DistinctIds(clusters) && want == EnabledConfigs(clusters)
      && snapshot <= s.shared.generation && next <= |clusters|
      && reused <= want.Keys
      && created.Keys == EnabledConfigs(clusters[..next]).Keys - reused
      && (forall id <- created :: id in want && created[id] in s.dialled && s.dialled[created[id]] == want[id])
      && Injective(created)
      && (pinging.Some? ==>
            && next < |clusters| && !Skipped(op.phase) && pinging.value !in created.Values
            && pinging.value in s.dialled && s.dialled[pinging.value] == clusters[next])
      && op.made == Held(op) && op.closedBy == {}
      && (snapshot == s.shared.generation ==> reused <= s.shared.clients.Keys)
    case Dialling(_, snapshot) => snapshot <= s.shared.generation && op.made == {} == op.closedBy
    case Pinging(cfg, snapshot, c) =>
      snapshot <= s.shared.generation && op.made == {c} && op.closedBy == {} && c in s.dialled && s.dialled[c] == cfg
    case Committing(cfg, snapshot, c) =>
      snapshot <= s.shared.generation && op.made == {c} && op.closedBy == {} && c in s.dialled && s.dialled[c] == cfg
    case Closing(queue, outcome) =>
      && queue !! op.closedBy && op.closedBy <= Closed(s)
      && (outcome != Succeeded ==> queue + op.closedBy == op.made)
  }

  ghost predicate Safe(s: State) {
    && s.shared.Valid()
    && Partition(s)
    && forall o <- s.ops :: PhaseValid(s, s.ops[o])
  }

  /** A step that keeps the records of dials and closes and never takes ids out of an unchanged generation disturbs no phase. */
  ghost predicate Extends(s: State, t: State) {
    && (forall c <- s.dialled :: c in t.dialled && t.dialled[c] == s.dialled[c])
    && Closed(s) <= Closed(t)
    && (|| t.shared.generation > s.shared.generation
        || (t.shared.generation == s.shared.generation && s.shared.clients.Keys <= t.shared.clients.Keys))
  }

  /** All a step of operation `o` needs to know about the state. */
  ghost predicate Apart(s: State, o: OpId) {
    && s.shared.Valid()
    && NIL !in s.dialled && NoDuplicates(s.closed) && Injective(s.shared.clients)
    && Installed(s) !! Closed(s) && Around(s, o) <= s.dialled.Keys
    && (o in s.ops ==>
          && Held(s.ops[o]) !! Installed(s) && Held(s.ops[o]) !! Closed(s)
          && PhaseValid(s, s.ops[o]))
  }

  /** All a step of operation `o` has to establish. */
  ghost predicate LocalStep(s: State, t: State, o: OpId) {
    LocalMove(s, t, o) && Extends(s, t) && t.shared.Valid() && PhaseValid(t, t.ops[o])
  }

  lemma SafeIsApart(s: State, o: OpId)
    requires Safe(s)
    ensures Apart(s, o)
  {
  }

  lemma LocalStepIsSafe(s: State, t: State, o: OpId)
    requires Safe(s) && LocalStep(s, t, o)
    ensures Safe(t)
  {
    Repartition(s, t, o);
    forall p <- t.ops | p != o ensures PhaseValid(t, t.ops[p]) {
      assert t.ops[p] == s.ops[p] && PhaseValid(s, s.ops[p]);
    }
  }

  /** Taking the clients of some ids out of a map. */
  lemma TakingClients(clients: map<Id, Client>, ids: set<Id>)
    requires Injective(clients)
    ensures (clients - ids).Values !! ClientsOf(clients, ids)
    ensures (clients - ids).Values + ClientsOf(clients, ids) == clients.Values
    ensures Injective(clients - ids)
  {
    var rest := clients - ids;
    forall c <- clients.Values ensures c in rest.Values || c in ClientsOf(clients, ids) {
      var id :| id in clients && clients[id] == c;
      assert id !in ids ==> id in rest && rest[id] == c;
    }
  }

  lemma RemovalIsLocal(s: State, t: State, o: OpId, ids: set<Id>)
    requires Apart(s, o) && o !in s.ops
    requires t == Finish(s.(shared := t.shared), o, ClientsOf(s.shared.clients, ids), Succeeded)
    requires t.shared.Valid() && t.shared.clients == s.shared.clients - ids
    requires Extends(s, t)
    ensures LocalStep(s, t, o)
  {
    TakingClients(s.shared.clients, ids);
  }

  lemma BeginIsLocal(s: State, step: Step)
    requires Apart(s, step.op) && Enabled(s, step) && (step.BeginApply? || step.BeginUpsert?)
    ensures LocalStep(s, Next(s, step), step.op)
  {
    assert Held(Next(s, step).ops[step.op]) == {};
  }

  lemma SharedStepIsLocal(s: State, step: Step)
    requires Apart(s, step.op) && Enabled(s, step) && (step.SetDesired? || step.Retain? || step.CloseAll?)
    ensures LocalStep(s, Next(s, step), step.op)
  {
    var t := Next(s, step);
    var ids := match step
      case SetDesired(_, clusters) => s.shared.Unwanted(EnabledConfigs(clusters))
      case Retain(_, active) => s.shared.clients.Keys - active
      case _ => s.shared.clients.Keys;
    assert step.CloseAll? ==> ClientsOf(s.shared.clients, ids) == s.shared.clients.Values;
    assert t.shared.clients == s.shared.clients - ids;
    RemovalIsLocal(s, t, step.op, ids);
  }

  lemma SkipIsLocal(s: State, step: Step)
    requires Apart(s, step.op) && Enabled(s, step) && step.Skip?
    ensures LocalStep(s, Next(s, step), step.op)
  {
    var t, p := Next(s, step), s.ops[step.op].phase;
    EnabledConfigsStep(p.clusters, p.next);
    assert Held(t.ops[step.op]) == Held(s.ops[step.op]);
  }

  lemma DialIsLocal(s: State, step: Step)
    requires Apart(s, step.op) && Enabled(s, step) && step.Dial?
    ensures LocalStep(s, Next(s, step), step.op)
  {
    var t, o, added := Next(s, step), step.op, Pending(step.answer);
    assert Held(t.ops[o]) == Held(s.ops[o]) + added;
    assert t.dialled.Keys == s.dialled.Keys + added;
  }

  lemma PingIsLocal(s: State, step: Step)
    requires Apart(s, step.op) && Enabled(s, step) && step.Ping?
    ensures LocalStep(s, Next(s, step), step.op)
  {
    var t, p := Next(s, step), s.ops[step.op].phase;
    if p.Applying? && step.healthy {
      EnabledConfigsStep(p.clusters, p.next);
      EnabledConfigsFresh(p.clusters, p.next);
      EnabledConfigsComplete(p.clusters);
      ValuesAfterUpdate(p.created, p.clusters[p.next].id, p.pinging.value);
    }
    assert Held(t.ops[step.op]) == Held(s.ops[step.op]);
  }

  lemma ValuesAfterUpdate(m: map<Id, Client>, id: Id, c: Client)
    requires id !in m
    ensures m[id := c].Values == m.Values + {c}
  {
    var n := m[id := c];
    assert n[id] == c;
    forall d <- m.Values ensures d in n.Values {
      var k :| k in m && m[k] == d;
      assert k in n && n[k] == d;
    }
  }

  /** A successful Apply leaves every client on exactly one side: still installed, or in its closing queue. */
  lemma InstallMovesClients(shared: Shared, want: Table, reused: set<Id>, created: map<Id, Client>)
    requires Injective(shared.clients)
    requires reused <= shared.clients.Keys && want.Keys == created.Keys + reused && created.Keys !! reused
    requires Injective(created) && created.Values !! shared.clients.Values
    ensures var next := shared.Install(want, created).clients;
            var dropped := ClientsOf(shared.clients, shared.clients.Keys - reused);
            && Injective(next) && next.Values !! dropped
            && next.Values + dropped == created.Values + shared.clients.Values
  {
    var clients, next := shared.clients, shared.Install(want, created).clients;
    var dropped := ClientsOf(clients, clients.Keys - reused);
    assert forall id <- next :: next[id] == if id in created then created[id] else clients[id];
    InstalledAreOldOrNew(clients, next, created, reused);
    forall c <- created.Values + clients.Values ensures c in next.Values + dropped {
      if c in created.Values {
        var id :| id in created && created[id] == c;
        assert id in next && next[id] == c;
      } else {
        var id :| id in clients && clients[id] == c;
        assert id in reused ==> id in next && next[id] == c;
      }
    }
  }

  lemma InstalledAreOldOrNew(clients: map<Id, Client>, next: map<Id, Client>, created: map<Id, Client>,
                             reused: set<Id>)
    requires Injective(clients) && Injective(created) && created.Values !! clients.Values
    requires reused <= clients.Keys && next.Keys == created.Keys + reused && created.Keys !! reused
    requires forall id <- next :: next[id] == if id in created then created[id] else clients[id]
    ensures Injective(next) && next.Values !! ClientsOf(clients, clients.Keys - reused)
    ensures next.Values <= created.Values + clients.Values
  {
    forall id <- next ensures id in created ==> next[id] in created.Values
                      ensures id !in created ==> next[id] in clients.Values {
    }
    forall id <- clients.Keys - reused ensures clients[id] !in next.Values {
      assert clients[id] in clients.Values;
    }
  }

  lemma PutMovesClients(shared: Shared, cfg: ClusterConfig, c: Client)
    requires shared.Valid() && Injective(shared.clients) && c !in shared.clients.Values
    ensures var next, dropped := shared.Put(cfg, c).clients, ClientsOf(shared.clients, {cfg.id});
            Injective(next) && next.Values !! dropped && next.Values + dropped == shared.clients.Values + {c}
  {
    var rest := shared.clients - {cfg.id};
    TakingClients(shared.clients, {cfg.id});
    ValuesAfterUpdate(rest, cfg.id, c);
    assert shared.Put(cfg, c).clients == rest[cfg.id := c];
    forall id <- rest ensures rest[id] != c {
      assert shared.clients[id] in shared.clients.Values;
    }
  }

  lemma ApplyCommitIsLocal(s: State, step: Step)
    requires Apart(s, step.op) && Enabled(s, step) && step.Commit? && s.ops[step.op].phase.Applying?
    ensures LocalStep(s, Next(s, step), step.op)
  {
    var p := s.ops[step.op].phase;
    assert p.clusters[..p.next] == p.clusters;
    if p.snapshot == s.shared.generation {
      InstallMovesClients(s.shared, p.want, p.reused, p.created);
    }
  }

  lemma UpsertCommitIsLocal(s: State, step: Step)
    requires Apart(s, step.op) && Enabled(s, step) && step.Commit? && s.ops[step.op].phase.Committing?
    ensures LocalStep(s, Next(s, step), step.op)
  {
    var p := s.ops[step.op].phase;
    if p.snapshot == s.shared.generation && s.shared.Allows(p.cfg) {
      PutMovesClients(s.shared, p.cfg, p.client);
    }
  }

  lemma CloseIsLocal(s: State, step: Step)
    requires Apart(s, step.op) && Enabled(s, step) && step.CloseOne?
    ensures LocalStep(s, Next(s, step), step.op)
  {
    assert step.client !in Closed(s);
    var t := Next(s, step);
    assert Closed(t) == Closed(s) + {step.client} by {
      assert t.closed == s.closed + [step.client];
    }
  }

  lemma StepIsLocal(s: State, step: Step)
    requires Apart(s, step.op) && Enabled(s, step)
    ensures LocalStep(s, Next(s, step), step.op)
  {
    match step
    case BeginApply(_, _) => BeginIsLocal(s, step);
    case BeginUpsert(_, _) => BeginIsLocal(s, step);
    case SetDesired(_, _) => SharedStepIsLocal(s, step);
    case Retain(_, _) => SharedStepIsLocal(s, step);
    case CloseAll(_) => SharedStepIsLocal(s, step);
    case Skip(_) => SkipIsLocal(s, step);
    case Dial(_, _) => DialIsLocal(s, step);
    case Ping(_, _) => PingIsLocal(s, step);
    case Commit(o) => if s.ops[o].phase.Applying? { ApplyCommitIsLocal(s, step); } else { UpsertCommitIsLocal(s, step); }
    case CloseOne(_, _) => CloseIsLocal(s, step);
  }

  /** No step, from any safe state, loses, duplicates or reuses a client. */
  lemma StepIsSafe(s: State, step: Step)
    requires Safe(s) && Enabled(s, step)
    ensures Safe(Next(s, step))
  {
    SafeIsApart(s, step.op);
    StepIsLocal(s, step);
    LocalStepIsSafe(s, Next(s, step), step.op);
  }

  lemma {:induction false} RunIsSafe(states: seq<State>, steps: seq<Step>, i: nat)
    requires IsRun(states, steps) && i < |states|
    ensures Safe(states[i])
  {
    if i > 0 {
      RunIsSafe(states, steps, i - 1);
      StepIsSafe(states[i - 1], steps[i - 1]);
    }
  }
}
