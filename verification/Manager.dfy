/**
 * The cluster manager in the form it has in the program: fields updated in place, Go maps as heap objects that two
 * fields may share, and loops over them. Every locked section is proved against its function in ClusterState.
 */
module Manager {
  import opened Wrappers
  import opened Config
  import opened ClusterState
  import opened ClusterMachine
  import opened ClusterSafety

  /** A Go map: an object, so that two fields can refer to the same one. */
  class ConfigMap {
    var entries: Table

    constructor (entries: Table)
      ensures this.entries == entries
    {
      this.entries := entries;
    }
  }

  /** The set `cs` was appended to a list of Close calls, each client once. */
  ghost predicate Appended(before: seq<Client>, after: seq<Client>, cs: set<Client>) {
    && before <= after
    && NoDuplicates(after[|before|..])
    && (set c <- after[|before|..]) == cs
  }

  lemma AppendOne(before: seq<Client>, after: seq<Client>, cs: set<Client>, c: Client)
    requires Appended(before, after, cs) && c !in cs
    ensures Appended(before, after + [c], cs + {c})
  {
    assert (after + [c])[|before|..] == after[|before|..] + [c];
  }

  /**
   * Kafka as the manager sees it. What it answered is on record: the configuration each client was dialled with, the
   * configurations no client was made for, the clients that answered a ping and those that did not, every Close call.
   */
  class Network {
    var dialled: map<Client, ClusterConfig>
    var closed: seq<Client>
    var nextHandle: Client
    ghost var refused: seq<ClusterConfig>
    ghost var answering: set<Client>
    ghost var silent: seq<Client>

    ghost predicate Valid()
      reads this
    {
      nextHandle > NIL && (forall c <- dialled :: NIL < c < nextHandle) && answering <= dialled.Keys
    }

    constructor ()
      ensures Valid() && dialled == map[] && closed == []
    {
      dialled, closed, nextHandle := map[], [], 1;
      refused, answering, silent := [], {}, [];
    }

    /** The factory: an error, or a client never handed out before. */
    method Create(cfg: ClusterConfig) returns (answer: Option<Client>)
      requires Valid()
      modifies this`dialled, this`nextHandle, this`refused
      ensures Valid()
      ensures answer.None? ==> dialled == old(dialled) && refused == old(refused) + [cfg]
      ensures answer.Some? ==>
                && answer.value != NIL && answer.value !in old(dialled)
                && dialled == old(dialled)[answer.value := cfg] && refused == old(refused)
    {
      var reachable: bool := *;
      if !reachable {
        refused := refused + [cfg];
        return None;
      }
      answer := Some(nextHandle);
      dialled := dialled[nextHandle := cfg];
      nextHandle := nextHandle + 1;
    }

    method Ping(client: Client) returns (healthy: bool)
      requires Valid() && client in dialled
      modifies this`answering, this`silent
      ensures Valid()
      ensures answering == if healthy then old(answering) + {client} else old(answering)
      ensures silent == if healthy then old(silent) else old(silent) + [client]
    {
      healthy := *;
      if healthy {
        answering := answering + {client};
      } else {
        silent := silent + [client];
      }
    }

    method Close(client: Client)
      modifies this`closed
      ensures closed == old(closed) + [client]
    {
      closed := closed + [client];
    }

    ghost function Log(): Answers
      reads this`dialled, this`refused, this`answering, this`silent
    {
      Answers(dialled, refused, answering, silent)
    }
  }

  datatype Answers = Answers(
    dialled: map<Client, ClusterConfig>, refused: seq<ClusterConfig>, answering: set<Client>, silent: seq<Client>)

  /** Every client made meanwhile answered its ping, and nothing was refused. */
  ghost predicate AllAnswered(before: Answers, after: Answers) {
    && after.answering == before.answering + (after.dialled.Keys - before.dialled.Keys)
    && after.silent == before.silent && after.refused == before.refused
  }

  /** Dialling the enabled clusters outside `reused` stopped at a client that could not be made or did not answer. */
  ghost predicate Stopped(outcome: Outcome, clusters: seq<ClusterConfig>, reused: set<Id>, before: Answers,
                          after: Answers) {
    && (outcome == CreateFailed || outcome == PingFailed)
    && exists cfg <- clusters :: cfg.enabled != Some(false) && cfg.id !in reused && StoppedAt(outcome, cfg, before, after)
  }

  ghost predicate StoppedAt(outcome: Outcome, cfg: ClusterConfig, before: Answers, after: Answers) {
    var made := after.dialled.Keys - before.dialled.Keys;
    if outcome == CreateFailed then
      && after.refused == before.refused + [cfg] && after.silent == before.silent
      && after.answering == before.answering + made
    else
      && after.refused == before.refused && |after.silent| == |before.silent| + 1
      && var c := after.silent[|before.silent|];
      && c in made && after.dialled[c] == cfg
      && after.silent == before.silent + [c] && after.answering == before.answering + (made - {c})
  }

  lemma AllAnsweredThen(outcome: Outcome, cfg: ClusterConfig, before: Answers, middle: Answers, after: Answers)
    requires AllAnswered(before, middle)
    requires before.dialled.Keys <= middle.dialled.Keys <= after.dialled.Keys
    ensures AllAnswered(middle, after) ==> AllAnswered(before, after)
    ensures StoppedAt(outcome, cfg, middle, after) ==> StoppedAt(outcome, cfg, before, after)
  {
    var made := middle.dialled.Keys - before.dialled.Keys;
    assert after.dialled.Keys - before.dialled.Keys == made + (after.dialled.Keys - middle.dialled.Keys);
  }

  /** Closing every client of a map, in whatever order the map is iterated. */
  method CloseClients(clients: map<Id, Client>, net: Network)
    requires Injective(clients)
    modifies net`closed
    ensures Appended(old(net.closed), net.closed, clients.Values)
  {
    var todo := clients.Keys;
    ghost var done: set<Client> := {};
    while todo != {}
      invariant todo <= clients.Keys
      invariant done == ClientsOf(clients, clients.Keys - todo)
      invariant Appended(old(net.closed), net.closed, done)
      decreases todo
    {
      var id :| id in todo;
      AppendOne(old(net.closed), net.closed, done, clients[id]);
      net.Close(clients[id]);
      todo, done := todo - {id}, done + {clients[id]};
    }
    assert done == clients.Values;
  }

  class Manager {
    var clients: map<Id, Client>
    var configs: ConfigMap
    var desired: ConfigMap
    var desiredSet: bool
    var generation: nat
    const net: Network
    ghost var view: Shared

    ghost predicate Valid()
      reads this, configs, desired
    {
      && view.Valid()
      && view.clients == clients && view.desiredSet == desiredSet && view.generation == generation
      && view.Configs() == configs.entries && view.Desired() == desired.entries
      && (configs == desired <==> view.configs == view.desired)
    }

    constructor (net: Network)
      ensures Valid() && view == INITIAL && this.net == net && fresh(configs) && fresh(desired)
    {
      clients, desiredSet, generation := map[], false, 0;
      configs := new ConfigMap(map[]);
      desired := new ConfigMap(map[]);
      this.net := net;
      view := INITIAL;
    }

    /** Apply under the read lock: the generation, and which ids keep their client. */
    method Snapshot(want: Table) returns (generation: nat, reused: set<Id>)
      requires Valid()
      ensures generation == this.generation && reused == ReusedIds(view, want)
      ensures forall id :: id in reused <==>
                && id in want && id in clients && id in configs.entries
                && configs.entries[id].brokers == want[id].brokers
                && configs.entries[id].security == want[id].security
    {
      generation, reused := this.generation, {};
      var todo := want.Keys;
      while todo != {}
        invariant todo <= want.Keys
        invariant reused == ReusedIds(view, want) - todo
        decreases todo
      {
        var id :| id in todo;
        if id in configs.entries && id in clients && SameConnection(configs.entries[id], want[id]) {
          reused := reused + {id};
        }
        todo := todo - {id};
      }
    }

    /** Create and ping, as Apply and Upsert both do: a client that does not answer is closed again. */
    method DialOne(cfg: ClusterConfig) returns (outcome: Outcome, client: Client)
      requires net.Valid()
      modifies net
      ensures net.Valid() && outcome != Stale
      ensures outcome == CreateFailed ==> net.dialled == old(net.dialled) && net.closed == old(net.closed)
      ensures outcome != CreateFailed ==>
                && client != NIL && client !in old(net.dialled)
                && net.dialled == old(net.dialled)[client := cfg]
      ensures outcome == PingFailed ==> net.closed == old(net.closed) + [client]
      ensures outcome == Succeeded ==> net.closed == old(net.closed)
      ensures if outcome == Succeeded then AllAnswered(old(net.Log()), net.Log())
              else StoppedAt(outcome, cfg, old(net.Log()), net.Log())
    {
      var answer := net.Create(cfg);
      if answer.None? {
        return CreateFailed, NIL;
      }
      client := answer.value;
      var healthy := net.Ping(client);
      if !healthy {
        net.Close(client);
        return PingFailed, client;
      }
      outcome := Succeeded;
    }

    /** What dialling has achieved for the first `n` clusters. */
    ghost predicate Dialled(clusters: seq<ClusterConfig>, n: nat, reused: set<Id>, created: map<Id, Client>,
                            before: map<Client, ClusterConfig>, after: map<Client, ClusterConfig>)
      requires n <= |clusters|
    {
      var want := EnabledConfigs(clusters[..n]);
      && created.Keys == want.Keys - reused
      && Injective(created) && created.Values !! before.Keys && NIL !in created.Values
      && after.Keys == before.Keys + created.Values
      && (forall c <- before :: after[c] == before[c])
      && (forall id <- created :: after[created[id]] == want[id])
    }

    lemma DialledOneMore(clusters: seq<ClusterConfig>, n: nat, reused: set<Id>, created: map<Id, Client>,
                         before: map<Client, ClusterConfig>, after: map<Client, ClusterConfig>, client: Client)
      requires DistinctIds(clusters) && n < |clusters| && Dialled(clusters, n, reused, created, before, after)
      requires IsEnabled(clusters[n]) && clusters[n].id !in reused && client != NIL && client !in after
      ensures Dialled(clusters, n + 1, reused, created[clusters[n].id := client], before,
                      after[client := clusters[n]])
    {
      EnabledConfigsStep(clusters, n);
      EnabledConfigsFresh(clusters, n);
      ValuesAfterUpdate(created, clusters[n].id, client);
    }

    /** Closes the clients made so far, after the one that did not answer. */
    method CloseMade(ghost before: seq<Client>, ghost silent: set<Client>, created: map<Id, Client>)
      requires Injective(created) && created.Values !! silent && Appended(before, net.closed, silent)
      modifies net`closed
      ensures Appended(before, net.closed, silent + created.Values)
    {
      ghost var middle := net.closed;
      CloseClients(created, net);
      AppendMore(before, middle, net.closed, silent, created.Values);
    }

    /** Everything the first `n` clusters needed was made and answers. */
    ghost predicate Reached(clusters: seq<ClusterConfig>, n: nat, reused: set<Id>, created: map<Id, Client>,
                            before: Answers, after: Answers)
      requires n <= |clusters|
    {
      Dialled(clusters, n, reused, created, before.dialled, after.dialled) && AllAnswered(before, after)
    }

    /** One round of the loop below, for an enabled cluster that keeps no client. */
    method DialNext(clusters: seq<ClusterConfig>, i: nat, reused: set<Id>, created: map<Id, Client>,
                    ghost before: Answers)
      returns (outcome: Outcome, more: map<Id, Client>)
      requires net.Valid() && DistinctIds(clusters) && i < |clusters|
      requires IsEnabled(clusters[i]) && clusters[i].id !in reused
      requires Reached(clusters, i, reused, created, before, net.Log())
      modifies net
      ensures net.Valid() && outcome != Stale
      ensures outcome == Succeeded ==>
                Reached(clusters, i + 1, reused, more, before, net.Log()) && net.closed == old(net.closed)
      ensures outcome != Succeeded ==>
                && StoppedAt(outcome, clusters[i], before, net.Log())
                && before.dialled.Keys <= net.dialled.Keys
                && (forall c <- before.dialled :: net.dialled[c] == before.dialled[c])
                && Appended(old(net.closed), net.closed, net.dialled.Keys - before.dialled.Keys)
    {
      ghost var middle := net.Log();
      var client;
      outcome, client := DialOne(clusters[i]);
      AllAnsweredThen(outcome, clusters[i], before, middle, net.Log());
      if outcome != Succeeded {
        CloseMade(old(net.closed), if outcome == PingFailed then {client} else {}, created);
        return outcome, map[];
      }
      DialledOneMore(clusters, i, reused, created, before.dialled, middle.dialled, client);
      more := created[clusters[i].id := client];
    }

    /** Apply with no lock held: dial the enabled clusters that keep no client, or clean up and fail. */
    method DialMissing(clusters: seq<ClusterConfig>, reused: set<Id>)
      returns (outcome: Outcome, created: map<Id, Client>)
      requires net.Valid() && DistinctIds(clusters)
      modifies net
      ensures net.Valid() && outcome != Stale
      ensures outcome == Succeeded ==>
                Reached(clusters, |clusters|, reused, created, old(net.Log()), net.Log()) && net.closed == old(net.closed)
      ensures outcome != Succeeded ==>
                && Stopped(outcome, clusters, reused, old(net.Log()), net.Log())
                && old(net.dialled).Keys <= net.dialled.Keys
                && (forall c <- old(net.dialled) :: net.dialled[c] == old(net.dialled)[c])
                && Appended(old(net.closed), net.closed, net.dialled.Keys - old(net.dialled).Keys)
    {
      created := map[];
      for i := 0 to |clusters|
        invariant net.Valid() && net.closed == old(net.closed)
        invariant Reached(clusters, i, reused, created, old(net.Log()), net.Log())
      {
        if !IsEnabled(clusters[i]) || clusters[i].id in reused {
          EnabledConfigsStep(clusters, i);
          continue;
        }
        outcome, created := DialNext(clusters, i, reused, created, old(net.Log()));
        if outcome != Succeeded {
          return;
        }
      }
      outcome := Succeeded;
    }

    /** Apply under the write lock. */
    method Commit(want: Table, snapshot: nat, reused: set<Id>, created: map<Id, Client>)
      returns (stale: bool, dropped: map<Id, Client>)
      requires Valid()
      modifies this
      ensures Valid()
      ensures stale <==> snapshot != old(view).generation
      ensures view == if stale then old(view) else old(view).Install(want, created)
      ensures dropped == if stale then map[] else old(view).clients - reused
      ensures !stale ==> fresh(configs) && configs == desired && configs.entries == want && desiredSet
      ensures !stale ==>
                && generation == old(generation) + 1 && clients.Keys == want.Keys
                && forall id <- want :: id in created || id in old(clients) ==>
                     clients[id] == if id in created then created[id] else old(clients)[id]
    {
      if snapshot != generation {
        return true, map[];
      }
      var was := clients;
      var next: map<Id, Client> := map[];
      var todo := want.Keys;
      while todo != {}
        invariant todo <= want.Keys
        invariant next.Keys == want.Keys - todo
        invariant forall id <- next :: next[id] == view.Install(want, created).clients[id]
        decreases todo
      {
        var id :| id in todo;
        if id in created {
          next := next[id := created[id]];
        } else {
          next := next[id := if id in was then was[id] else NIL];
        }
        todo := todo - {id};
      }
      clients := next;
      var table := new ConfigMap(want);
      configs := table;
      desired := table;
      desiredSet := true;
      generation := generation + 1;
      view := view.Install(want, created);
      assert clients == view.clients;
      stale, dropped := false, was - reused;
    }

    /** The clients this manager and the network agree on. */
    ghost predicate Owns()
      requires Valid()
      reads this, configs, desired, net
    {
      net.Valid() && Injective(view.clients) && view.clients.Values <= net.dialled.Keys
    }

    /**
     * Apply with nothing running in between. It succeeds and serves exactly the enabled ids, or it fails, changes
     * nothing and closes what it dialled; it never finds its own snapshot stale.
     */
    method Apply(clusters: seq<ClusterConfig>) returns (outcome: Outcome)
      requires Valid() && Owns() && DistinctIds(clusters)
      modifies this, net
      ensures Valid() && Owns() && outcome != Stale
      ensures outcome != Succeeded ==> view == old(view) && configs == old(configs) && desired == old(desired)
      ensures outcome != Succeeded ==>
                Appended(old(net.closed), net.closed, net.dialled.Keys - old(net.dialled).Keys)
      ensures outcome != Succeeded ==>
                Stopped(outcome, clusters, ReusedIds(old(view), EnabledConfigs(clusters)), old(net.Log()), net.Log())
      ensures outcome == Succeeded ==>
                var want, reused := EnabledConfigs(clusters), ReusedIds(old(view), EnabledConfigs(clusters));
                && fresh(configs) && configs == desired && configs.entries == want && desiredSet
                && clients.Keys == want.Keys && generation == old(generation) + 1
                && AllAnswered(old(net.Log()), net.Log())
                && (forall id <- reused :: clients[id] == old(clients)[id])
                && (forall id <- want.Keys - reused ::
                      && clients[id] !in old(net.dialled) && net.dialled[clients[id]] == want[id]
                      && clients[id] in net.answering)
                && Appended(old(net.closed), net.closed,
                            ClientsOf(old(view).clients, old(view).clients.Keys - reused))
      ensures forall id :: id in ReusedIds(old(view), EnabledConfigs(clusters)) <==>
                && id in EnabledConfigs(clusters) && id in old(clients) && id in old(configs.entries)
                && old(configs.entries)[id].brokers == EnabledConfigs(clusters)[id].brokers
                && old(configs.entries)[id].security == EnabledConfigs(clusters)[id].security
    {
      var want := EnabledConfigs(clusters);
      var snapshot, reused := Snapshot(want);
      var created;
      outcome, created := DialMissing(clusters, reused);
      if outcome != Succeeded {
        return;
      }
      assert clusters[..|clusters|] == clusters;
      ghost var before := view;
      var stale, dropped := Commit(want, snapshot, reused, created);
      InstallMovesClients(before, want, reused, created);
      TakenClients(before.clients, dropped);
      CloseClients(dropped, net);
    }

    /** The locked section of Upsert's commit: the client it replaces, or that it came too late. */
    method CommitOne(cfg: ClusterConfig, snapshot: nat, client: Client)
      returns (stale: bool, replaced: Option<Client>)
      requires Valid()
      modifies this`clients, this`view, configs
      ensures Valid()
      ensures stale <==> snapshot != old(view).generation || !old(view).Allows(cfg)
      ensures view == if stale then old(view) else old(view).Put(cfg, client)
      ensures replaced == if !stale && cfg.id in old(view).clients then Some(old(view).clients[cfg.id]) else None
      ensures stale ==> clients == old(clients) && configs.entries == old(configs.entries)
      ensures !stale ==>
                clients == old(clients)[cfg.id := client] && configs.entries == old(configs.entries)[cfg.id := cfg]
    {
      if snapshot != generation || !Allows(cfg) {
        return true, None;
      }
      stale, replaced := false, if cfg.id in clients then Some(clients[cfg.id]) else None;
      view := view.Put(cfg, client);
      clients := clients[cfg.id := client];
      configs.entries := configs.entries[cfg.id := cfg];
    }

    /** Upsert with nothing running in between: stale exactly when the desired set does not allow the connection. */
    method Upsert(cfg: ClusterConfig) returns (outcome: Outcome)
      requires Valid() && Owns()
      modifies this`clients, this`view, configs, net
      ensures Valid() && Owns()
      ensures outcome == Stale <==>
                && old(desiredSet)
                && !(&& cfg.id in old(desired.entries)
                     && old(desired.entries)[cfg.id].brokers == cfg.brokers
                     && old(desired.entries)[cfg.id].security == cfg.security)
      ensures outcome == Stale ==> net.dialled == old(net.dialled) && net.closed == old(net.closed)
      ensures outcome != Succeeded ==> view == old(view)
      ensures outcome != Succeeded ==>
                Appended(old(net.closed), net.closed, net.dialled.Keys - old(net.dialled).Keys)
      ensures outcome == CreateFailed || outcome == PingFailed ==> StoppedAt(outcome, cfg, old(net.Log()), net.Log())
      ensures outcome == Succeeded ==>
                && cfg.id in clients && view == old(view).Put(cfg, clients[cfg.id])
                && clients == old(clients)[cfg.id := clients[cfg.id]]
                && configs.entries == old(configs.entries)[cfg.id := cfg]
                && clients[cfg.id] !in old(net.dialled)
                && net.dialled == old(net.dialled)[clients[cfg.id] := cfg]
                && clients[cfg.id] in net.answering
                && Appended(old(net.closed), net.closed, ClientsOf(old(view).clients, {cfg.id}))
    {
      var snapshot := generation;
      if !Allows(cfg) {
        return Stale;
      }
      var client;
      outcome, client := DialOne(cfg);
      if outcome != Succeeded {
        return;
      }
      Exchange(cfg, snapshot, client);
    }

    /** Installs a client nothing has overtaken, and closes the one it replaces. */
    method Exchange(cfg: ClusterConfig, snapshot: nat, client: Client)
      requires Valid() && Injective(view.clients) && client !in view.clients.Values
      requires snapshot == generation && view.Allows(cfg)
      modifies this`clients, this`view, configs, net`closed
      ensures Valid() && Injective(view.clients) && view.clients.Values <= old(view).clients.Values + {client}
      ensures view == old(view).Put(cfg, client)
      ensures clients == old(clients)[cfg.id := client] && configs.entries == old(configs.entries)[cfg.id := cfg]
      ensures Appended(old(net.closed), net.closed, ClientsOf(old(view).clients, {cfg.id}))
    {
      PutMovesClients(view, cfg, client);
      var stale, replaced := CommitOne(cfg, snapshot, client);
      if replaced.Some? {
        net.Close(replaced.value);
      }
    }

    predicate Allows(cfg: ClusterConfig)
      requires Valid()
      reads this, configs, desired
      ensures Allows(cfg) == view.Allows(cfg)
      ensures Allows(cfg) <==>
                || !desiredSet
                || (&& cfg.id in desired.entries
                    && desired.entries[cfg.id].brokers == cfg.brokers
                    && desired.entries[cfg.id].security == cfg.security)
    {
      desiredSet ==> cfg.id in desired.entries && SameConnection(desired.entries[cfg.id], cfg)
    }

    /** Whether the requested connections are the desired ones already. */
    method Matches(clusters: seq<ClusterConfig>) returns (matches: bool)
      requires Valid()
      ensures matches == view.Matches(clusters)
      ensures matches <==>
                && desiredSet && desired.entries.Keys == EnabledConfigs(clusters).Keys
                && forall id <- desired.entries ::
                     && desired.entries[id].brokers == EnabledConfigs(clusters)[id].brokers
                     && desired.entries[id].security == EnabledConfigs(clusters)[id].security
    {
      var enabled := EnabledConfigs(clusters);
      if !desiredSet || |enabled| != |desired.entries| {
        DifferentSizes(enabled, desired.entries);
        return false;
      }
      var todo := enabled.Keys;
      while todo != {}
        invariant todo <= enabled.Keys
        invariant forall id <- enabled.Keys - todo ::
                    id in desired.entries && SameConnection(desired.entries[id], enabled[id])
        decreases todo
      {
        var id :| id in todo;
        if id !in desired.entries || !SameConnection(desired.entries[id], enabled[id]) {
          return false;
        }
        todo := todo - {id};
      }
      SameSizeSubset(enabled.Keys, desired.entries.Keys);
      return true;
    }

    /** The two deletes in the loops below. */
    method Drop(id: Id) returns (client: Client)
      requires Valid() && id in view.clients
      modifies this`clients, this`view, configs
      ensures Valid() && view == old(view).Without({id}) && client == old(view).clients[id]
    {
      client := clients[id];
      clients := clients - {id};
      configs.entries := configs.entries - {id};
      view := view.Without({id});
    }

    /** Takes out every client whose active connection is not the wanted one. */
    method TakeUnwanted(want: Table) returns (removed: map<Id, Client>)
      requires Valid()
      modifies this`clients, this`view, configs
      ensures Valid()
      ensures view == old(view).Without(old(view).Unwanted(want))
      ensures removed.Keys == old(view).Unwanted(want)
      ensures forall id <- removed :: removed[id] == old(view).clients[id]
    {
      ghost var before, gone: set<Id> := view, {};
      removed := map[];
      var todo := clients.Keys;
      RemovingNothing(view);
      while todo != {}
        invariant todo <= before.clients.Keys
        invariant Valid() && view == before.Without(gone)
        invariant removed.Keys == gone == before.Unwanted(want) - todo
        invariant forall id <- removed :: removed[id] == before.clients[id]
        decreases todo
      {
        var id :| id in todo;
        assert id in configs.entries <==> id in before.Configs();
        if id !in want || id !in configs.entries || !SameConnection(configs.entries[id], want[id]) {
          WithoutBoth(before, gone, {id});
          var client := Drop(id);
          removed, gone := removed[id := client], gone + {id};
        }
        todo := todo - {id};
      }
      assert gone == before.Unwanted(want);
    }

    /** Makes the given clusters authoritative and closes the clients they no longer allow. */
    method SetDesired(clusters: seq<ClusterConfig>)
      requires Valid() && Injective(view.clients)
      modifies this, configs, net`closed
      ensures Valid() && fresh(desired) && configs == old(configs)
      ensures view == old(view).Desire(EnabledConfigs(clusters))
      ensures desired.entries == EnabledConfigs(clusters) && desiredSet && generation == old(generation) + 1
      ensures forall id :: id in clients <==>
                && id in old(clients) && id in old(configs.entries) && id in desired.entries
                && old(configs.entries)[id].brokers == desired.entries[id].brokers
                && old(configs.entries)[id].security == desired.entries[id].security
      ensures forall id <- clients :: clients[id] == old(clients)[id]
      ensures configs.entries == old(configs.entries) - (old(clients).Keys - clients.Keys)
      ensures Appended(old(net.closed), net.closed,
                       ClientsOf(old(view).clients, old(view).Unwanted(EnabledConfigs(clusters))))
    {
      var want := EnabledConfigs(clusters);
      ghost var before := view;
      var removed := TakeUnwanted(want);
      desired := new ConfigMap(want);
      desiredSet := true;
      generation := generation + 1;
      view := before.Desire(want);
      CloseTaken(removed, before.clients);
    }

    /** Takes out every client outside the active ids. */
    method TakeInactive(active: set<Id>) returns (removed: map<Id, Client>)
      requires Valid()
      modifies this`clients, this`view, configs
      ensures Valid()
      ensures view == old(view).Without(old(view).clients.Keys - active)
      ensures removed.Keys == old(view).clients.Keys - active
      ensures forall id <- removed :: removed[id] == old(view).clients[id]
    {
      ghost var before, gone: set<Id> := view, {};
      removed := map[];
      var todo := clients.Keys;
      RemovingNothing(view);
      while todo != {}
        invariant todo <= before.clients.Keys
        invariant Valid() && view == before.Without(gone)
        invariant removed.Keys == gone == before.clients.Keys - active - todo
        invariant forall id <- removed :: removed[id] == before.clients[id]
        decreases todo
      {
        var id :| id in todo;
        if id !in active {
          WithoutBoth(before, gone, {id});
          var client := Drop(id);
          removed, gone := removed[id := client], gone + {id};
        }
        todo := todo - {id};
      }
      assert gone == before.clients.Keys - active;
    }

    /** Closes clients that were taken out of the installed ones. */
    method CloseTaken(removed: map<Id, Client>, ghost installed: map<Id, Client>)
      requires Injective(installed) && forall id <- removed :: id in installed && removed[id] == installed[id]
      modifies net`closed
      ensures Appended(old(net.closed), net.closed, ClientsOf(installed, removed.Keys))
    {
      TakenClients(installed, removed);
      CloseClients(removed, net);
    }

    method Bump()
      requires Valid()
      modifies this`generation, this`view
      ensures Valid() && view == old(view).(generation := old(view).generation + 1)
    {
      generation := generation + 1;
      view := view.(generation := generation);
    }

    /** Closes and forgets the clients outside the active ids. */
    method Retain(active: set<Id>)
      requires Valid() && Injective(view.clients)
      modifies this, configs, net`closed
      ensures Valid() && configs == old(configs) && desired == old(desired)
      ensures view == old(view).Retained(active)
      ensures forall id :: id in clients <==> id in old(clients) && id in active
      ensures forall id <- clients :: clients[id] == old(clients)[id]
      ensures configs.entries == old(configs.entries) - (old(clients).Keys - active)
      ensures desiredSet == old(desiredSet)
      ensures generation == old(generation) + if old(clients).Keys <= active then 0 else 1
      ensures Appended(old(net.closed), net.closed,
                       ClientsOf(old(view).clients, old(view).clients.Keys - active))
    {
      ghost var before := view;
      var removed := TakeInactive(active);
      BumpIfAny(removed);
      CloseTaken(removed, before.clients);
    }

    method BumpIfAny(removed: map<Id, Client>)
      requires Valid()
      modifies this`generation, this`view
      ensures Valid()
      ensures view == old(view).(generation := old(view).generation + if removed.Keys != {} then 1 else 0)
    {
      EmptyMap(removed);
      if |removed| > 0 {
        Bump();
      }
    }

    method Close()
      requires Valid() && Injective(view.clients)
      modifies this, net`closed
      ensures Valid() && fresh(configs) && fresh(desired)
      ensures view == old(view).Emptied()
      ensures clients == map[] && configs.entries == map[] && desired.entries == map[] && desiredSet
      ensures configs != desired && generation == old(generation) + 1
      ensures Appended(old(net.closed), net.closed, old(view).clients.Values)
    {
      var was := clients;
      clients := map[];
      configs := new ConfigMap(map[]);
      desired := new ConfigMap(map[]);
      desiredSet := true;
      generation := generation + 1;
      view := view.Emptied();
      CloseClients(was, net);
    }
  }

  lemma AppendMore(before: seq<Client>, middle: seq<Client>, after: seq<Client>, a: set<Client>, b: set<Client>)
    requires Appended(before, middle, a) && Appended(middle, after, b) && a !! b
    ensures Appended(before, after, a + b)
  {
    var x, y := middle[|before|..], after[|middle|..];
    assert after[|before|..] == x + y;
    forall i, j | 0 <= i < j < |x + y| ensures (x + y)[i] != (x + y)[j] {
      assert (x + y)[i] in if i < |x| then a else b;
      assert (x + y)[j] in if j < |x| then a else b;
    }
  }

  lemma WithoutBoth(s: Shared, a: set<Id>, b: set<Id>)
    requires s.Valid()
    ensures s.Without(a).Valid() && s.Without(a).Without(b) == s.Without(a + b)
  {
    var once := s.Without(a);
    assert once.clients - b == s.clients - (a + b);
    assert once.Configs() - b == s.Configs() - (a + b);
    assert once.Without(b).tables == s.Without(a + b).tables;
  }

  lemma TakenClients(clients: map<Id, Client>, removed: map<Id, Client>)
    requires Injective(clients) && forall id <- removed :: id in clients && removed[id] == clients[id]
    ensures Injective(removed) && removed.Values == ClientsOf(clients, removed.Keys)
  {
  }

  lemma EmptyMap(m: map<Id, Client>)
    ensures |m| > 0 <==> m.Keys != {}
  {
    assert |m| == |m.Keys|;
  }

  lemma DifferentSizes(a: Table, b: Table)
    ensures |a| != |b| ==> a.Keys != b.Keys
  {
    assert |a| == |a.Keys| && |b| == |b.Keys|;
  }

  lemma SameSizeSubset(a: set<Id>, b: set<Id>)
    requires a <= b && |a| == |b|
    ensures a == b
  {
    assert b == a + (b - a);
    assert |b| == |a| + |b - a|;
  }
}
