/**
 * The state the cluster manager guards with its lock, and what each of its locked sections does to it.
 * The class Manager implements these functions; ClusterMachine interleaves them.
 */
module ClusterState {
  import opened Config

  /** An opaque Kafka client handle. NIL is Go's nil interface value. */
  type Client = nat
  const NIL: Client := 0

  /**
   * `tables` is the heap of Go maps the manager allocated; `configs` and `desired` are references into it.
   * A committed Apply makes both references point at one table.
   */
  datatype Shared = Shared(
    clients: map<Id, Client>, tables: seq<Table>, configs: nat, desired: nat, desiredSet: bool, generation: nat)
  {
    ghost predicate Valid() {
      configs < |tables| && desired < |tables|
    }

    function Configs(): Table
      requires Valid()
    {
      tables[configs]
    }

    function Desired(): Table
      requires Valid()
    {
      tables[desired]
    }

    /** Apply may reuse the client of an id whose active connection is the wanted one. */
    predicate Reusable(id: Id, want: Table)
      requires Valid()
    {
      && id in want
      && id in Configs()
      && id in clients
      && SameConnection(Configs()[id], want[id])
    }

    predicate Allows(cfg: ClusterConfig)
      requires Valid()
    {
      desiredSet ==> cfg.id in Desired() && SameConnection(Desired()[cfg.id], cfg)
    }

    predicate Matches(cs: seq<ClusterConfig>)
      requires Valid()
    {
      desiredSet && MatchesTable(cs, Desired())
    }

    /** Apply's commit: one new table becomes both `configs` and `desired`. */
    function Install(want: Table, created: map<Id, Client>): Shared {
      Shared(
        map id <- want :: if id in created then created[id] else if id in clients then clients[id] else NIL,
        tables + [want], |tables|, |tables|, true, generation + 1)
    }

    /** Upsert's commit writes through the `configs` reference, and so into `desired` when they are one table. */
    function Put(cfg: ClusterConfig, client: Client): Shared
      requires Valid()
    {
      this.(clients := clients[cfg.id := client],
            tables := tables[configs := Configs()[cfg.id := cfg]])
    }

    function Without(ids: set<Id>): Shared
      requires Valid()
    {
      this.(clients := clients - ids, tables := tables[configs := Configs() - ids])
    }

    /** The ids SetDesired drops: those whose active connection is not the wanted one. */
    function Unwanted(want: Table): set<Id>
      requires Valid()
    {
      set id <- clients | !Reusable(id, want)
    }

    function Desire(want: Table): Shared
      requires Valid()
    {
      var kept := Without(Unwanted(want));
      kept.(tables := kept.tables + [want], desired := |tables|, desiredSet := true, generation := generation + 1)
    }

    function Retained(active: set<Id>): Shared
      requires Valid()
    {
      var gone := clients.Keys - active;
      Without(gone).(generation := if gone != {} then generation + 1 else generation)
    }

    function Emptied(): Shared {
      Shared(map[], tables + [map[], map[]], |tables|, |tables| + 1, true, generation + 1)
    }
  }

  const INITIAL := Shared(map[], [map[], map[]], 0, 1, false, 0)

  /** The ids Apply decides to reuse when it takes its snapshot. */
  function ReusedIds(s: Shared, want: Table): set<Id>
    requires s.Valid()
  {
    set id <- want | s.Reusable(id, want)
  }

  /** The clients a map hands over: the values filed under the given ids. */
  function ClientsOf(clients: map<Id, Client>, ids: set<Id>): set<Client> {
    set id <- ids | id in clients :: clients[id]
  }

  predicate Injective(m: map<Id, Client>) {
    forall a <- m, b <- m :: m[a] == m[b] ==> a == b
  }

  // ----- Agreement: what the three maps say about each other

  /**
   * Every installed client has an active configuration with the connection it was dialled with, and, once a desired
   * set exists, a desired configuration with that connection too.
   */
  ghost predicate Agreement(s: Shared, dialled: map<Client, ClusterConfig>)
    requires s.Valid()
  {
    && s.clients.Keys == s.Configs().Keys
    && (forall id <- s.clients ::
          s.clients[id] in dialled && SameConnection(dialled[s.clients[id]], s.Configs()[id]))
    && (s.desiredSet ==>
          forall id <- s.clients :: id in s.Desired() && SameConnection(s.Configs()[id], s.Desired()[id]))
  }

  /** Upsert keeps the agreement, also when `configs` and `desired` are one table. */
  lemma PutKeepsAgreement(s: Shared, dialled: map<Client, ClusterConfig>, cfg: ClusterConfig, c: Client)
    requires s.Valid() && Agreement(s, dialled)
    requires s.Allows(cfg) && c in dialled && dialled[c] == cfg
    ensures s.Put(cfg, c).Valid() && Agreement(s.Put(cfg, c), dialled)
  {
    var t := s.Put(cfg, c);
    assert t.Configs() == s.Configs()[cfg.id := cfg];
    assert t.Desired() == if s.configs == s.desired then t.Configs() else s.Desired();
  }

  /** Upsert does not change which connections are desired. */
  lemma PutKeepsDesired(s: Shared, cfg: ClusterConfig, c: Client, cs: seq<ClusterConfig>)
    requires s.Valid() && s.desiredSet && s.Allows(cfg)
    ensures s.Put(cfg, c).Matches(cs) <==> s.Matches(cs)
  {
    var t := s.Put(cfg, c);
    assert t.Desired() == if s.configs == s.desired then s.Configs()[cfg.id := cfg] else s.Desired();
    assert t.Desired().Keys == s.Desired().Keys;
    assert forall id <- s.Desired() :: SameConnection(t.Desired()[id], s.Desired()[id]);
  }

  lemma RemovingNothing(s: Shared)
    requires s.Valid()
    ensures s.Without({}) == s
  {
    assert s.clients - {} == s.clients && s.Configs() - {} == s.Configs();
    assert s.tables[s.configs := s.Configs()] == s.tables;
  }

  lemma RemovalKeepsAgreement(s: Shared, dialled: map<Client, ClusterConfig>, ids: set<Id>)
    requires s.Valid() && Agreement(s, dialled)
    ensures s.Without(ids).Valid() && Agreement(s.Without(ids), dialled)
  {
    var t := s.Without(ids);
    assert t.Configs() == s.Configs() - ids;
    assert t.Desired() == if s.configs == s.desired then t.Configs() else s.Desired();
  }

  lemma DesireKeepsAgreement(s: Shared, dialled: map<Client, ClusterConfig>, want: Table)
    requires s.Valid() && Agreement(s, dialled)
    ensures s.Desire(want).Valid() && Agreement(s.Desire(want), dialled)
    ensures s.Desire(want).Desired() == want
  {
    var gone := s.Unwanted(want);
    RemovalKeepsAgreement(s, dialled, gone);
    assert s.Desire(want).Configs() == s.Configs() - gone;
  }

  /** What an Apply that decided at an earlier moment still knows when nothing has invalidated its snapshot. */
  ghost predicate StillReusable(s: Shared, want: Table, reused: set<Id>)
    requires s.Valid()
  {
    s.desiredSet && forall id <- reused :: s.Reusable(id, want)
  }

  /** An Upsert may replace a client Apply chose to reuse; the replacement is just as reusable. */
  lemma PutKeepsReusable(s: Shared, dialled: map<Client, ClusterConfig>, cfg: ClusterConfig, c: Client,
                         want: Table, reused: set<Id>)
    requires s.Valid() && Agreement(s, dialled) && s.Allows(cfg) && StillReusable(s, want, reused)
    ensures StillReusable(s.Put(cfg, c), want, reused)
  {
    var t := s.Put(cfg, c);
    assert t.Configs() == s.Configs()[cfg.id := cfg];
  }

  /** An Apply's commit keeps the agreement if and only if every reused client still has the wanted connection. */
  lemma InstallAgreesExactly(s: Shared, dialled: map<Client, ClusterConfig>, want: Table, reused: set<Id>,
                             created: map<Id, Client>)
    requires s.Valid() && Agreement(s, dialled) && reused <= s.clients.Keys
    requires want.Keys == created.Keys + reused && created.Keys !! reused
    requires forall id <- created :: created[id] in dialled && dialled[created[id]] == want[id]
    ensures s.Install(want, created).Valid()
    ensures Agreement(s.Install(want, created), dialled) <==>
            forall id <- reused :: id in s.Configs() && SameConnection(s.Configs()[id], want[id])
  {
    var t := s.Install(want, created);
    assert t.Configs() == want;
    forall id <- reused
      ensures t.clients[id] == s.clients[id]
      ensures id in s.Configs() && SameConnection(dialled[s.clients[id]], s.Configs()[id])
    {
    }
  }

  lemma InstallKeepsAgreement(s: Shared, dialled: map<Client, ClusterConfig>, want: Table, reused: set<Id>,
                              created: map<Id, Client>)
    requires s.Valid() && Agreement(s, dialled) && StillReusable(s, want, reused)
    requires want.Keys == created.Keys + reused
    requires forall id <- created :: created[id] in dialled && dialled[created[id]] == want[id]
    ensures s.Install(want, created).Valid() && Agreement(s.Install(want, created), dialled)
    ensures s.Install(want, created).Desired() == want
  {
    var t := s.Install(want, created);
    assert t.Configs() == want;
    forall id <- t.clients ensures t.clients[id] in dialled && SameConnection(dialled[t.clients[id]], want[id]) {
      if id !in created {
        assert s.Reusable(id, want);
      }
    }
  }
}
