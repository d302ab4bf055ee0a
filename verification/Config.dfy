/** Cluster configurations, and the part of a configuration a Kafka connection depends on. */
module Config {
  import opened Wrappers

  type Id = string

  datatype Security = Security(protocol: string, mechanism: string, username: string, password: string, tls: bool)

  datatype ClusterConfig = ClusterConfig(
    id: Id, name: string, brokers: seq<string>, enabled: Option<bool>, readOnly: bool, security: Security)

  /** Cluster configurations by id: the Go type `map[string]config.ClusterConfig`. */
  type Table = map<Id, ClusterConfig>

  /** A cluster is enabled unless its flag is present and false. */
  predicate IsEnabled(c: ClusterConfig) {
    c.enabled != Some(false)
  }

  predicate SameConnection(a: ClusterConfig, b: ClusterConfig) {
    a.brokers == b.brokers && a.security == b.security
  }

  predicate DistinctIds(cs: seq<ClusterConfig>) {
    forall i, j :: 0 <= i < j < |cs| ==> cs[i].id != cs[j].id
  }

  /** The enabled clusters by id; a later entry overwrites an earlier one with the same id. */
  function EnabledConfigs(cs: seq<ClusterConfig>): Table {
    if cs == [] then map[]
    else
      var rest, c := EnabledConfigs(cs[..|cs| - 1]), cs[|cs| - 1];
      if IsEnabled(c) then rest[c.id := c] else rest
  }

  /** The enabled clusters in order. */
  function EnabledClusters(cs: seq<ClusterConfig>): seq<ClusterConfig> {
    if cs == [] then []
    else
      var rest, c := EnabledClusters(cs[..|cs| - 1]), cs[|cs| - 1];
      if IsEnabled(c) then rest + [c] else rest
  }

  /** `want` lists the same ids as the enabled clusters, each with the same connection. */
  predicate MatchesTable(cs: seq<ClusterConfig>, want: Table) {
    var enabled := EnabledConfigs(cs);
    && enabled.Keys == want.Keys
    && forall id <- enabled :: SameConnection(want[id], enabled[id])
  }

  lemma {:induction false} EnabledConfigsStep(cs: seq<ClusterConfig>, n: nat)
    requires n < |cs|
    ensures EnabledConfigs(cs[..n + 1]) ==
            if IsEnabled(cs[n]) then EnabledConfigs(cs[..n])[cs[n].id := cs[n]] else EnabledConfigs(cs[..n])
  {
    assert cs[..n + 1][..n] == cs[..n];
  }

  /** Every entry of the table is one of the clusters, enabled and filed under its own id. */
  lemma {:induction false} EnabledConfigsSound(cs: seq<ClusterConfig>)
    ensures forall id <- EnabledConfigs(cs) ::
              var c := EnabledConfigs(cs)[id]; c in cs && c.id == id && c.enabled != Some(false)
  {
    if cs != [] {
      EnabledConfigsSound(cs[..|cs| - 1]);
    }
  }

  /** With distinct ids, every enabled cluster is in the table under its own id. */
  lemma {:induction false} EnabledConfigsComplete(cs: seq<ClusterConfig>)
    requires DistinctIds(cs)
    ensures forall c <- cs :: c.enabled != Some(false) ==> c.id in EnabledConfigs(cs) && EnabledConfigs(cs)[c.id] == c
  {
    if cs != [] {
      EnabledConfigsComplete(cs[..|cs| - 1]);
      assert cs == cs[..|cs| - 1] + [cs[|cs| - 1]];
    }
  }

  /** With distinct ids, a position not reached yet has an id the table built so far does not hold. */
  lemma {:induction false} EnabledConfigsFresh(cs: seq<ClusterConfig>, n: nat)
    requires DistinctIds(cs) && n < |cs|
    ensures cs[n].id !in EnabledConfigs(cs[..n])
  {
    EnabledConfigsSound(cs[..n]);
  }

  /** The ordered list and the table hold the same clusters. */
  lemma {:induction false} EnabledClustersSound(cs: seq<ClusterConfig>)
    ensures forall c <- EnabledClusters(cs) :: c in cs && c.enabled != Some(false)
    ensures forall c <- cs :: c.enabled != Some(false) ==> c in EnabledClusters(cs)
  {
    if cs != [] {
      EnabledClustersSound(cs[..|cs| - 1]);
      assert cs == cs[..|cs| - 1] + [cs[|cs| - 1]];
    }
  }

  lemma {:induction false} EnabledClustersDistinct(cs: seq<ClusterConfig>)
    requires DistinctIds(cs)
    ensures DistinctIds(EnabledClusters(cs))
  {
    if cs != [] {
      var front, last := cs[..|cs| - 1], cs[|cs| - 1];
      EnabledClustersDistinct(front);
      EnabledClustersSound(front);
      forall i | 0 <= i < |EnabledClusters(front)| ensures EnabledClusters(front)[i].id != last.id {
        assert EnabledClusters(front)[i] in front;
        var k :| 0 <= k < |front| && front[k] == EnabledClusters(front)[i];
        assert cs[k].id != cs[|cs| - 1].id;
      }
    }
  }

  /** The first cluster with the id. */
  function FindCluster(cs: seq<ClusterConfig>, id: Id): Option<ClusterConfig> {
    if cs == [] then None else if cs[0].id == id then Some(cs[0]) else FindCluster(cs[1..], id)
  }

  lemma {:induction false} FindMember(cs: seq<ClusterConfig>, c: ClusterConfig)
    requires DistinctIds(cs) && c in cs
    ensures FindCluster(cs, c.id) == Some(c)
  {
    if cs[0] != c {
      var k :| 0 < k < |cs| && cs[k] == c;
      assert cs[1..][k - 1] == c;
      FindMember(cs[1..], c);
    }
  }
}
