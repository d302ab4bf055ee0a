/**
 * The server's configuration handlers in the form they have in the program: one after the other on the fields they
 * update, with the manager of module Manager below them and nothing running in between.
 */
module Server {
  import opened Wrappers
  import opened Config
  import opened ClusterState
  import opened ClusterMachine
  import opened ServerMachine
  import Cluster = Manager

  /** A whole configuration: the login secrets and the clusters are what the handlers look at. */
  datatype Settings = Settings(username: string, password: string, passwordHash: string, clusters: seq<ClusterConfig>)

  // ----- Secrets

  /** What the configuration endpoint shows: every secret blanked. */
  function Redacted(s: Settings): Settings {
    s.(password := "", passwordHash := "",
       clusters := seq(|s.clusters|, i requires 0 <= i < |s.clusters| => RedactedCluster(s.clusters[i])))
  }

  function RedactedCluster(c: ClusterConfig): ClusterConfig {
    c.(security := c.security.(password := ""))
  }

  /** A blank cluster password stands for the one configured under the same id. */
  function MergedCluster(c: ClusterConfig, current: seq<ClusterConfig>): ClusterConfig {
    var found := FindCluster(current, c.id);
    if c.security.password == "" && found.Some?
    then c.(security := c.security.(password := found.value.security.password))
    else c
  }

  function Merged(candidate: Settings, current: Settings): Settings {
    candidate.(
      passwordHash := if candidate.passwordHash == "" then current.passwordHash else candidate.passwordHash,
      password := if candidate.password == "" then current.password else candidate.password,
      clusters := seq(|candidate.clusters|, i requires 0 <= i < |candidate.clusters| =>
        MergedCluster(candidate.clusters[i], current.clusters)))
  }

  /** The endpoint shows no secret, and everything else as it is. */
  lemma NoSecretIsShown(s: Settings)
    ensures var shown := Redacted(s);
            && |shown.password| == |shown.passwordHash| == 0 && shown.username == s.username
            && |shown.clusters| == |s.clusters|
            && forall i :: 0 <= i < |s.clusters| ==>
                 && |shown.clusters[i].security.password| == 0
                 && s.clusters[i] == shown.clusters[i].(
                      security := shown.clusters[i].security.(password := s.clusters[i].security.password))
  {
  }

  /** Sending back what the endpoint showed changes nothing: every blanked secret is filled in again. */
  lemma RedactedMergesBack(current: Settings)
    requires DistinctIds(current.clusters)
    ensures Merged(Redacted(current), current) == current
  {
    forall i | 0 <= i < |current.clusters|
      ensures MergedCluster(RedactedCluster(current.clusters[i]), current.clusters) == current.clusters[i]
    {
      FindIndex(current.clusters, i);
    }
    assert Merged(Redacted(current), current).clusters == current.clusters;
  }

  lemma {:induction false} FindIndex(cs: seq<ClusterConfig>, i: nat)
    requires DistinctIds(cs) && i < |cs|
    ensures FindCluster(cs, cs[i].id) == Some(cs[i])
  {
    if i > 0 {
      assert cs[1..][i - 1] == cs[i];
      FindIndex(cs[1..], i - 1);
    }
  }

  /**
   * Only blanks are filled: a secret the candidate states, and everything that is not a secret, is kept; a blank login
   * secret becomes the current one, and a blank cluster password that of the first current cluster with the same id.
   */
  lemma MergeFillsOnlyBlanks(candidate: Settings, current: Settings, i: nat)
    requires i < |candidate.clusters|
    ensures var merged := Merged(candidate, current);
            && merged.username == candidate.username && |merged.clusters| == |candidate.clusters|
            && merged.password == (if |candidate.password| > 0 then candidate.password else current.password)
            && merged.passwordHash == (if |candidate.passwordHash| > 0 then candidate.passwordHash else current.passwordHash)
    ensures var c, m := candidate.clusters[i], Merged(candidate, current).clusters[i];
            && m == c.(security := c.security.(password := m.security.password))
            && (|c.security.password| > 0 ==> m == c)
            && (|c.security.password| == 0 ==>
                  || (m == c && forall k :: 0 <= k < |current.clusters| ==> current.clusters[k].id != c.id)
                  || exists k :: 0 <= k < |current.clusters| && FirstWith(current.clusters, k, c.id)
                                 && m.security.password == current.clusters[k].security.password)
  {
    FindIsFirst(current.clusters, candidate.clusters[i].id);
  }

  /** Position `k` is the first with the id. */
  ghost predicate FirstWith(cs: seq<ClusterConfig>, k: nat, id: Id)
    requires k < |cs|
  {
    cs[k].id == id && forall j :: 0 <= j < k ==> cs[j].id != id
  }

  lemma {:induction false} FindIsFirst(cs: seq<ClusterConfig>, id: Id)
    ensures FindCluster(cs, id).Some? ==>
              exists k :: 0 <= k < |cs| && FirstWith(cs, k, id) && FindCluster(cs, id).value == cs[k]
    ensures FindCluster(cs, id).None? ==> forall k :: 0 <= k < |cs| ==> cs[k].id != id
  {
    if cs != [] && cs[0].id == id {
      assert FirstWith(cs, 0, id);
    } else if cs != [] {
      FindIsFirst(cs[1..], id);
      if FindCluster(cs, id).Some? {
        var k :| 0 <= k < |cs[1..]| && FirstWith(cs[1..], k, id) && FindCluster(cs, id).value == cs[1..][k];
        forall j | 0 <= j < k + 1 ensures cs[j].id != id {
          assert j > 0 ==> cs[j] == cs[1..][j - 1];
        }
        assert FirstWith(cs, k + 1, id);
      }
      forall k | 0 <= k < |cs| ensures FindCluster(cs, id).None? ==> cs[k].id != id {
        assert k > 0 ==> cs[k] == cs[1..][k - 1];
      }
    }
  }

  datatype Status = Published | Invalid | ConnectionFailed | SaveFailed | SaveAndRollbackFailed

  /** The table holds the connections of the enabled clusters: the same ids, brokers and security. */
  ghost predicate Connects(table: Table, cs: seq<ClusterConfig>) {
    var enabled := EnabledConfigs(cs);
    && table.Keys == enabled.Keys
    && forall id <- enabled :: table[id].brokers == enabled[id].brokers && table[id].security == enabled[id].security
  }

  /** The store as the handlers see it: what was handed to Save, and whether it was taken. */
  class ConfigStore {
    ghost var saves: seq<(Settings, bool)>

    constructor ()
      ensures saves == []
    {
      saves := [];
    }

    method Save(candidate: Settings) returns (ok: bool)
      modifies this
      ensures saves == old(saves) + [(candidate, ok)]
    {
      ok := *;
      saves := saves + [(candidate, ok)];
    }
  }

  /** What a change that ended in this way has handed to the store. */
  function Handed(status: Status, candidate: Settings): seq<(Settings, bool)> {
    match status
    case Invalid => []
    case ConnectionFailed => []
    case Published => [(candidate, true)]
    case SaveFailed => [(candidate, false)]
    case SaveAndRollbackFailed => [(candidate, false)]
  }

  /** No client failed to be made or to answer. */
  ghost predicate Untroubled(before: Cluster.Answers, after: Cluster.Answers) {
    after.refused == before.refused && after.silent == before.silent
  }

  class ConfigServer {
    var cfg: Settings
    var monitored: seq<ClusterConfig>
    const clusters: Cluster.Manager
    const store: ConfigStore

    ghost predicate Valid()
      reads this, clusters, clusters.configs, clusters.desired, clusters.net
    {
      clusters.Valid() && clusters.Owns() && DistinctIds(cfg.clusters)
    }

    /** The manager's desired connections, the served configuration and the sampled clusters are one. */
    ghost predicate Agrees()
      requires Valid()
      reads this, clusters, clusters.configs, clusters.desired, clusters.net
    {
      && clusters.desiredSet && Connects(clusters.desired.entries, cfg.clusters)
      && monitored == EnabledClusters(cfg.clusters)
    }

    constructor (cfg: Settings, clusters: Cluster.Manager, store: ConfigStore)
      requires DistinctIds(cfg.clusters) && clusters.Valid() && clusters.Owns()
      modifies clusters, clusters.configs, clusters.net`closed
      ensures Valid() && Agrees() && this.cfg == cfg && this.clusters == clusters && this.store == store
    {
      this.cfg, this.clusters, this.store := cfg, clusters, store;
      monitored := EnabledClusters(cfg.clusters);
      new;
      clusters.SetDesired(cfg.clusters);
    }

    /** Reconnects exactly when the requested connections are not the desired ones already. */
    method ApplyClustersIfChanged(requested: seq<ClusterConfig>) returns (ok: bool, changed: bool)
      requires Valid() && DistinctIds(requested)
      modifies clusters, clusters.net
      ensures Valid() && (clusters.configs == old(clusters.configs) || fresh(clusters.configs))
      ensures ok ==> clusters.desiredSet && Connects(clusters.desired.entries, requested)
      ensures ok ==> changed == !(old(clusters.desiredSet) && Connects(old(clusters.desired.entries), requested))
      ensures !changed ==> clusters.view == old(clusters.view)
      ensures !ok ==> !changed && !(old(clusters.desiredSet) && Connects(old(clusters.desired.entries), requested))
      ensures ok && !changed ==>
                clusters.net.Log() == old(clusters.net.Log()) && clusters.net.closed == old(clusters.net.closed)
      ensures ok <==> Untroubled(old(clusters.net.Log()), clusters.net.Log())
    {
      var matches := clusters.Matches(requested);
      if matches {
        return true, false;
      }
      var outcome := clusters.Apply(requested);
      ok, changed := outcome == Succeeded, outcome == Succeeded;
    }

    /** Reconnects to the previous clusters, or at least makes them authoritative again. */
    method RollbackClusters(previous: seq<ClusterConfig>) returns (ok: bool)
      requires Valid() && DistinctIds(previous)
      modifies clusters, clusters.configs, clusters.net
      ensures Valid() && clusters.desiredSet && Connects(clusters.desired.entries, previous)
      ensures ok <==> Untroubled(old(clusters.net.Log()), clusters.net.Log())
    {
      var outcome := clusters.Apply(previous);
      if outcome != Succeeded {
        clusters.SetDesired(previous);
        return false;
      }
      ok := true;
    }

    /** Publishes without asking the manager; the three agree afterwards if the manager connects to these clusters. */
    method UpdateConfig(updated: Settings)
      requires Valid() && DistinctIds(updated.clusters)
      modifies this
      ensures Valid() && cfg == updated && monitored == EnabledClusters(updated.clusters)
      ensures Agrees() <==> clusters.desiredSet && Connects(clusters.desired.entries, updated.clusters)
    {
      cfg := updated;
      monitored := EnabledClusters(updated.clusters);
    }

    /** `checks` are the checks of Validate besides distinct ids. */
    method PutConfig(request: Settings, checks: Settings -> bool) returns (status: Status)
      requires Valid() && Agrees()
      modifies this, clusters, clusters.configs, clusters.net, store
      ensures Valid() && Agrees()
      ensures cfg == if status == Published then Merged(request, old(cfg)) else old(cfg)
      ensures var cs := Merged(request, old(cfg)).clusters;
              status == Invalid <==>
              !((forall i, j :: 0 <= i < j < |cs| ==> cs[i].id != cs[j].id) && checks(Merged(request, old(cfg))))
      ensures store.saves == old(store.saves) + Handed(status, Merged(request, old(cfg)))
      ensures Untroubled(old(clusters.net.Log()), clusters.net.Log()) <==> status in {Invalid, SaveFailed, Published}
      ensures Connects(old(clusters.desired.entries), Merged(request, old(cfg)).clusters) ==>
                clusters.net.Log() == old(clusters.net.Log()) && clusters.net.closed == old(clusters.net.closed)
      ensures status in {Invalid, ConnectionFailed} ==> clusters.view == old(clusters.view)
    {
      var current := cfg;
      var candidate := FillSecrets(request, current);
      if !(DistinctIds(candidate.clusters) && checks(candidate)) {
        return Invalid;
      }
      status := Replace(candidate);
    }

    /** The two loops that put configured secrets where the candidate left blanks. */
    method FillSecrets(request: Settings, current: Settings) returns (candidate: Settings)
      ensures candidate == Merged(request, current)
    {
      candidate := request;
      if candidate.passwordHash == "" {
        candidate := candidate.(passwordHash := current.passwordHash);
      }
      if candidate.password == "" {
        candidate := candidate.(password := current.password);
      }
      for i := 0 to |request.clusters|
        invariant candidate == Merged(request, current).(clusters := candidate.clusters)
        invariant |candidate.clusters| == |request.clusters|
        invariant forall k :: 0 <= k < i ==> candidate.clusters[k] == MergedCluster(request.clusters[k], current.clusters)
        invariant forall k :: i <= k < |request.clusters| ==> candidate.clusters[k] == request.clusters[k]
      {
        var c := candidate.clusters[i];
        if c.security.password == "" {
          var j := 0;
          while j < |current.clusters| && current.clusters[j].id != c.id
            invariant 0 <= j <= |current.clusters|
            invariant FindCluster(current.clusters, c.id) == FindCluster(current.clusters[j..], c.id)
          {
            j := j + 1;
          }
          if j < |current.clusters| {
            var security := c.security.(password := current.clusters[j].security.password);
            candidate := candidate.(clusters := candidate.clusters[i := c.(security := security)]);
          }
        }
      }
      assert candidate.clusters == Merged(request, current).clusters;
    }

    /** The part putConfig and restoreConfigBackup share: connect, save, publish, or go back. */
    method Replace(candidate: Settings) returns (status: Status)
      requires Valid() && Agrees() && DistinctIds(candidate.clusters)
      modifies this, clusters, clusters.configs, clusters.net, store
      ensures Valid() && Agrees() && status != Invalid
      ensures cfg == if status == Published then candidate else old(cfg)
      ensures store.saves == old(store.saves) + Handed(status, candidate)
      ensures Untroubled(old(clusters.net.Log()), clusters.net.Log()) <==> status in {SaveFailed, Published}
      ensures Connects(old(clusters.desired.entries), candidate.clusters) ==>
                clusters.net.Log() == old(clusters.net.Log()) && clusters.net.closed == old(clusters.net.closed)
      ensures status == ConnectionFailed ==> clusters.view == old(clusters.view)
    {
      var current := cfg;
      var ok, changed := ApplyClustersIfChanged(candidate.clusters);
      if !ok {
        return ConnectionFailed;
      }
      var saved := store.Save(candidate);
      if !saved {
        if changed {
          var back := RollbackClusters(current.clusters);
          if !back {
            return SaveAndRollbackFailed;
          }
        }
        return SaveFailed;
      }
      UpdateConfig(candidate);
      status := Published;
    }

    /** `backup` is what loading and decrypting the backup gave; an accepted one has passed Validate. */
    method RestoreConfigBackup(backup: Option<Settings>) returns (status: Status)
      requires Valid() && Agrees() && (backup.Some? ==> DistinctIds(backup.value.clusters))
      modifies this, clusters, clusters.configs, clusters.net, store
      ensures Valid() && Agrees()
      ensures status == Invalid <==> backup.None?
      ensures cfg == if status == Published then backup.value else old(cfg)
      ensures store.saves == old(store.saves) + if backup.Some? then Handed(status, backup.value) else []
      ensures Untroubled(old(clusters.net.Log()), clusters.net.Log()) <==> status in {Invalid, SaveFailed, Published}
      ensures backup.Some? && Connects(old(clusters.desired.entries), backup.value.clusters) ==>
                clusters.net.Log() == old(clusters.net.Log()) && clusters.net.closed == old(clusters.net.closed)
      ensures status in {Invalid, ConnectionFailed} ==> clusters.view == old(clusters.view)
    {
      if backup.None? {
        return Invalid;
      }
      status := Replace(backup.value);
    }

    /** A reload of the configuration file: connect and publish, nothing to save. */
    method ReconcileConfig(updated: Settings) returns (ok: bool)
      requires Valid() && Agrees() && DistinctIds(updated.clusters)
      modifies this, clusters, clusters.net
      ensures Valid() && Agrees()
      ensures cfg == if ok then updated else old(cfg)
      ensures ok <==> Untroubled(old(clusters.net.Log()), clusters.net.Log())
      ensures Connects(old(clusters.desired.entries), updated.clusters) ==>
                clusters.net.Log() == old(clusters.net.Log()) && clusters.net.closed == old(clusters.net.closed)
      ensures !ok ==> clusters.view == old(clusters.view)
    {
      var changed;
      ok, changed := ApplyClustersIfChanged(updated.clusters);
      if ok {
        UpdateConfig(updated);
      }
    }
  }
}
