/** Update and Refresh keep the sampler's maps a summary of the log of accepted samples. */
module SamplerLog {
  import opened Wrappers
  import opened Config
  import opened SamplerState

  // ----- Sequences

  lemma SuffixOfLast<T>(s: seq<T>, whole: seq<T>, n: nat)
    requires IsSuffix(s, whole)
    ensures IsSuffix(Last(s, n), whole)
  {
  }

  lemma SuffixGrows<T>(s: seq<T>, whole: seq<T>, x: T, n: nat)
    requires IsSuffix(s, whole)
    ensures IsSuffix(Last(s + [x], n), whole + [x])
  {
    var t, w := s + [x], whole + [x];
    assert t == w[|w| - |t|..];
  }

  // ----- Tables of configurations that are all enabled

  lemma TableOfEnabled(cs: seq<ClusterConfig>, cfg: ClusterConfig)
    requires Listed(cs) && cfg in cs
    ensures cfg.id in EnabledConfigs(cs) && EnabledConfigs(cs)[cfg.id] == cfg
    ensures FindCluster(cs, cfg.id) == Some(cfg)
  {
    EnabledConfigsComplete(cs);
    FindMember(cs, cfg);
  }

  /** The configuration a sample belongs to is the one in the table. */
  lemma CurrentIsListed(c: Core, sampled: ClusterConfig)
    requires Listed(c.configs)
    ensures var table := EnabledConfigs(c.configs);
            Current(c, sampled) ==
            if sampled.id in table && SameConnection(table[sampled.id], sampled) then Some(table[sampled.id]) else None
  {
    EnabledConfigsSound(c.configs);
    FindIsListed(c.configs, sampled.id);
    var found := FindCluster(c.configs, sampled.id);
    if found.Some? {
      TableOfEnabled(c.configs, found.value);
    }
  }

  lemma {:induction false} FindIsListed(cs: seq<ClusterConfig>, id: Id)
    ensures FindCluster(cs, id).Some? ==> FindCluster(cs, id).value in cs && FindCluster(cs, id).value.id == id
    ensures FindCluster(cs, id).None? ==> forall c <- cs :: c.id != id
  {
    if cs != [] {
      assert forall c <- cs :: c == cs[0] || c in cs[1..];
      FindIsListed(cs[1..], id);
    }
  }

  // ----- Update

  lemma EnabledIsListed(configs: seq<ClusterConfig>)
    requires DistinctIds(configs)
    ensures Listed(EnabledClusters(configs))
    ensures forall id <- EnabledConfigs(EnabledClusters(configs)) ::
              EnabledConfigs(EnabledClusters(configs))[id].id == id
  {
    EnabledClustersSound(configs);
    EnabledClustersDistinct(configs);
    EnabledConfigsSound(EnabledClusters(configs));
  }

  lemma EachSummarises(c: Core, log: Log)
    requires Listed(c.configs) && Keyed(c, log)
    requires forall id <- log :: SummarisesOne(c, id, EnabledConfigs(c.configs)[id], log[id])
    ensures Summarises(c, log)
  {
  }

  lemma UpdateSummarisesAt(c: Core, log: Log, configs: seq<ClusterConfig>, options: Options, id: Id)
    requires Summarises(c, log) && DistinctIds(configs) && id in EnabledConfigs(EnabledClusters(configs))
    ensures var want := EnabledConfigs(EnabledClusters(configs));
            SummarisesOne(Updated(c, configs, options), id, want[id],
                          if id in log && KeepsConnection(c, want[id]) then log[id] else [])
  {
    EnabledIsListed(configs);
    var cfg := EnabledConfigs(EnabledClusters(configs))[id];
    if KeepsConnection(c, cfg) {
      SummaryOf(c, log, id);
    }
    UpdateSummarisesOne(c, log, Updated(c, configs, options), id, cfg);
  }

  lemma UpdateStaysKeyed(c: Core, log: Log, configs: seq<ClusterConfig>, options: Options)
    requires DistinctIds(configs)
    ensures Updated(c, configs, options).configs == EnabledClusters(configs)
    ensures UpdatedLog(c, log, configs).Keys == EnabledConfigs(EnabledClusters(configs)).Keys
    ensures Keyed(Updated(c, configs, options), UpdatedLog(c, log, configs))
  {
    EnabledIsListed(configs);
  }

  lemma UpdatedLogAt(c: Core, log: Log, configs: seq<ClusterConfig>, id: Id)
    requires id in UpdatedLog(c, log, configs)
    ensures var want := EnabledConfigs(EnabledClusters(configs));
            && id in want
            && UpdatedLog(c, log, configs)[id] == if id in log && KeepsConnection(c, want[id]) then log[id] else []
  {
  }

  lemma UpdateSummarises(c: Core, log: Log, configs: seq<ClusterConfig>, options: Options)
    requires Summarises(c, log) && DistinctIds(configs)
    ensures Summarises(Updated(c, configs, options), UpdatedLog(c, log, configs))
  {
    var t, updated := Updated(c, configs, options), UpdatedLog(c, log, configs);
    EnabledIsListed(configs);
    UpdateStaysKeyed(c, log, configs, options);
    forall id <- updated ensures SummarisesOne(t, id, EnabledConfigs(t.configs)[id], updated[id]) {
      UpdatedLogAt(c, log, configs, id);
      UpdateSummarisesAt(c, log, configs, options, id);
    }
    EachSummarises(t, updated);
  }

  lemma SummaryOf(c: Core, log: Log, id: Id)
    requires Summarises(c, log) && (id in log || id in c.items || id in c.history || id in EnabledConfigs(c.configs))
    ensures id in EnabledConfigs(c.configs) && id in log
    ensures SummarisesOne(c, id, EnabledConfigs(c.configs)[id], log[id])
  {
  }

  lemma UpdateSummarisesOne(c: Core, log: Log, t: Core, id: Id, cfg: ClusterConfig)
    requires cfg.id == id && t.options.historyPoints >= 0
    requires KeepsConnection(c, cfg) ==> id in log && SummarisesOne(c, id, EnabledConfigs(c.configs)[id], log[id])
    requires id in t.items && t.items[id] == UpdatedItem(c, cfg)
    requires id in t.history && t.history[id] == UpdatedHistory(c, cfg, t.options.historyPoints)
    requires id in t.retries <==> id in c.retries && KeepsConnection(c, cfg)
    requires id in t.retries ==> t.retries[id] == c.retries[id]
    ensures SummarisesOne(t, id, cfg, if id in log && KeepsConnection(c, cfg) then log[id] else [])
  {
    if KeepsConnection(c, cfg) {
      SuffixOfLast(Points(c, id), PointsOf(log[id]), t.options.historyPoints);
    }
  }

  // ----- Accepting a sample

  lemma AcceptStaysKeyed(c: Core, log: Log, sampled: ClusterConfig, snapshot: Snapshot, now: int)
    requires Keyed(c, log) && c.options.historyPoints >= 0
    requires Current(c, sampled).Some? ==> sampled.id in log
    ensures Keyed(Accepted(c, sampled, snapshot, now), AcceptedLog(c, log, sampled, snapshot, now))
    ensures Accepted(c, sampled, snapshot, now).configs == c.configs
    ensures Accepted(c, sampled, snapshot, now).options == c.options
  {
  }

  lemma AcceptSummarisesEach(c: Core, samples: seq<Sample>, cfg: ClusterConfig, sampled: ClusterConfig, snapshot: Snapshot,
                             now: int, id: Id)
    requires SummarisesOne(c, id, cfg, samples) && c.options.historyPoints >= 0 && snapshot.id == sampled.id
    requires id == sampled.id ==> Current(c, sampled) == Some(cfg) && SameConnection(sampled, cfg)
    ensures SummarisesOne(Accepted(c, sampled, snapshot, now), id, cfg,
                          if id == sampled.id then samples + [Sample(sampled, snapshot, now, c.options.interval)] else samples)
  {
    if id == sampled.id {
      AcceptSummarisesOne(c, id, samples, cfg, sampled, snapshot, now);
    } else {
      AcceptKeepsOthers(c, id, samples, cfg, sampled, snapshot, now);
    }
  }

  lemma AcceptedLogAt(c: Core, log: Log, sampled: ClusterConfig, snapshot: Snapshot, now: int, id: Id)
    requires Current(c, sampled).Some? && id in log && sampled.id in log
    ensures var longer := AcceptedLog(c, log, sampled, snapshot, now);
            && longer.Keys == log.Keys
            && longer[id] ==
               if id == sampled.id then log[id] + [Sample(sampled, snapshot, now, c.options.interval)] else log[id]
  {
  }

  lemma AcceptSummarisesAt(c: Core, log: Log, sampled: ClusterConfig, snapshot: Snapshot, now: int, id: Id)
    requires Summarises(c, log) && c.options.historyPoints >= 0 && snapshot.id == sampled.id && id in log
    requires Current(c, sampled).Some? && sampled.id in log
    ensures var longer := AcceptedLog(c, log, sampled, snapshot, now);
            && id in EnabledConfigs(c.configs) && longer.Keys == log.Keys
            && SummarisesOne(Accepted(c, sampled, snapshot, now), id, EnabledConfigs(c.configs)[id], longer[id])
  {
    CurrentIsListed(c, sampled);
    SummaryOf(c, log, id);
    AcceptedLogAt(c, log, sampled, snapshot, now, id);
    AcceptSummarisesEach(c, log[id], EnabledConfigs(c.configs)[id], sampled, snapshot, now, id);
  }

  lemma AcceptSummarises(c: Core, log: Log, sampled: ClusterConfig, snapshot: Snapshot, now: int)
    requires Summarises(c, log) && c.options.historyPoints >= 0 && snapshot.id == sampled.id
    ensures Summarises(Accepted(c, sampled, snapshot, now), AcceptedLog(c, log, sampled, snapshot, now))
  {
    if Current(c, sampled).Some? {
      CurrentIsListed(c, sampled);
      SummaryOf(c, log, sampled.id);
      AcceptStaysKeyed(c, log, sampled, snapshot, now);
      var t, longer := Accepted(c, sampled, snapshot, now), AcceptedLog(c, log, sampled, snapshot, now);
      AcceptedLogAt(c, log, sampled, snapshot, now, sampled.id);
      forall id <- longer ensures SummarisesOne(t, id, EnabledConfigs(c.configs)[id], longer[id]) {
        AcceptSummarisesAt(c, log, sampled, snapshot, now, id);
      }
      EachSummarises(t, longer);
    }
  }

  lemma AcceptKeepsOthers(c: Core, id: Id, samples: seq<Sample>, cfg: ClusterConfig, sampled: ClusterConfig,
                          snapshot: Snapshot, now: int)
    requires SummarisesOne(c, id, cfg, samples) && c.options.historyPoints >= 0 && id != sampled.id
    ensures SummarisesOne(Accepted(c, sampled, snapshot, now), id, cfg, samples)
  {
  }

  lemma AcceptSummarisesOne(c: Core, id: Id, samples: seq<Sample>, cfg: ClusterConfig, sampled: ClusterConfig,
                            snapshot: Snapshot, now: int)
    requires SummarisesOne(c, id, cfg, samples) && c.options.historyPoints >= 0
    requires Current(c, sampled) == Some(cfg) && snapshot.id == sampled.id == id && SameConnection(sampled, cfg)
    ensures SummarisesOne(Accepted(c, sampled, snapshot, now), id, cfg,
                          samples + [Sample(sampled, snapshot, now, c.options.interval)])
  {
    var longer := samples + [Sample(sampled, snapshot, now, c.options.interval)];
    assert longer[..|longer| - 1] == samples;
    if snapshot.status == Online && snapshot.lagAvailable {
      SuffixGrows(Points(c, id), PointsOf(samples), PointOf(snapshot), c.options.historyPoints);
    }
  }

  // ----- What a summary says

  /** The items and histories belong to exactly the current clusters, and every item carries its current labels. */
  lemma SummaryIsCurrent(c: Core, log: Log, cfg: ClusterConfig)
    requires Summarises(c, log) && cfg in c.configs
    ensures cfg.id in c.items && cfg.id in c.history && cfg.id in log
    ensures c.items[cfg.id].id == cfg.id && c.items[cfg.id].name == cfg.name
    ensures c.items[cfg.id].readOnly == cfg.readOnly
    ensures c.items[cfg.id].status == Loading || log[cfg.id] != []
    ensures forall s <- log[cfg.id] :: s.cfg.id == cfg.id && SameConnection(s.cfg, cfg)
    ensures forall id <- c.items :: exists k :: 0 <= k < |c.configs| && c.configs[k].id == id
  {
    TableOfEnabled(c.configs, cfg);
    SummaryOf(c, log, cfg.id);
    EnabledConfigsSound(c.configs);
    forall id <- c.items ensures exists k :: 0 <= k < |c.configs| && c.configs[k].id == id {
      assert EnabledConfigs(c.configs)[id] in c.configs;
    }
  }

  /** The history is as long as the log and the option allow: nothing was cut that need not have been. */
  ghost predicate Exact(c: Core, log: Log) {
    forall id <- log :: ExactOne(Points(c, id), log[id], c.options.historyPoints)
  }

  predicate ExactOne(points: seq<Point>, samples: seq<Sample>, historyPoints: int) {
    |points| == Min(|PointsOf(samples)|, historyPoints)
  }

  /** An exact summary holds the newest points, as many as fit. */
  lemma ExactMeansNewest(c: Core, log: Log, id: Id)
    requires Summarises(c, log) && Exact(c, log) && id in c.history && c.options.historyPoints >= 0
    ensures id in log && c.history[id] == Last(PointsOf(log[id]), c.options.historyPoints)
  {
    SummaryOf(c, log, id);
    assert ExactOne(Points(c, id), log[id], c.options.historyPoints);
  }

  lemma AcceptStaysExact(c: Core, log: Log, sampled: ClusterConfig, snapshot: Snapshot, now: int)
    requires Exact(c, log) && c.options.historyPoints >= 0 && (sampled.id in c.history <==> sampled.id in log)
    requires Current(c, sampled).Some? ==> sampled.id in log
    ensures Exact(Accepted(c, sampled, snapshot, now), AcceptedLog(c, log, sampled, snapshot, now))
  {
    if Current(c, sampled).Some? {
      var t, longer := Accepted(c, sampled, snapshot, now), AcceptedLog(c, log, sampled, snapshot, now);
      assert longer[sampled.id][..|log[sampled.id]|] == log[sampled.id];
      forall id <- longer ensures ExactOne(Points(t, id), longer[id], t.options.historyPoints) {
        assert ExactOne(Points(c, id), log[id], c.options.historyPoints);
      }
    }
  }

  /** The new option cuts nothing that the old one had already cut. */
  predicate NotRegrown(samples: seq<Sample>, before: int, after: int) {
    after <= before || |PointsOf(samples)| <= before
  }

  /**
   * Whether an Update keeps the histories exact: it does if and only if no surviving log that was cut before is now
   * allowed more points. A constant or shrinking option always keeps them exact.
   */
  lemma UpdateStaysExact(c: Core, log: Log, configs: seq<ClusterConfig>, options: Options)
    requires Keyed(c, log) && Exact(c, log) && c.options.historyPoints >= 0 && DistinctIds(configs)
    ensures var t, updated := Updated(c, configs, options), UpdatedLog(c, log, configs);
            Exact(t, updated) <==>
            forall id <- updated :: KeepsConnection(c, EnabledConfigs(t.configs)[id]) ==>
              id in log && NotRegrown(log[id], c.options.historyPoints, t.options.historyPoints)
  {
    var t, updated := Updated(c, configs, options), UpdatedLog(c, log, configs);
    EnabledIsListed(configs);
    forall id <- updated
      ensures ExactOne(Points(t, id), updated[id], t.options.historyPoints) <==>
              (KeepsConnection(c, EnabledConfigs(t.configs)[id]) ==>
                 id in log && NotRegrown(log[id], c.options.historyPoints, t.options.historyPoints))
    {
      if KeepsConnection(c, EnabledConfigs(t.configs)[id]) {
        assert ExactOne(Points(c, id), log[id], c.options.historyPoints);
      }
    }
  }

  // ----- Recovering from a raise of the option

  /** How many points of a log the history is short of. */
  function Lacking(c: Core, log: Log, id: Id): nat {
    if id in log && |PointsOf(log[id])| >= |Points(c, id)| then |PointsOf(log[id])| - |Points(c, id)| else 0
  }

  /** Apart from the points it lacked at an earlier moment, each history is as long as the log and the option allow. */
  ghost predicate Covers(c: Core, log: Log, c0: Core, log0: Log) {
    forall id <- log :: CoversOne(Points(c, id), log[id], Lacking(c0, log0, id), c.options.historyPoints)
  }

  predicate CoversOne(points: seq<Point>, samples: seq<Sample>, lacking: nat, historyPoints: int) {
    |points| >= Min(|PointsOf(samples)| - lacking, historyPoints)
  }

  lemma CoversItself(c: Core, log: Log)
    ensures Covers(c, log, c, log)
  {
  }

  lemma LastCovers(points: seq<Point>, samples: seq<Sample>, lacking: nat, before: nat, after: nat)
    requires CoversOne(points, samples, lacking, before) && after <= before
    ensures CoversOne(Last(points, after), samples, lacking, after)
  {
  }

  lemma MoreCovers(points: seq<Point>, samples: seq<Sample>, s: Sample, lacking: nat, historyPoints: nat)
    requires CoversOne(points, samples, lacking, historyPoints)
    ensures s.snapshot.status == Online && s.snapshot.lagAvailable ==>
              CoversOne(Last(points + [PointOf(s.snapshot)], historyPoints), samples + [s], lacking, historyPoints)
    ensures !(s.snapshot.status == Online && s.snapshot.lagAvailable) ==>
              CoversOne(points, samples + [s], lacking, historyPoints)
  {
    assert (samples + [s])[..|samples|] == samples;
  }

  lemma AcceptedPointsAt(c: Core, sampled: ClusterConfig, snapshot: Snapshot, now: int, id: Id)
    requires c.options.historyPoints >= 0 && Current(c, sampled).Some?
    ensures var t := Accepted(c, sampled, snapshot, now);
            && t.options == c.options
            && Points(t, id) ==
               if id == sampled.id && snapshot.status == Online && snapshot.lagAvailable
               then Last(Points(c, id) + [PointOf(snapshot)], c.options.historyPoints) else Points(c, id)
  {
  }

  lemma AcceptCovers(c: Core, log: Log, sampled: ClusterConfig, snapshot: Snapshot, now: int, c0: Core, log0: Log)
    requires Covers(c, log, c0, log0) && c.options.historyPoints >= 0
    requires Current(c, sampled).Some? ==> sampled.id in log
    ensures Covers(Accepted(c, sampled, snapshot, now), AcceptedLog(c, log, sampled, snapshot, now), c0, log0)
  {
    if Current(c, sampled).Some? {
      var t, longer := Accepted(c, sampled, snapshot, now), AcceptedLog(c, log, sampled, snapshot, now);
      AcceptedLogAt(c, log, sampled, snapshot, now, sampled.id);
      forall id <- longer ensures CoversOne(Points(t, id), longer[id], Lacking(c0, log0, id), t.options.historyPoints) {
        AcceptedLogAt(c, log, sampled, snapshot, now, id);
        AcceptedPointsAt(c, sampled, snapshot, now, id);
        var s := Sample(sampled, snapshot, now, c.options.interval);
        MoreCovers(Points(c, id), log[id], s, Lacking(c0, log0, id), c.options.historyPoints);
      }
    }
  }

  lemma UpdatedPointsAt(c: Core, log: Log, configs: seq<ClusterConfig>, options: Options, id: Id)
    requires DistinctIds(configs) && id in UpdatedLog(c, log, configs)
    ensures id in EnabledConfigs(EnabledClusters(configs))
    ensures var t, cfg := Updated(c, configs, options), EnabledConfigs(EnabledClusters(configs))[id];
            && t.options == Normalized(options) && cfg.id == id
            && Points(t, id) == UpdatedHistory(c, cfg, t.options.historyPoints)
            && UpdatedLog(c, log, configs)[id] == if id in log && KeepsConnection(c, cfg) then log[id] else []
  {
    UpdatedLogAt(c, log, configs, id);
    EnabledIsListed(configs);
  }

  lemma UpdateCovers(c: Core, log: Log, configs: seq<ClusterConfig>, options: Options, c0: Core, log0: Log)
    requires Keyed(c, log) && Covers(c, log, c0, log0) && DistinctIds(configs)
    requires Normalized(options).historyPoints <= c.options.historyPoints
    ensures Covers(Updated(c, configs, options), UpdatedLog(c, log, configs), c0, log0)
  {
    var t, updated := Updated(c, configs, options), UpdatedLog(c, log, configs);
    forall id <- updated ensures CoversOne(Points(t, id), updated[id], Lacking(c0, log0, id), t.options.historyPoints) {
      UpdatedPointsAt(c, log, configs, options, id);
      if id in log {
        LastCovers(Points(c, id), log[id], Lacking(c0, log0, id), c.options.historyPoints, t.options.historyPoints);
      }
    }
  }

  lemma LongSuffixIsLast<T>(s: seq<T>, whole: seq<T>, n: nat)
    requires IsSuffix(s, whole) && |s| == n
    ensures s == Last(whole, n)
  {
  }

  /** A log that has outgrown what its history lacked is held by its newest points, as many as the option allows. */
  lemma OutgrownIsNewest(c: Core, log: Log, c0: Core, log0: Log, id: Id)
    requires Summarises(c, log) && Covers(c, log, c0, log0) && c.options.historyPoints >= 0 && id in c.history
    ensures id in log
    ensures |PointsOf(log[id])| >= c.options.historyPoints + Lacking(c0, log0, id) ==>
              c.history[id] == Last(PointsOf(log[id]), c.options.historyPoints)
  {
    SummaryOf(c, log, id);
    assert CoversOne(Points(c, id), log[id], Lacking(c0, log0, id), c.options.historyPoints);
    if |c.history[id]| == c.options.historyPoints {
      LongSuffixIsLast(c.history[id], PointsOf(log[id]), c.options.historyPoints);
    }
  }

  // ----- Backoff

  /** The failures that count: offline samples with nothing but offline samples after them. */
  function TrailingOffline(samples: seq<Sample>): nat {
    if samples == [] || samples[|samples| - 1].snapshot.status != Offline then 0
    else 1 + TrailingOffline(samples[..|samples| - 1])
  }

  ghost predicate OnlineOrOffline(samples: seq<Sample>) {
    forall s <- samples :: s.snapshot.status in {Online, Offline}
  }

  /** A Source that only ever reports online, offline or nothing yields such samples. */
  lemma NormalizedIsOnlineOrOffline(s: Snapshot, c: ClusterConfig, now: int)
    requires s.status in {Blank, Online, Offline}
    ensures NormalizedSnapshot(s, c, now).status in {Online, Offline}
  {
  }

  /** A worker relabels what the Source returned; a status or a sample time it left out is filled in, all else is kept. */
  lemma NormalizedKeepsTheRest(s: Snapshot, c: ClusterConfig, now: int)
    ensures var n := NormalizedSnapshot(s, c, now);
            && n.id == c.id && n.name == c.name && n.readOnly == c.readOnly
            && (s.status != Blank ==> n.status == s.status)
            && (s.status == Blank ==> n.status in {Online, Offline} && (n.status == Online <==> s.online))
            && (n.online <==> n.status == Online)
            && (s.sampledAt != 0 ==> n.sampledAt == s.sampledAt) && (s.sampledAt == 0 ==> n.sampledAt == now)
            && s == n.(id := s.id, name := s.name, readOnly := s.readOnly, status := s.status, online := s.online,
                       sampledAt := s.sampledAt)
  {
  }

  lemma {:induction false} RetryCountsTrailing(samples: seq<Sample>)
    requires OnlineOrOffline(samples)
    ensures RetryOf(samples).Some? <==> samples != [] && samples[|samples| - 1].snapshot.status == Offline
    ensures RetryOf(samples).Some? ==> RetryOf(samples).value.failures == TrailingOffline(samples)
    ensures RetryOf(samples).None? ==> TrailingOffline(samples) == 0
  {
    if samples != [] {
      RetryCountsTrailing(samples[..|samples| - 1]);
    }
  }

  /**
   * With such a Source a cluster has a retry entry exactly when it is shown offline; its count is the length of the
   * run of offline samples the log ends with, and it expires that run's backoff after the last of them.
   */
  lemma RetryEntries(c: Core, log: Log, id: Id)
    requires Summarises(c, log) && id in c.items && OnlineOrOffline(log[id])
    ensures id in c.retries <==> c.items[id].status == Offline
    ensures id in c.retries ==>
              && log[id] != [] && c.retries[id].failures == TrailingOffline(log[id]) > 0
              && var last := log[id][|log[id]| - 1];
                 c.retries[id].after == last.at + Backoff(last.interval, TrailingOffline(log[id]))
  {
    SummaryOf(c, log, id);
    RetryCountsTrailing(log[id]);
  }

  /** A cluster is left out exactly while a retry entry holds it back. */
  lemma {:induction false} DueIsExact(c: Core, cs: seq<ClusterConfig>, now: int)
    ensures forall cfg :: cfg in DueAmong(c, cs, now) <==>
              cfg in cs && !(cfg.id in c.retries && c.retries[cfg.id].after > now)
  {
    if cs != [] {
      assert cs == cs[..|cs| - 1] + [cs[|cs| - 1]];
      DueIsExact(c, cs[..|cs| - 1], now);
    }
  }

  /** A cluster is sampled again only when the backoff of its trailing offline run has expired, and then it is. */
  lemma ProbeWaitsForBackoff(c: Core, log: Log, cfg: ClusterConfig, now: int)
    requires Summarises(c, log) && cfg in c.configs && cfg.id in log && OnlineOrOffline(log[cfg.id])
    ensures cfg in Due(c, now) <==>
            (TrailingOffline(log[cfg.id]) > 0 ==>
               var last := log[cfg.id][|log[cfg.id]| - 1];
               now >= last.at + Backoff(last.interval, TrailingOffline(log[cfg.id])))
  {
    DueIsExact(c, c.configs, now);
    SummaryOf(c, log, cfg.id);
    RetryEntries(c, log, cfg.id);
    RetryCountsTrailing(log[cfg.id]);
  }

  lemma {:induction false} Pow2Grows(a: nat, b: nat)
    requires a <= b
    ensures 1 <= Pow2(a) <= Pow2(b)
  {
    if a < b {
      Pow2Grows(a, b - 1);
    } else if a > 0 {
      Pow2Grows(a - 1, a - 1);
    }
  }

  lemma Scales(unit: int, a: int, b: int)
    requires unit > 0 && a <= b
    ensures unit * a <= unit * b
  {
  }

  /** More failures never shorten the delay, which stays positive and within five minutes. */
  lemma BackoffGrows(base: int, a: nat, b: nat)
    requires a <= b
    ensures 0 < Backoff(base, a) <= Backoff(base, b) <= 300_000_000_000
  {
    Pow2Grows(a, b);
    var unit := if base <= 0 then DEFAULT_INTERVAL else base;
    Scales(unit, Pow2(a), Pow2(b));
    Scales(unit, 1, Pow2(a));
  }

  /** It starts at the interval, or at fifteen seconds for want of one, and doubles up to five minutes. */
  lemma BackoffDoubles(base: int, n: nat)
    ensures Backoff(base, 0) == Min(if base > 0 then base else 15_000_000_000, 300_000_000_000)
    ensures Backoff(base, n + 1) == Min(2 * Backoff(base, n), 300_000_000_000)
  {
    var unit := if base <= 0 then DEFAULT_INTERVAL else base;
    Pow2Grows(0, n);
    assert unit * Pow2(n + 1) == 2 * (unit * Pow2(n));
    Scales(unit, 1, Pow2(n));
  }
}
