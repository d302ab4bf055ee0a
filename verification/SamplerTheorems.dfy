/**
 * What the dashboard shows, over all histories of SamplerMachine and in terms of what the Source answered: which
 * answers are kept for a cluster, which points its history holds, and how long it is left alone after failures.
 */
module SamplerTheorems {
  import opened Wrappers
  import opened Config
  import opened SamplerState
  import opened SamplerLog
  import opened SamplerMachine

  // ----- Which answers are kept

  /** The answer is for this cluster with this connection. */
  ghost predicate Belongs(a: Answer, cfg: ClusterConfig) {
    a.cfg.id == cfg.id && a.cfg.brokers == cfg.brokers && a.cfg.security == cfg.security
  }

  function SamplesOf(log: Log, id: Id): seq<Sample> {
    if id in log then log[id] else []
  }

  lemma AcceptLogs(c: Core, log: Log, a: Answer, cfg: ClusterConfig)
    requires Listed(c.configs) && cfg in c.configs
    ensures SamplesOf(AcceptedLog(c, log, a.cfg, a.snapshot, a.at), cfg.id) ==
            SamplesOf(log, cfg.id) +
            if Belongs(a, cfg) then [Sample(a.cfg, a.snapshot, a.at, c.options.interval)] else []
  {
    CurrentIsListed(c, a.cfg);
    TableOfEnabled(c.configs, cfg);
  }

  /** The samples the answers of one Refresh add for a cluster. */
  function Kept(answers: seq<Answer>, cfg: ClusterConfig, interval: int): seq<Sample> {
    if answers == [] then []
    else
      var n := |answers| - 1;
      var a := answers[n];
      Kept(answers[..n], cfg, interval) +
      if a.cfg.id == cfg.id && SameConnection(a.cfg, cfg) then [Sample(a.cfg, a.snapshot, a.at, interval)] else []
  }

  lemma {:induction false} AcceptAllLogs(c: Core, log: Log, answers: seq<Answer>, cfg: ClusterConfig)
    requires Listed(c.configs) && cfg in c.configs && c.options.historyPoints >= 0
    ensures SamplesOf(LogAll(c, log, answers), cfg.id) ==
            SamplesOf(log, cfg.id) + Kept(answers, cfg, c.options.interval)
  {
    if answers != [] {
      var n := |answers| - 1;
      AcceptAllLogs(c, log, answers[..n], cfg);
      AcceptLogs(AcceptAll(c, answers[..n]), LogAll(c, log, answers[..n]), answers[n], cfg);
    }
  }

  lemma {:induction false} NoneIsKept(answers: seq<Answer>, cfg: ClusterConfig, interval: int)
    requires forall k :: 0 <= k < |answers| ==> !Belongs(answers[k], cfg)
    ensures Kept(answers, cfg, interval) == []
  {
    if answers != [] {
      NoneIsKept(answers[..|answers| - 1], cfg, interval);
    }
  }

  /** At most one answer is for the cluster, and it is kept if it belongs to its connection. */
  lemma {:induction false} OneIsKept(answers: seq<Answer>, cfg: ClusterConfig, interval: int, k: nat)
    requires forall i, j :: 0 <= i < j < |answers| ==> answers[i].cfg.id != answers[j].cfg.id
    requires k < |answers| && Belongs(answers[k], cfg)
    ensures Kept(answers, cfg, interval) == [Sample(answers[k].cfg, answers[k].snapshot, answers[k].at, interval)]
  {
    var n := |answers| - 1;
    if k < n {
      assert answers[k].cfg.id != answers[n].cfg.id;
      OneIsKept(answers[..n], cfg, interval, k);
    } else {
      NoneIsKept(answers[..n], cfg, interval);
    }
  }

  /** What every later statement starts from. */
  lemma CurrentIsLogged(states: seq<State>, events: seq<Event>, i: nat, cfg: ClusterConfig)
    requires IsHistory(states, events) && i < |states| && cfg in states[i].core.configs
    ensures Listed(states[i].core.configs) && states[i].core.options.historyPoints >= 2
    ensures cfg.id in states[i].log && cfg.id in states[i].core.items && cfg.id in states[i].core.history
    ensures SummarisesOne(states[i].core, cfg.id, cfg, states[i].log[cfg.id])
  {
    HistoryIsValid(states, events, i);
    TableOfEnabled(states[i].core.configs, cfg);
    SummaryOf(states[i].core, states[i].log, cfg.id);
  }

  /**
   * When a Refresh ends, a current cluster's answer is added to its samples if the connection it was made with is
   * still the cluster's, and no other answer is; the clusters themselves stay.
   */
  lemma AnswersAreKept(states: seq<State>, events: seq<Event>, i: nat, cfg: ClusterConfig)
    requires IsHistory(states, events) && i < |events| && events[i].EndRefresh? && cfg in states[i].core.configs
    ensures states[i + 1].core.configs == states[i].core.configs
    ensures cfg.id in states[i].log && cfg.id in states[i + 1].log
    ensures (forall a <- events[i].answers :: !Belongs(a, cfg)) ==> states[i + 1].log[cfg.id] == states[i].log[cfg.id]
    ensures forall a <- events[i].answers :: Belongs(a, cfg) ==>
              states[i + 1].log[cfg.id] ==
              states[i].log[cfg.id] + [Sample(a.cfg, a.snapshot, a.at, states[i].core.options.interval)]
  {
    var answers, interval := events[i].answers, states[i].core.options.interval;
    CurrentIsLogged(states, events, i, cfg);
    CurrentIsLogged(states, events, i + 1, cfg);
    AcceptAllLogs(states[i].core, states[i].log, answers, cfg);
    if k :| 0 <= k < |answers| && Belongs(answers[k], cfg) {
      OneIsKept(answers, cfg, interval, k);
      forall m | 0 <= m < |answers| && Belongs(answers[m], cfg) ensures m == k {
        assert answers[m].cfg.id == answers[k].cfg.id;
      }
    } else {
      NoneIsKept(answers, cfg, interval);
    }
  }

  /**
   * An Update lists exactly the enabled clusters; each keeps its samples if it was listed with the same brokers and
   * security before, and starts anew otherwise. Options out of range become 15 seconds, 240 points and 4 workers.
   */
  lemma UpdateKeepsSamples(states: seq<State>, events: seq<Event>, i: nat, cfg: ClusterConfig)
    requires IsHistory(states, events) && i < |events| && events[i].Update?
    ensures cfg in states[i + 1].core.configs <==> cfg in events[i].configs && cfg.enabled != Some(false)
    ensures var given, o := events[i].options, states[i + 1].core.options;
            && o.interval == (if given.interval > 0 then given.interval else 15_000_000_000)
            && o.historyPoints == (if given.historyPoints >= 2 then given.historyPoints else 240)
            && o.maxConcurrent == (if given.maxConcurrent >= 1 then given.maxConcurrent else 4)
    ensures cfg in states[i + 1].core.configs ==>
              && cfg.id in states[i + 1].log
              && ((forall was <- states[i].core.configs :: !SameCluster(was, cfg)) ==> states[i + 1].log[cfg.id] == [])
              && forall was <- states[i].core.configs :: SameCluster(was, cfg) ==>
                   cfg.id in states[i].log && states[i + 1].log[cfg.id] == states[i].log[cfg.id]
  {
    var c, configs := states[i].core, events[i].configs;
    HistoryIsValid(states, events, i);
    HistoryIsValid(states, events, i + 1);
    EnabledClustersSound(configs);
    if cfg in states[i + 1].core.configs {
      SummaryIsCurrent(states[i + 1].core, states[i + 1].log, cfg);
      TableOfEnabled(states[i + 1].core.configs, cfg);
      UpdatedLogAt(c, states[i].log, configs, cfg.id);
      EnabledConfigsSound(c.configs);
      forall was <- c.configs | was.id == cfg.id
        ensures cfg.id in EnabledConfigs(c.configs) && EnabledConfigs(c.configs)[cfg.id] == was
        ensures cfg.id in states[i].log
      {
        TableOfEnabled(c.configs, was);
        SummaryIsCurrent(c, states[i].log, was);
      }
    }
  }

  /** Listed before under the same id with the same brokers and security. */
  ghost predicate SameCluster(before: ClusterConfig, after: ClusterConfig) {
    before.id == after.id && before.brokers == after.brokers && before.security == after.security
  }

  /** Nothing else changes what is listed, shown or kept. */
  lemma OtherEventsKeepAll(states: seq<State>, events: seq<Event>, i: nat)
    requires IsHistory(states, events) && i < |events| && !events[i].EndRefresh? && !events[i].Update?
    ensures states[i + 1].core == states[i].core && states[i + 1].log == states[i].log
  {
  }

  // ----- The points of a history

  ghost predicate HasPoint(s: Sample) {
    s.snapshot.status == Online && s.snapshot.lagAvailable
  }

  ghost predicate IsPointOf(p: Point, s: Snapshot) {
    && p.timestamp == s.sampledAt && p.totalLag == s.totalLag
    && p.partitions == s.partitions && p.topics == s.topics
  }

  /** `at` lists, in order, the samples from number `from` on that were online with their lag available. */
  ghost predicate Lists(at: seq<nat>, samples: seq<Sample>, from: nat) {
    && (forall i, j :: 0 <= i < j < |at| ==> at[i] < at[j])
    && (forall i :: 0 <= i < |at| ==> from <= at[i] < |samples| && HasPoint(samples[at[i]]))
    && (forall j :: from <= j < |samples| && HasPoint(samples[j]) ==> j in at)
  }

  /** The points are those of the samples at these positions, field by field. */
  ghost predicate Shows(points: seq<Point>, at: seq<nat>, samples: seq<Sample>) {
    && |at| == |points|
    && forall i :: 0 <= i < |at| ==> at[i] < |samples| && IsPointOf(points[i], samples[at[i]].snapshot)
  }

  lemma ListsOneMore(at: seq<nat>, samples: seq<Sample>, s: Sample)
    requires Lists(at, samples, 0)
    ensures Lists(if HasPoint(s) then at + [|samples|] else at, samples + [s], 0)
  {
    var more, longer := if HasPoint(s) then at + [|samples|] else at, samples + [s];
    forall j | 0 <= j < |longer| && HasPoint(longer[j]) ensures j in more {
      if j == |samples| {
        assert more[|at|] == j;
      } else {
        assert longer[j] == samples[j];
      }
    }
  }

  lemma PointIsOfSample(s: Snapshot)
    ensures IsPointOf(PointOf(s), s)
  {
  }

  lemma ShowsOneMore(points: seq<Point>, at: seq<nat>, samples: seq<Sample>, s: Sample, p: Point)
    requires Shows(points, at, samples) && IsPointOf(p, s.snapshot)
    ensures Shows(points, at, samples + [s]) && Shows(points + [p], at + [|samples|], samples + [s])
  {
  }

  lemma PointsOneMore(samples: seq<Sample>, s: Sample)
    ensures PointsOf(samples + [s]) == PointsOf(samples) + if HasPoint(s) then [PointOf(s.snapshot)] else []
  {
    assert (samples + [s])[..|samples|] == samples;
  }

  lemma {:induction false} PointsComeFromSamples(samples: seq<Sample>) returns (at: seq<nat>)
    ensures Lists(at, samples, 0) && Shows(PointsOf(samples), at, samples)
  {
    at := [];
    if samples != [] {
      var front, s := samples[..|samples| - 1], samples[|samples| - 1];
      at := PointsComeFromSamples(front);
      assert samples == front + [s];
      PointsOneMore(front, s);
      ListsOneMore(at, front, s);
      PointIsOfSample(s.snapshot);
      ShowsOneMore(PointsOf(front), at, front, s, PointOf(s.snapshot));
      at := if HasPoint(s) then at + [|front|] else at;
    }
  }

  lemma OrderedAt(at: seq<nat>, i: nat, j: nat)
    requires forall i, j :: 0 <= i < j < |at| ==> at[i] < at[j]
    requires i < |at| && j < |at| && at[i] <= at[j]
    ensures i <= j
  {
  }

  lemma LaterIsInSuffix(all: seq<nat>, cut: nat, j: nat)
    requires forall i, j :: 0 <= i < j < |all| ==> all[i] < all[j]
    requires cut < |all| && all[cut] <= j && j in all
    ensures j in all[cut..]
  {
    var k :| 0 <= k < |all| && all[k] == j;
    OrderedAt(all, cut, k);
    assert all[cut..][k - cut] == j;
  }

  lemma ListsFrom(all: seq<nat>, samples: seq<Sample>, cut: nat)
    requires Lists(all, samples, 0) && cut <= |all|
    ensures Lists(all[cut..], samples, if cut == |all| then |samples| else all[cut])
  {
    var at, from := all[cut..], if cut == |all| then |samples| else all[cut];
    forall j | from <= j < |samples| && HasPoint(samples[j]) ensures j in at {
      LaterIsInSuffix(all, cut, j);
    }
    forall i | 0 <= i < |at| ensures from <= at[i] < |samples| && HasPoint(samples[at[i]]) {
      assert at[i] == all[cut + i];
    }
    forall i, j | 0 <= i < j < |at| ensures at[i] < at[j] {
      assert at[i] == all[cut + i] && at[j] == all[cut + j];
    }
  }

  /** A suffix of the points belongs to the samples from some number on. */
  lemma SuffixIsShown(points: seq<Point>, whole: seq<Point>, all: seq<nat>, samples: seq<Sample>)
    returns (at: seq<nat>, from: nat)
    requires IsSuffix(points, whole) && Lists(all, samples, 0) && Shows(whole, all, samples)
    ensures Lists(at, samples, from) && Shows(points, at, samples)
  {
    var cut := |all| - |points|;
    at, from := all[cut..], if points == [] then |samples| else all[cut];
    ListsFrom(all, samples, cut);
  }

  /** A history is never emptied: it holds the last two points at least, or as many as there are. */
  ghost predicate HoldsLast(c: Core, log: Log) {
    c.options.historyPoints >= 2 && forall id <- log :: CoversOne(Points(c, id), log[id], 0, 2)
  }

  lemma LastTwoGrow(points: seq<Point>, samples: seq<Sample>, s: Sample, historyPoints: nat)
    requires CoversOne(points, samples, 0, 2) && historyPoints >= 2
    ensures CoversOne(if HasPoint(s) then Last(points + [PointOf(s.snapshot)], historyPoints) else points,
                      samples + [s], 0, 2)
  {
    PointsOneMore(samples, s);
  }

  lemma AcceptHoldsLast(c: Core, log: Log, a: Answer)
    requires HoldsLast(c, log) && (Current(c, a.cfg).Some? ==> a.cfg.id in log)
    ensures HoldsLast(Accepted(c, a.cfg, a.snapshot, a.at), AcceptedLog(c, log, a.cfg, a.snapshot, a.at))
  {
    if Current(c, a.cfg).Some? {
      var t := Accepted(c, a.cfg, a.snapshot, a.at);
      var longer, id := AcceptedLog(c, log, a.cfg, a.snapshot, a.at), a.cfg.id;
      AcceptedLogAt(c, log, a.cfg, a.snapshot, a.at, id);
      AcceptedPointsAt(c, a.cfg, a.snapshot, a.at, id);
      LastTwoGrow(Points(c, id), log[id], Sample(a.cfg, a.snapshot, a.at, c.options.interval), c.options.historyPoints);
      forall other <- longer | other != id ensures CoversOne(Points(t, other), longer[other], 0, 2) {
        AcceptedLogAt(c, log, a.cfg, a.snapshot, a.at, other);
        AcceptedPointsAt(c, a.cfg, a.snapshot, a.at, other);
      }
    }
  }

  lemma {:induction false} AcceptAllHoldsLast(c: Core, log: Log, answers: seq<Answer>)
    requires Summarises(c, log) && HoldsLast(c, log)
    requires forall a <- answers :: a.snapshot.id == a.cfg.id
    ensures HoldsLast(AcceptAll(c, answers), LogAll(c, log, answers))
  {
    if answers != [] {
      var n := |answers| - 1;
      AcceptAllHoldsLast(c, log, answers[..n]);
      AcceptAllSummarises(c, log, answers[..n]);
      CurrentIsListed(AcceptAll(c, answers[..n]), answers[n].cfg);
      AcceptHoldsLast(AcceptAll(c, answers[..n]), LogAll(c, log, answers[..n]), answers[n]);
    }
  }

  lemma UpdateHoldsLast(c: Core, log: Log, configs: seq<ClusterConfig>, options: Options)
    requires (forall id <- log :: CoversOne(Points(c, id), log[id], 0, 2)) && DistinctIds(configs)
    ensures HoldsLast(Updated(c, configs, options), UpdatedLog(c, log, configs))
  {
    var t, updated := Updated(c, configs, options), UpdatedLog(c, log, configs);
    forall id <- updated ensures CoversOne(Points(t, id), updated[id], 0, 2) {
      UpdatedPointsAt(c, log, configs, options, id);
    }
  }

  lemma EventHoldsLast(s: State, e: Event)
    requires Valid(s) && CanHappen(s, e) && HoldsLast(s.core, s.log)
    ensures HoldsLast(After(s, e).core, After(s, e).log)
  {
    match e
    case Update(configs, options) => UpdateHoldsLast(s.core, s.log, configs, options);
    case EndRefresh(answers) => AcceptAllHoldsLast(s.core, s.log, answers);
    case _ =>
  }

  lemma StartHoldsLast(s: State)
    requires Starts(s)
    ensures HoldsLast(s.core, s.log)
  {
    var configs: seq<ClusterConfig>, options: Options :| DistinctIds(configs) &&
      s == State(Updated(EMPTY, configs, options), UpdatedLog(EMPTY, map[], configs), Ready, false, 0, false, 1, 0, []);
    UpdateHoldsLast(EMPTY, map[], configs, options);
  }

  lemma {:induction false} HistoryHoldsLast(states: seq<State>, events: seq<Event>, i: nat)
    requires IsHistory(states, events) && i < |states|
    ensures HoldsLast(states[i].core, states[i].log)
  {
    if i == 0 {
      StartHoldsLast(states[0]);
    } else {
      HistoryHoldsLast(states, events, i - 1);
      HistoryIsValid(states, events, i - 1);
      EventHoldsLast(states[i - 1], events[i - 1]);
    }
  }

  /**
   * A history's points are, in order and without a gap, those of the cluster's online samples with their lag
   * available from some sample on, field by field; with two such samples or fewer it has them all.
   */
  lemma HistoryPointsAreSamples(states: seq<State>, events: seq<Event>, i: nat, cfg: ClusterConfig)
    returns (at: seq<nat>, from: nat)
    requires IsHistory(states, events) && i < |states| && cfg in states[i].core.configs
    ensures cfg.id in states[i].core.history && cfg.id in states[i].log
    ensures Lists(at, states[i].log[cfg.id], from) && |at| == |states[i].core.history[cfg.id]|
    ensures forall k :: 0 <= k < |at| ==>
              var p, s := states[i].core.history[cfg.id][k], states[i].log[cfg.id][at[k]].snapshot;
              && p.timestamp == s.sampledAt && p.totalLag == s.totalLag
              && p.partitions == s.partitions && p.topics == s.topics
    ensures |at| < 2 ==> Lists(at, states[i].log[cfg.id], 0)
  {
    CurrentIsLogged(states, events, i, cfg);
    var points, samples := Points(states[i].core, cfg.id), states[i].log[cfg.id];
    HistoryHoldsLast(states, events, i);
    assert CoversOne(points, samples, 0, 2);
    if |points| < 2 {
      assert points == PointsOf(samples);
      from := 0;
      at := PointsComeFromSamples(samples);
    } else {
      at := PointsComeFromSamples(samples);
      at, from := SuffixIsShown(points, PointsOf(samples), at, samples);
    }
  }

  /** If a cluster was last sampled online with its lag available, its newest point shows what its item shows. */
  lemma NewestPointIsShown(states: seq<State>, events: seq<Event>, i: nat, cfg: ClusterConfig)
    requires IsHistory(states, events) && i < |states| && cfg in states[i].core.configs
    ensures cfg.id in states[i].core.items && cfg.id in states[i].core.history && cfg.id in states[i].log
    ensures var item, points := states[i].core.items[cfg.id], states[i].core.history[cfg.id];
            states[i].log[cfg.id] != [] && item.status == Online && item.lagAvailable ==>
              && points != []
              && var p := points[|points| - 1];
              && p.timestamp == item.sampledAt && p.totalLag == item.totalLag
              && p.partitions == item.partitions && p.topics == item.topics
  {
    ItemsAreCurrent(states, events, i, cfg);
    var at, from := HistoryPointsAreSamples(states, events, i, cfg);
    var item, samples := states[i].core.items[cfg.id], states[i].log[cfg.id];
    if samples != [] && item.status == Online && item.lagAvailable {
      LastIsListed(at, samples, if |at| < 2 then 0 else from);
    }
  }

  lemma LastIsListed(at: seq<nat>, samples: seq<Sample>, from: nat)
    requires Lists(at, samples, from) && samples != [] && HasPoint(samples[|samples| - 1])
    requires from == 0 || at != []
    ensures at != [] && at[|at| - 1] == |samples| - 1
  {
    var last := |samples| - 1;
    assert at != [] ==> from <= at[0] <= last;
    assert last in at;
    var k :| 0 <= k < |at| && at[k] == last;
    OrderedAt(at, |at| - 1, k);
  }

  // ----- Backoff

  /** How many samples from position `k` on are offline. */
  function OfflineFrom(samples: seq<Sample>, k: nat): nat {
    if |samples| <= k then 0
    else OfflineFrom(samples[..|samples| - 1], k) + if samples[|samples| - 1].snapshot.status == Offline then 1 else 0
  }

  ghost predicate LastOffline(samples: seq<Sample>, j: nat) {
    && j < |samples| && samples[j].snapshot.status == Offline
    && forall m :: j < m < |samples| ==> samples[m].snapshot.status != Offline
  }

  /** Position `k` is just after the last online sample, or at the start if there is none. */
  ghost predicate SinceOnline(samples: seq<Sample>, k: nat) {
    && k <= |samples|
    && (k > 0 ==> samples[k - 1].snapshot.status == Online)
    && forall j :: k <= j < |samples| ==> samples[j].snapshot.status != Online
  }

  /** A retry entry counts the offline samples since the last online one and runs from the last of them. */
  ghost predicate RetryCounts(retry: Option<Retry>, samples: seq<Sample>, k: nat) {
    var failures := OfflineFrom(samples, k);
    && (retry.None? <==> failures == 0)
    && (retry.Some? ==>
          && retry.value.failures == failures
          && exists j :: k <= j && LastOffline(samples, j)
               && retry.value.after == samples[j].at + Backoff(samples[j].interval, failures))
  }

  lemma {:induction false} RetryOfCounts(samples: seq<Sample>, k: nat)
    requires SinceOnline(samples, k)
    ensures RetryCounts(RetryOf(samples), samples, k)
  {
    if k < |samples| {
      var front, last := samples[..|samples| - 1], samples[|samples| - 1];
      RetryOfCounts(front, k);
      if last.snapshot.status == Offline {
        assert LastOffline(samples, |front|);
      } else if RetryOf(front).Some? {
        var j :| k <= j && LastOffline(front, j)
          && RetryOf(front).value.after == front[j].at + Backoff(front[j].interval, OfflineFrom(front, k));
        assert LastOffline(samples, j);
      }
    }
  }

  /**
   * Whatever the Source reports: a cluster is held back exactly if it was offline since it was last online, and then
   * until the backoff of that many failures has passed since the last of them.
   */
  lemma BackoffFollowsFailures(states: seq<State>, events: seq<Event>, i: nat, cfg: ClusterConfig, k: nat)
    requires IsHistory(states, events) && i < |states| && cfg in states[i].core.configs
    requires cfg.id in states[i].log && SinceOnline(states[i].log[cfg.id], k)
    ensures RetryCounts(if cfg.id in states[i].core.retries then Some(states[i].core.retries[cfg.id]) else None,
                        states[i].log[cfg.id], k)
  {
    HistoryIsValid(states, events, i);
    SummaryIsCurrent(states[i].core, states[i].log, cfg);
    SummaryOf(states[i].core, states[i].log, cfg.id);
    RetryOfCounts(states[i].log[cfg.id], k);
  }

  /** A Refresh sets out to sample exactly the clusters that no retry entry holds back. */
  lemma RefreshSamplesDue(states: seq<State>, events: seq<Event>, i: nat, cfg: ClusterConfig)
    requires IsHistory(states, events) && i < |events| && events[i].BeginRefresh?
    ensures states[i + 1].runner.Sampling? && cfg in states[i + 1].runner.due <==>
            && cfg in states[i].core.configs
            && !(cfg.id in states[i].core.retries && states[i].core.retries[cfg.id].after > events[i].now)
  {
    DueIsExact(states[i].core, states[i].core.configs, events[i].now);
  }

  // ----- The online flag

  ghost predicate Flagged(log: Log) {
    forall id <- log :: forall s <- log[id] :: s.snapshot.online <==> s.snapshot.status == Online
  }

  lemma {:induction false} LogAllFlagged(c: Core, log: Log, answers: seq<Answer>)
    requires Flagged(log) && c.options.historyPoints >= 0 && forall a <- answers :: FromSource(a)
    ensures Flagged(LogAll(c, log, answers))
  {
    if answers != [] {
      var n := |answers| - 1;
      LogAllFlagged(c, log, answers[..n]);
      assert FromSource(answers[n]);
      var returned: Snapshot, now: int :| answers[n].snapshot == NormalizedSnapshot(returned, answers[n].cfg, now);
      NormalizedKeepsTheRest(returned, answers[n].cfg, now);
    }
  }

  lemma {:induction false} HistoryIsFlagged(states: seq<State>, events: seq<Event>, i: nat)
    requires IsHistory(states, events) && i < |states|
    ensures Flagged(states[i].log)
  {
    if i > 0 {
      HistoryIsFlagged(states, events, i - 1);
      if events[i - 1].EndRefresh? {
        LogAllFlagged(states[i - 1].core, states[i - 1].log, events[i - 1].answers);
      }
    }
  }

  /** An item is flagged online exactly when its status is online. */
  lemma OnlineMeansStatusOnline(states: seq<State>, events: seq<Event>, i: nat, cfg: ClusterConfig)
    requires IsHistory(states, events) && i < |states| && cfg in states[i].core.configs
    ensures cfg.id in states[i].core.items
    ensures states[i].core.items[cfg.id].online <==> states[i].core.items[cfg.id].status == Online
  {
    HistoryIsFlagged(states, events, i);
    ItemsAreCurrent(states, events, i, cfg);
  }

  // ----- Run

  /** How many of the first events are of a kind. */
  function Count(events: seq<Event>, n: nat, kind: Event -> bool): nat
    requires n <= |events|
  {
    if n == 0 then 0 else Count(events, n - 1, kind) + if kind(events[n - 1]) then 1 else 0
  }

  predicate IsUpdate(e: Event) {
    e.Update?
  }

  predicate IsOffer(e: Event) {
    e.Offer?
  }

  predicate IsWoken(e: Event) {
    e.Woken?
  }

  /** Run wakes up. */
  predicate IsWakeUp(e: Event) {
    e.Woken? || e.Timer?
  }

  /** Run calls Refresh. */
  predicate IsRefresh(e: Event) {
    e.BeginRefresh? || e.SkipRefresh?
  }

  predicate IsEnd(e: Event) {
    e.EndRefresh?
  }

  function One(b: bool): nat {
    if b then 1 else 0
  }

  lemma TokenStep(s: State, e: Event)
    requires CanHappen(s, e)
    ensures var t := After(s, e);
            && t.offering == s.offering + One(e.Update?) - One(e.Offer?)
            && One(t.wake) + One(e.Woken?) <= One(s.wake) + One(e.Offer?)
  {
  }

  lemma RunnerStep(s: State, e: Event)
    requires CanHappen(s, e)
    ensures var t := After(s, e);
            && One(t.runner.Ready?) + One(IsRefresh(e)) == One(s.runner.Ready?) + One(IsWakeUp(e))
            && One(t.runner.Sampling?) + One(e.EndRefresh?) <= One(s.runner.Sampling?) + One(IsRefresh(e))
            && (t.runner.Stopped? <==> s.runner.Stopped? || e.Return?)
            && (s.runner.Stopped? ==> e.Update? || e.Offer? || e.Cancel?)
  {
  }

  lemma AtStart(s: State)
    requires Starts(s)
    ensures s.offering == 0 && !s.wake && !s.cancelled && s.runner == Ready
  {
  }

  /** The Updates that have not offered the token yet are the others; a wake-up takes the token with it. */
  lemma {:induction false} WokenOncePerUpdate(states: seq<State>, events: seq<Event>, i: nat)
    requires IsHistory(states, events) && i < |states|
    ensures states[i].offering == Count(events, i, IsUpdate) - Count(events, i, IsOffer)
    ensures Count(events, i, IsWoken) + One(states[i].wake) <= Count(events, i, IsOffer) <= Count(events, i, IsUpdate)
  {
    if i == 0 {
      AtStart(states[0]);
    } else {
      WokenOncePerUpdate(states, events, i - 1);
      TokenStep(states[i - 1], events[i - 1]);
    }
  }

  /** Run calls Refresh once at the start and once for each time it wakes up, and each Refresh ends once at most. */
  lemma {:induction false} OneRefreshPerWakeUp(states: seq<State>, events: seq<Event>, i: nat)
    requires IsHistory(states, events) && i < |states|
    ensures Count(events, i, IsRefresh) + One(states[i].runner.Ready?) == 1 + Count(events, i, IsWakeUp)
    ensures Count(events, i, IsEnd) + One(states[i].runner.Sampling?) <= Count(events, i, IsRefresh)
  {
    if i == 0 {
      AtStart(states[0]);
    } else {
      OneRefreshPerWakeUp(states, events, i - 1);
      RunnerStep(states[i - 1], events[i - 1]);
    }
  }

  /** After Run has returned it does nothing more. */
  lemma {:induction false} StoppedForGood(states: seq<State>, events: seq<Event>, i: nat, j: nat)
    requires IsHistory(states, events) && i < j <= |events| && events[i].Return?
    ensures states[j].runner.Stopped?
    ensures j < |events| ==> events[j].Update? || events[j].Offer? || events[j].Cancel?
  {
    if i + 1 < j {
      StoppedForGood(states, events, i, j - 1);
    }
    RunnerStep(states[j - 1], events[j - 1]);
    if j < |events| {
      RunnerStep(states[j], events[j]);
    }
  }

  lemma {:induction false} CancelledForGood(states: seq<State>, events: seq<Event>, i: nat)
    requires IsHistory(states, events) && i < |states|
    ensures states[i].cancelled <==> exists j :: 0 <= j < i && events[j].Cancel?
  {
    if i == 0 {
      AtStart(states[0]);
    } else {
      CancelledForGood(states, events, i - 1);
    }
  }

  /** Once the context is cancelled no Refresh begins, and Run returns only then. */
  lemma NoRefreshAfterCancel(states: seq<State>, events: seq<Event>, i: nat)
    requires IsHistory(states, events) && i < |events|
    ensures events[i].BeginRefresh? ==> forall j :: 0 <= j < i ==> !events[j].Cancel?
    ensures events[i].Return? ==> exists j :: 0 <= j < i && events[j].Cancel?
  {
    CancelledForGood(states, events, i);
  }

  /**
   * Nothing blocks: an Update and a cancellation can come at any time, an offer is never held up, and Run, until it has
   * returned, can refresh when it is ready to, unless it is cancelled, and wakes up for the timer, the token, and to
   * return when it is cancelled.
   */
  lemma RunGoesOn(states: seq<State>, events: seq<Event>, i: nat)
    requires IsHistory(states, events) && i < |states|
    ensures var s := states[i];
            && CanHappen(s, Cancel)
            && (forall configs, options :: DistinctIds(configs) ==> CanHappen(s, Update(configs, options)))
            && (s.offering > 0 ==> CanHappen(s, Offer))
            && (s.runner.Ready? ==>
                  if s.cancelled then CanHappen(s, SkipRefresh) else forall now :: CanHappen(s, BeginRefresh(now)))
            && (s.runner.Sampling? ==>
                  forall answers :: FromWorkers(answers, s.runner.due) ==> CanHappen(s, EndRefresh(answers)))
            && (s.runner.Waiting? ==>
                  && CanHappen(s, Timer) && (s.wake ==> CanHappen(s, Woken)) && (s.cancelled ==> CanHappen(s, Return)))
  {
    HistoryIsValid(states, events, i);
  }
}
