/**
 * The sampler's background loop with configuration updates in between: an Update may fall anywhere into a running
 * Refresh, and the wake channel holds at most one token.
 */
module SamplerMachine {
  import opened Wrappers
  import opened Config
  import opened SamplerState
  import opened SamplerLog

  /** One finished Source call. */
  datatype Answer = Answer(cfg: ClusterConfig, snapshot: Snapshot, at: int)

  /** Where Run is: before a Refresh, inside one, blocked in its select, or returned. */
  datatype Runner = Ready | Sampling(due: seq<ClusterConfig>) | Waiting | Stopped

  /**
   * `offering` counts the Updates that have changed the configuration but not yet offered the wake token;
   * `version` and `seen` number the configuration and the one the last Refresh snapshot read.
   */
  datatype State = State(
    core: Core, log: Log, runner: Runner, wake: bool, offering: nat, cancelled: bool,
    version: nat, seen: nat, seenConfigs: seq<ClusterConfig>)

  datatype Event =
    | Update(configs: seq<ClusterConfig>, options: Options)
    | Offer
    | BeginRefresh(now: int)
    | EndRefresh(answers: seq<Answer>)
    | SkipRefresh
    | Woken
    | Timer
    | Cancel
    | Return

  function AcceptAll(c: Core, answers: seq<Answer>): (r: Core)
    requires c.options.historyPoints >= 0
    ensures r.options == c.options && r.configs == c.configs
  {
    if answers == [] then c
    else
      var last := answers[|answers| - 1];
      Accepted(AcceptAll(c, answers[..|answers| - 1]), last.cfg, last.snapshot, last.at)
  }

  function LogAll(c: Core, log: Log, answers: seq<Answer>): Log
    requires c.options.historyPoints >= 0
  {
    if answers == [] then log
    else
      var n := |answers| - 1;
      AcceptedLog(AcceptAll(c, answers[..n]), LogAll(c, log, answers[..n]),
                  answers[n].cfg, answers[n].snapshot, answers[n].at)
  }

  /** What the Source returned for a cluster, as its worker hands it on. */
  ghost predicate FromSource(a: Answer) {
    exists returned: Snapshot, now: int :: a.snapshot == NormalizedSnapshot(returned, a.cfg, now)
  }

  /** Each answer belongs to a cluster the Refresh set out to sample, at most one to each. */
  ghost predicate FromWorkers(answers: seq<Answer>, due: seq<ClusterConfig>) {
    && (forall a <- answers :: a.cfg in due && FromSource(a))
    && (forall i, j :: 0 <= i < j < |answers| ==> answers[i].cfg.id != answers[j].cfg.id)
  }

  ghost predicate CanHappen(s: State, e: Event) {
    && s.core.options.historyPoints >= 0
    && match e
       case Update(configs, _) => DistinctIds(configs)
       case Offer => s.offering > 0
       case BeginRefresh(_) => s.runner.Ready? && !s.cancelled
       case EndRefresh(answers) => s.runner.Sampling? && FromWorkers(answers, s.runner.due)
       case SkipRefresh => s.runner.Ready? && s.cancelled
       case Woken => s.runner.Waiting? && s.wake
       case Timer => s.runner.Waiting?
       case Cancel => true
       case Return => s.runner.Waiting? && s.cancelled
  }

  function After(s: State, e: Event): State
    requires s.core.options.historyPoints >= 0
  {
    match e
    case Update(configs, options) =>
      s.(core := Updated(s.core, configs, options), log := UpdatedLog(s.core, s.log, configs),
         version := s.version + 1, offering := s.offering + 1)
    case Offer => s.(offering := if s.offering > 0 then s.offering - 1 else 0, wake := true)
    case BeginRefresh(now) =>
      var due := Due(s.core, now);
      s.(runner := if due == [] then Waiting else Sampling(due), seen := s.version, seenConfigs := s.core.configs)
    case EndRefresh(answers) =>
      s.(core := AcceptAll(s.core, answers), log := LogAll(s.core, s.log, answers), runner := Waiting)
    case SkipRefresh => s.(runner := Waiting)
    case Woken => s.(runner := Ready, wake := false)
    case Timer => s.(runner := Ready)
    case Cancel => s.(cancelled := true)
    case Return => s.(runner := Stopped)
  }

  /** NewSampler updates an empty sampler and drains the token that update left. */
  ghost predicate Starts(s: State) {
    exists configs: seq<ClusterConfig>, options: Options :: DistinctIds(configs) &&
      s == State(Updated(EMPTY, configs, options), UpdatedLog(EMPTY, map[], configs), Ready, false, 0, false, 1, 0, [])
  }

  ghost predicate IsHistory(states: seq<State>, events: seq<Event>) {
    && |states| == |events| + 1
    && Starts(states[0])
    && forall i :: 0 <= i < |events| ==> CanHappen(states[i], events[i]) && states[i + 1] == After(states[i], events[i])
  }

  // ----- Invariants

  /** An update no snapshot has read yet: the token is there, or about to be, or Run is on its way to a snapshot. */
  ghost predicate NoLostWakeUp(s: State) {
    && s.seen <= s.version
    && (s.seen < s.version ==> s.wake || s.offering > 0 || s.runner.Ready? || s.cancelled)
    && (s.seen == s.version ==> s.seenConfigs == s.core.configs)
    && (s.runner.Stopped? ==> s.cancelled)
  }

  ghost predicate Valid(s: State) {
    && s.core.options == Normalized(s.core.options)
    && Summarises(s.core, s.log)
    && NoLostWakeUp(s)
  }

  lemma {:induction false} AcceptAllSummarises(c: Core, log: Log, answers: seq<Answer>)
    requires Summarises(c, log) && c.options.historyPoints >= 0
    requires forall a <- answers :: a.snapshot.id == a.cfg.id
    ensures Summarises(AcceptAll(c, answers), LogAll(c, log, answers))
  {
    if answers != [] {
      var n := |answers| - 1;
      AcceptAllSummarises(c, log, answers[..n]);
      AcceptSummarises(AcceptAll(c, answers[..n]), LogAll(c, log, answers[..n]),
                       answers[n].cfg, answers[n].snapshot, answers[n].at);
    }
  }

  lemma EventKeepsValid(s: State, e: Event)
    requires Valid(s) && CanHappen(s, e)
    ensures Valid(After(s, e))
  {
    match e
    case Update(configs, options) => UpdateSummarises(s.core, s.log, configs, options);
    case EndRefresh(answers) => AcceptAllSummarises(s.core, s.log, answers);
    case _ =>
  }

  lemma StartsValid(s: State)
    requires Starts(s)
    ensures Valid(s)
  {
    var configs: seq<ClusterConfig>, options: Options :| DistinctIds(configs) &&
      s == State(Updated(EMPTY, configs, options), UpdatedLog(EMPTY, map[], configs), Ready, false, 0, false, 1, 0, []);
    UpdateSummarises(EMPTY, map[], configs, options);
  }

  lemma {:induction false} HistoryIsValid(states: seq<State>, events: seq<Event>, i: nat)
    requires IsHistory(states, events) && i < |states|
    ensures Valid(states[i])
  {
    if i == 0 {
      StartsValid(states[0]);
    } else {
      HistoryIsValid(states, events, i - 1);
      EventKeepsValid(states[i - 1], events[i - 1]);
    }
  }

  // ----- The results

  /**
   * In every reachable state the items and histories are those of exactly the current clusters, under their current
   * names and read-only flags; whatever is stored for a cluster came from Source calls with its current connection.
   */
  lemma ItemsAreCurrent(states: seq<State>, events: seq<Event>, i: nat, cfg: ClusterConfig)
    requires IsHistory(states, events) && i < |states| && cfg in states[i].core.configs
    ensures var c, log := states[i].core, states[i].log;
            && cfg.id in c.items && cfg.id in c.history && cfg.id in log
            && c.items[cfg.id].name == cfg.name && c.items[cfg.id].readOnly == cfg.readOnly
            && (log[cfg.id] != [] ==>
                  c.items[cfg.id] ==
                  log[cfg.id][|log[cfg.id]| - 1].snapshot.(id := cfg.id, name := cfg.name, readOnly := cfg.readOnly))
            && (log[cfg.id] == [] ==>
                  c.items[cfg.id] ==
                  Snapshot(cfg.id, cfg.name, Loading, false, "", 0, 0, 0, 0, 0, 0, 0, 0, false, "", cfg.readOnly))
            && (forall s <- log[cfg.id] ::
                  s.cfg.id == cfg.id && s.cfg.brokers == cfg.brokers && s.cfg.security == cfg.security)
            && IsSuffix(c.history[cfg.id], PointsOf(log[cfg.id]))
            && |c.history[cfg.id]| <= c.options.historyPoints
    ensures forall id <- states[i].core.items ::
              exists k :: 0 <= k < |states[i].core.configs| && states[i].core.configs[k].id == id
  {
    HistoryIsValid(states, events, i);
    SummaryIsCurrent(states[i].core, states[i].log, cfg);
    TableOfEnabled(states[i].core.configs, cfg);
    SummaryOf(states[i].core, states[i].log, cfg.id);
  }

  /** While the number of history points stays the same, each history is exactly the newest points that fit. */
  lemma ConstantOptionKeepsNewest(states: seq<State>, events: seq<Event>, i: nat, id: Id, points: int)
    requires IsHistory(states, events) && i < |states|
    requires states[0].core.options.historyPoints == points
    requires forall k :: 0 <= k < i && events[k].Update? ==> Normalized(events[k].options).historyPoints == points
    requires id in states[i].core.history
    ensures points >= 2 && id in states[i].log
    ensures states[i].core.history[id] == Last(PointsOf(states[i].log[id]), points)
  {
    HistoryIsExact(states, events, i, points);
    HistoryIsValid(states, events, i);
    ExactMeansNewest(states[i].core, states[i].log, id);
  }

  lemma {:induction false} HistoryIsExact(states: seq<State>, events: seq<Event>, i: nat, points: int)
    requires IsHistory(states, events) && i < |states|
    requires states[0].core.options.historyPoints == points
    requires forall k :: 0 <= k < i && events[k].Update? ==> Normalized(events[k].options).historyPoints == points
    ensures Exact(states[i].core, states[i].log) && states[i].core.options.historyPoints == points >= 2
  {
    if i == 0 {
      StartsValid(states[0]);
      StartsExact(states[0]);
    } else {
      HistoryIsExact(states, events, i - 1, points);
      HistoryIsValid(states, events, i - 1);
      EventStaysExact(states[i - 1], events[i - 1], points);
    }
  }

  lemma EventStaysExact(s: State, e: Event, points: int)
    requires Valid(s) && CanHappen(s, e) && Exact(s.core, s.log)
    requires s.core.options.historyPoints == points
    requires e.Update? ==> Normalized(e.options).historyPoints == points
    ensures Exact(After(s, e).core, After(s, e).log) && After(s, e).core.options.historyPoints == points
  {
    match e
    case Update(configs, options) =>
      var t, updated := Updated(s.core, configs, options), UpdatedLog(s.core, s.log, configs);
      UpdateStaysExact(s.core, s.log, configs, options);
      forall id <- updated | KeepsConnection(s.core, EnabledConfigs(t.configs)[id]) ensures id in s.log {
        EnabledIsListed(configs);
      }
    case EndRefresh(answers) => AcceptAllStaysExact(s.core, s.log, answers);
    case _ =>
  }

  lemma StartsExact(s: State)
    requires Starts(s) && Valid(s)
    ensures Exact(s.core, s.log)
  {
    var configs: seq<ClusterConfig>, options: Options :| DistinctIds(configs) &&
      s == State(Updated(EMPTY, configs, options), UpdatedLog(EMPTY, map[], configs), Ready, false, 0, false, 1, 0, []);
    assert Exact(EMPTY, map[]);
    UpdateStaysExact(EMPTY, map[], configs, options);
  }

  lemma {:induction false} AcceptAllStaysExact(c: Core, log: Log, answers: seq<Answer>)
    requires Summarises(c, log) && Exact(c, log) && c.options.historyPoints >= 0
    requires forall a <- answers :: a.snapshot.id == a.cfg.id
    ensures Exact(AcceptAll(c, answers), LogAll(c, log, answers))
  {
    if answers != [] {
      var n := |answers| - 1;
      var d, longer := AcceptAll(c, answers[..n]), LogAll(c, log, answers[..n]);
      AcceptAllStaysExact(c, log, answers[..n]);
      AcceptAllSummarises(c, log, answers[..n]);
      CurrentIsListed(d, answers[n].cfg);
      AcceptStaysExact(d, longer, answers[n].cfg, answers[n].snapshot, answers[n].at);
    }
  }

  lemma {:induction false} AcceptAllCovers(c: Core, log: Log, answers: seq<Answer>, c0: Core, log0: Log)
    requires Summarises(c, log) && Covers(c, log, c0, log0) && c.options.historyPoints >= 0
    requires forall a <- answers :: a.snapshot.id == a.cfg.id
    ensures Covers(AcceptAll(c, answers), LogAll(c, log, answers), c0, log0)
  {
    if answers != [] {
      var n := |answers| - 1;
      var d, longer := AcceptAll(c, answers[..n]), LogAll(c, log, answers[..n]);
      AcceptAllCovers(c, log, answers[..n], c0, log0);
      AcceptAllSummarises(c, log, answers[..n]);
      CurrentIsListed(d, answers[n].cfg);
      AcceptCovers(d, longer, answers[n].cfg, answers[n].snapshot, answers[n].at, c0, log0);
    }
  }

  lemma EventCovers(s: State, e: Event, points: int, c0: Core, log0: Log)
    requires Valid(s) && CanHappen(s, e) && Covers(s.core, s.log, c0, log0)
    requires s.core.options.historyPoints == points
    requires e.Update? ==> Normalized(e.options).historyPoints == points
    ensures Covers(After(s, e).core, After(s, e).log, c0, log0) && After(s, e).core.options.historyPoints == points
  {
    match e
    case Update(configs, options) => UpdateCovers(s.core, s.log, configs, options, c0, log0);
    case EndRefresh(answers) => AcceptAllCovers(s.core, s.log, answers, c0, log0);
    case _ =>
  }

  lemma {:induction false} HistoryCovers(states: seq<State>, events: seq<Event>, from: nat, i: nat, points: int)
    requires IsHistory(states, events) && from <= i < |states|
    requires states[from].core.options.historyPoints == points
    requires forall k :: from <= k < i && events[k].Update? ==> Normalized(events[k].options).historyPoints == points
    ensures Covers(states[i].core, states[i].log, states[from].core, states[from].log)
    ensures states[i].core.options.historyPoints == points
  {
    if from == i {
      CoversItself(states[i].core, states[i].log);
    } else {
      HistoryCovers(states, events, from, i - 1, points);
      HistoryIsValid(states, events, i - 1);
      EventCovers(states[i - 1], events[i - 1], points, states[from].core, states[from].log);
    }
  }

  /**
   * After any change of the option, while it stays the same again: once the points it left out have been followed by
   * as many as fit, a history is exactly the newest points that fit.
   */
  lemma LaterConstantOptionKeepsNewest(states: seq<State>, events: seq<Event>, from: nat, i: nat, id: Id, points: int)
    requires IsHistory(states, events) && from <= i < |states|
    requires states[from].core.options.historyPoints == points
    requires forall k :: from <= k < i && events[k].Update? ==> Normalized(events[k].options).historyPoints == points
    requires id in states[i].core.history
    ensures points >= 2 && id in states[i].log
    ensures |PointsOf(states[i].log[id])| >= points + Lacking(states[from].core, states[from].log, id) ==>
              states[i].core.history[id] == Last(PointsOf(states[i].log[id]), points)
  {
    HistoryCovers(states, events, from, i, points);
    HistoryIsValid(states, events, i);
    OutgrownIsNewest(states[i].core, states[i].log, states[from].core, states[from].log, id);
  }

  /** A cluster whose last samples were offline is not sampled again before their backoff has passed. */
  lemma NoProbeBeforeBackoff(states: seq<State>, events: seq<Event>, i: nat, cfg: ClusterConfig)
    requires IsHistory(states, events) && i < |events| && events[i].BeginRefresh?
    requires states[i + 1].runner.Sampling? && cfg in states[i + 1].runner.due
    ensures cfg in states[i].core.configs && cfg.id in states[i].log
    ensures var samples := states[i].log[cfg.id];
            OnlineOrOffline(samples) && samples != [] && samples[|samples| - 1].snapshot.status == Offline ==>
              var last := samples[|samples| - 1];
              events[i].now >= last.at + Backoff(last.interval, TrailingOffline(samples))
  {
    var c, log := states[i].core, states[i].log;
    HistoryIsValid(states, events, i);
    DueIsExact(c, c.configs, events[i].now);
    SummaryIsCurrent(c, log, cfg);
    if OnlineOrOffline(log[cfg.id]) {
      ProbeWaitsForBackoff(c, log, cfg, events[i].now);
      RetryCountsTrailing(log[cfg.id]);
    }
  }

  /** With a Source that reports online or offline only: retried exactly while shown offline, counting that run. */
  lemma RetriesFollowOfflineRuns(states: seq<State>, events: seq<Event>, i: nat, id: Id)
    requires IsHistory(states, events) && i < |states| && id in states[i].core.items
    requires id in states[i].log ==> OnlineOrOffline(states[i].log[id])
    ensures id in states[i].log
    ensures id in states[i].core.retries <==> states[i].core.items[id].status == Offline
    ensures id in states[i].core.retries ==>
              states[i].core.retries[id].failures == TrailingOffline(states[i].log[id]) > 0
  {
    HistoryIsValid(states, events, i);
    RetryEntries(states[i].core, states[i].log, id);
  }

  /** Run never sleeps on an unread update: asleep with no token and no offer pending, it has read the latest one. */
  lemma SleepingRunIsUpToDate(states: seq<State>, events: seq<Event>, i: nat)
    requires IsHistory(states, events) && i < |states|
    requires states[i].runner.Waiting? && !states[i].wake && states[i].offering == 0 && !states[i].cancelled
    ensures states[i].seen == states[i].version && states[i].seenConfigs == states[i].core.configs
  {
    HistoryIsValid(states, events, i);
  }
}
