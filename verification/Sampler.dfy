/**
 * The dashboard sampler in the form it has in the program: maps rebuilt or edited in loops under the lock. Every
 * locked section is proved against its function in SamplerState.
 */
module Sampler {
  import opened Wrappers
  import opened Config
  import opened SamplerState
  import opened SamplerLog
  import opened SamplerMachine

  /** Go's time.Duration: a 64-bit count of nanoseconds. Doubling past its range would be an error here. */
  newtype Duration = x: int | -0x8000_0000_0000_0000 <= x < 0x8000_0000_0000_0000

  lemma Doubled(unit: int, i: nat)
    ensures unit * Pow2(i + 1) == unit * Pow2(i) * 2
  {
  }

  lemma CapIsReached(unit: int, i: nat, failures: nat)
    requires unit > 0 && i < failures && unit * Pow2(i) * 2 >= MAX_BACKOFF
    ensures unit * Pow2(failures) >= MAX_BACKOFF
  {
    Doubled(unit, i);
    Pow2Grows(i + 1, failures);
    Scales(unit, Pow2(i + 1), Pow2(failures));
  }

  /** The doubling loop: five minutes at most, and no intermediate value leaves 64 bits. */
  method FailureBackoff(base: Duration, failures: int) returns (delay: Duration)
    ensures delay as int == Backoff(base as int, if failures < 0 then 0 else failures)
  {
    var unit: Duration := if base <= 0 then DEFAULT_INTERVAL as Duration else base;
    delay := unit;
    var i := 0;
    while i < failures
      invariant 0 <= i && (i <= failures || i == 0)
      invariant delay as int == unit as int * Pow2(i)
    {
      if delay >= MAX_BACKOFF as Duration / 2 {
        CapIsReached(unit as int, i, failures);
        return MAX_BACKOFF as Duration;
      }
      Doubled(unit as int, i);
      delay := delay * 2;
      i := i + 1;
    }
    if delay > MAX_BACKOFF as Duration {
      return MAX_BACKOFF as Duration;
    }
  }

  method EnabledList(configs: seq<ClusterConfig>) returns (result: seq<ClusterConfig>)
    ensures result == EnabledClusters(configs)
  {
    result := [];
    for i := 0 to |configs|
      invariant result == EnabledClusters(configs[..i])
    {
      assert configs[..i + 1][..i] == configs[..i];
      if IsEnabled(configs[i]) {
        result := result + [configs[i]];
      }
    }
    assert configs[..|configs|] == configs;
  }

  /** The configurations by id; the sampler's own list holds enabled clusters only. */
  method ById(configs: seq<ClusterConfig>) returns (table: Table)
    requires forall c <- configs :: IsEnabled(c)
    ensures table == EnabledConfigs(configs)
  {
    table := map[];
    for i := 0 to |configs|
      invariant table == EnabledConfigs(configs[..i])
    {
      EnabledConfigsStep(configs, i);
      table := table[configs[i].id := configs[i]];
    }
    assert configs[..|configs|] == configs;
  }

  class Sampler {
    var configs: seq<ClusterConfig>
    var options: Options
    var items: map<Id, Snapshot>
    var history: map<Id, seq<Point>>
    var retries: map<Id, Retry>
    var wake: bool

    function View(): Core
      reads this
    {
      Core(configs, options, items, history, retries)
    }

    ghost predicate Valid()
      reads this
    {
      (forall c <- configs :: IsEnabled(c)) && options.historyPoints >= 0
    }

    constructor (configs: seq<ClusterConfig>, options: Options)
      requires DistinctIds(configs)
      ensures Valid() && View() == Updated(EMPTY, configs, options) && !wake
    {
      this.configs, this.options, items, history, retries, wake := [], Options(0, 0, 0), map[], map[], map[], false;
      new;
      Update(configs, options);
      wake := false;
    }

    /** What a cluster keeps over an Update: all of it with the same connection, nothing with a new one. */
    method RebuildOne(cfg: ClusterConfig, previous: Table, historyPoints: nat)
      returns (item: Snapshot, points: seq<Point>, same: bool)
      requires previous == EnabledConfigs(configs)
      ensures item == UpdatedItem(View(), cfg) && points == UpdatedHistory(View(), cfg, historyPoints)
      ensures same == KeepsConnection(View(), cfg)
    {
      same := cfg.id in previous && SameConnection(previous[cfg.id], cfg);
      item := if cfg.id in items && same then items[cfg.id] else LoadingSnapshot(cfg);
      item := item.(id := cfg.id, name := cfg.name, readOnly := cfg.readOnly);
      points := [];
      if same {
        points := if cfg.id in history then history[cfg.id] else [];
      }
      if |points| > historyPoints {
        points := points[|points| - historyPoints..];
      }
    }

    /** The loop that builds the three next maps. */
    method Rebuild(enabled: seq<ClusterConfig>, options: Options)
      returns (nextItems: map<Id, Snapshot>, nextHistory: map<Id, seq<Point>>, nextRetries: map<Id, Retry>)
      requires Valid() && Listed(enabled) && options.historyPoints >= 0
      ensures Rebuilt(View(), enabled, options, nextItems, nextHistory, nextRetries)
    {
      var previous := ById(configs);
      nextItems, nextHistory, nextRetries := map[], map[], map[];
      for i := 0 to |enabled|
        invariant Rebuilt(View(), enabled[..i], options, nextItems, nextHistory, nextRetries)
      {
        var cfg := enabled[i];
        var item, points, same := RebuildOne(cfg, previous, options.historyPoints);
        RebuiltOneMore(View(), enabled, i, options, nextItems, nextHistory, nextRetries);
        nextItems, nextHistory := nextItems[cfg.id := item], nextHistory[cfg.id := points];
        if cfg.id in retries && same {
          nextRetries := nextRetries[cfg.id := retries[cfg.id]];
        }
      }
      assert enabled[..|enabled|] == enabled;
    }

    /** The locked section rebuilds the three maps; then the wake token is offered, or is there already. */
    method Update(configs: seq<ClusterConfig>, options: Options)
      requires Valid() && DistinctIds(configs)
      modifies this
      ensures Valid() && View() == Updated(old(View()), configs, options) && wake
    {
      var normalized := Normalized(options);
      var enabled := EnabledList(configs);
      EnabledIsListed(configs);
      RebuiltIsUpdated(View(), configs, options);
      var nextItems, nextHistory, nextRetries := Rebuild(enabled, normalized);
      this.configs, this.options := enabled, normalized;
      items, history, retries := nextItems, nextHistory, nextRetries;
      wake := true;
    }

    /** The clusters a Refresh samples, and how many at a time. */
    method SelectDue(now: int) returns (due: seq<ClusterConfig>, maximum: int)
      ensures due == Due(View(), now) && maximum == options.maxConcurrent
    {
      due := [];
      for i := 0 to |configs|
        invariant due == DueAmong(View(), configs[..i], now)
      {
        assert configs[..i + 1][..i] == configs[..i];
        var cfg := configs[i];
        if cfg.id in retries && retries[cfg.id].after > now {
          continue;
        }
        due := due + [cfg];
      }
      assert configs[..|configs|] == configs;
      maximum := options.maxConcurrent;
    }

    method CurrentConfig(sampled: ClusterConfig) returns (current: Option<ClusterConfig>)
      ensures current == Current(View(), sampled)
    {
      for i := 0 to |configs|
        invariant FindCluster(configs, sampled.id) == FindCluster(configs[i..], sampled.id)
      {
        if configs[i].id == sampled.id {
          return if SameConnection(configs[i], sampled) then Some(configs[i]) else None;
        }
      }
      current := None;
    }

    /** The loop body of a Refresh's end: a sample is taken over if its connection is still the current one. */
    method AcceptOne(sampled: Answer)
      requires Valid()
      modifies this`items, this`history, this`retries
      ensures Valid() && View() == Accepted(old(View()), sampled.cfg, sampled.snapshot, sampled.at)
    {
      var id := sampled.cfg.id;
      var current := CurrentConfig(sampled.cfg);
      if current.None? {
        return;
      }
      var snapshot := sampled.snapshot.(name := current.value.name, readOnly := current.value.readOnly);
      items := items[id := snapshot];
      if snapshot.status != Online {
        if snapshot.status == Offline {
          var failures := (if id in retries then retries[id].failures else 0) + 1;
          retries := retries[id := Retry(failures, sampled.at + Backoff(options.interval, failures))];
        }
        return;
      }
      retries := retries - {id};
      if !snapshot.lagAvailable {
        return;
      }
      var points := (if id in history then history[id] else []) + [PointOf(snapshot)];
      if |points| > options.historyPoints {
        points := points[|points| - options.historyPoints..];
      }
      history := history[id := points];
    }

    /** The end of a Refresh, in the order the results channel delivers. */
    method Accept(answers: seq<Answer>)
      requires Valid()
      modifies this`items, this`history, this`retries
      ensures Valid() && View() == AcceptAll(old(View()), answers)
    {
      for i := 0 to |answers|
        invariant View() == AcceptAll(old(View()), answers[..i])
      {
        assert answers[..i + 1][..i] == answers[..i];
        AcceptOne(answers[i]);
      }
      assert answers[..|answers|] == answers;
    }

    /** What the dashboard reads: the items in configuration order, and the histories of the same clusters. */
    method Read() returns (listed: seq<Snapshot>, histories: map<Id, seq<Point>>)
      requires forall c <- configs :: IsEnabled(c) && c.id in items && c.id in history
      ensures |listed| == |configs|
      ensures forall i :: 0 <= i < |configs| ==> listed[i] == items[configs[i].id]
      ensures histories.Keys == set c <- configs :: c.id
      ensures forall id <- histories :: id in history && histories[id] == history[id]
    {
      listed, histories := [], map[];
      for i := 0 to |configs|
        invariant |listed| == i
        invariant forall k :: 0 <= k < i ==> listed[k] == items[configs[k].id]
        invariant histories.Keys == set c <- configs[..i] :: c.id
        invariant forall id <- histories :: id in history && histories[id] == history[id]
      {
        assert configs[..i + 1] == configs[..i] + [configs[i]];
        var id := configs[i].id;
        listed := listed + [items[id]];
        histories := histories[id := history[id]];
      }
      assert configs[..|configs|] == configs;
    }
  }

  /** What Update's loop has built from the first clusters. */
  ghost predicate Rebuilt(c: Core, enabled: seq<ClusterConfig>, options: Options, items: map<Id, Snapshot>,
                          history: map<Id, seq<Point>>, retries: map<Id, Retry>)
  {
    var want := EnabledConfigs(enabled);
    && options.historyPoints >= 0
    && items == RebuiltItems(c, want)
    && history == RebuiltHistory(c, want, options.historyPoints)
    && retries == RebuiltRetries(c, want)
  }

  function RebuiltItems(c: Core, want: Table): map<Id, Snapshot> {
    map id <- want :: UpdatedItem(c, want[id])
  }

  function RebuiltHistory(c: Core, want: Table, historyPoints: nat): map<Id, seq<Point>> {
    map id <- want :: UpdatedHistory(c, want[id], historyPoints)
  }

  function RebuiltRetries(c: Core, want: Table): map<Id, Retry> {
    map id <- want | id in c.retries && KeepsConnection(c, want[id]) :: c.retries[id]
  }

  lemma RetriesOneMore(c: Core, want: Table, cfg: ClusterConfig)
    requires cfg.id !in want
    ensures RebuiltRetries(c, want[cfg.id := cfg]) ==
            if cfg.id in c.retries && KeepsConnection(c, cfg) then RebuiltRetries(c, want)[cfg.id := c.retries[cfg.id]]
            else RebuiltRetries(c, want)
  {
  }

  lemma HistoryOneMore(c: Core, want: Table, cfg: ClusterConfig, historyPoints: nat)
    requires cfg.id !in want
    ensures RebuiltHistory(c, want[cfg.id := cfg], historyPoints) ==
            RebuiltHistory(c, want, historyPoints)[cfg.id := UpdatedHistory(c, cfg, historyPoints)]
    ensures RebuiltItems(c, want[cfg.id := cfg]) == RebuiltItems(c, want)[cfg.id := UpdatedItem(c, cfg)]
  {
  }

  lemma RebuiltIsUpdated(c: Core, configs: seq<ClusterConfig>, options: Options)
    ensures var enabled, options' := EnabledClusters(configs), Normalized(options);
            Updated(c, configs, options) ==
            Core(enabled, options', RebuiltItems(c, EnabledConfigs(enabled)),
                 RebuiltHistory(c, EnabledConfigs(enabled), options'.historyPoints),
                 RebuiltRetries(c, EnabledConfigs(enabled)))
  {
  }

  lemma RebuiltOneMore(c: Core, enabled: seq<ClusterConfig>, i: nat, options: Options, items: map<Id, Snapshot>,
                       history: map<Id, seq<Point>>, retries: map<Id, Retry>)
    requires Listed(enabled) && i < |enabled| && Rebuilt(c, enabled[..i], options, items, history, retries)
    ensures var cfg := enabled[i];
            Rebuilt(c, enabled[..i + 1], options, items[cfg.id := UpdatedItem(c, cfg)],
                    history[cfg.id := UpdatedHistory(c, cfg, options.historyPoints)],
                    if cfg.id in c.retries && KeepsConnection(c, cfg) then retries[cfg.id := c.retries[cfg.id]]
                    else retries)
  {
    EnabledConfigsStep(enabled, i);
    EnabledConfigsFresh(enabled, i);
    RetriesOneMore(c, EnabledConfigs(enabled[..i]), enabled[i]);
    HistoryOneMore(c, EnabledConfigs(enabled[..i]), enabled[i], options.historyPoints);
  }
}
