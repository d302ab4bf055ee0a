/**
 * What the dashboard sampler keeps under its lock, what each locked section does to it, and the unbounded log of
 * accepted samples it summarises.
 */
module SamplerState {
  import opened Wrappers
  import opened Config

  const SECOND := 1_000_000_000
  const DEFAULT_INTERVAL := 15 * SECOND
  const MAX_BACKOFF := 300 * SECOND
  const DEFAULT_HISTORY := 240
  const DEFAULT_CONCURRENT := 4

  datatype Status = Blank | Loading | Online | Offline | Other(text: string)

  datatype Snapshot = Snapshot(
    id: Id, name: string, status: Status, online: bool, error: string, sampledAt: int, latencyMs: int, brokers: int,
    topics: int, partitions: int, consumerGroups: int, underReplicated: int, totalLag: int, lagAvailable: bool,
    lagError: string, readOnly: bool)

  datatype Point = Point(timestamp: int, totalLag: int, partitions: int, topics: int)

  datatype Options = Options(interval: int, historyPoints: int, maxConcurrent: int)

  datatype Retry = Retry(failures: nat, after: int)

  datatype Core = Core(
    configs: seq<ClusterConfig>, options: Options, items: map<Id, Snapshot>, history: map<Id, seq<Point>>,
    retries: map<Id, Retry>)

  const EMPTY := Core([], Options(0, 0, 0), map[], map[], map[])

  // ----- Values

  function Normalized(o: Options): (n: Options)
    ensures n.interval > 0 && n.historyPoints >= 2 && n.maxConcurrent >= 1
  {
    Options(if o.interval <= 0 then DEFAULT_INTERVAL else o.interval,
            if o.historyPoints < 2 then DEFAULT_HISTORY else o.historyPoints,
            if o.maxConcurrent < 1 then DEFAULT_CONCURRENT else o.maxConcurrent)
  }

  function LoadingSnapshot(c: ClusterConfig): Snapshot {
    Snapshot(c.id, c.name, Loading, false, "", 0, 0, 0, 0, 0, 0, 0, 0, false, "", c.readOnly)
  }

  /** A snapshot under the display fields of a configuration. */
  function Labelled(s: Snapshot, c: ClusterConfig): Snapshot {
    s.(id := c.id, name := c.name, readOnly := c.readOnly)
  }

  /** A Source answer as the worker hands it on; `now` stands in for a missing sample time. */
  function NormalizedSnapshot(s: Snapshot, c: ClusterConfig, now: int): Snapshot {
    var status := if s.status != Blank then s.status else if s.online then Online else Offline;
    Labelled(s, c).(status := status, online := status == Online, sampledAt := if s.sampledAt == 0 then now else s.sampledAt)
  }

  function PointOf(s: Snapshot): Point {
    Point(s.sampledAt, s.totalLag, s.partitions, s.topics)
  }

  /** The last `n` elements, or all of them. */
  function Last<T>(s: seq<T>, n: nat): seq<T> {
    if |s| > n then s[|s| - n..] else s
  }

  function Pow2(n: nat): nat {
    if n == 0 then 1 else 2 * Pow2(n - 1)
  }

  function Min(a: int, b: int): int {
    if a < b then a else b
  }

  /** The delay after a number of consecutive failures. */
  function Backoff(base: int, failures: nat): int {
    Min((if base <= 0 then DEFAULT_INTERVAL else base) * Pow2(failures), MAX_BACKOFF)
  }

  // ----- The locked sections

  function Points(c: Core, id: Id): seq<Point> {
    if id in c.history then c.history[id] else []
  }

  predicate KeepsConnection(c: Core, cfg: ClusterConfig) {
    var previous := EnabledConfigs(c.configs);
    cfg.id in previous && SameConnection(previous[cfg.id], cfg)
  }

  function UpdatedItem(c: Core, cfg: ClusterConfig): Snapshot {
    if cfg.id in c.items && KeepsConnection(c, cfg) then Labelled(c.items[cfg.id], cfg) else LoadingSnapshot(cfg)
  }

  function UpdatedHistory(c: Core, cfg: ClusterConfig, historyPoints: nat): seq<Point> {
    if KeepsConnection(c, cfg) then Last(Points(c, cfg.id), historyPoints) else []
  }

  function Updated(c: Core, configs: seq<ClusterConfig>, options: Options): Core {
    var options, enabled := Normalized(options), EnabledClusters(configs);
    var want := EnabledConfigs(enabled);
    Core(enabled, options,
         map id <- want :: UpdatedItem(c, want[id]),
         map id <- want :: UpdatedHistory(c, want[id], options.historyPoints),
         map id <- want | id in c.retries && KeepsConnection(c, want[id]) :: c.retries[id])
  }

  predicate IsDue(c: Core, cfg: ClusterConfig, now: int) {
    cfg.id in c.retries ==> c.retries[cfg.id].after <= now
  }

  function DueAmong(c: Core, cs: seq<ClusterConfig>, now: int): seq<ClusterConfig> {
    if cs == [] then []
    else
      var rest, last := DueAmong(c, cs[..|cs| - 1], now), cs[|cs| - 1];
      if IsDue(c, last, now) then rest + [last] else rest
  }

  /** The clusters a Refresh samples. */
  function Due(c: Core, now: int): seq<ClusterConfig> {
    DueAmong(c, c.configs, now)
  }

  /** The configuration a finished sample still belongs to. */
  function Current(c: Core, sampled: ClusterConfig): Option<ClusterConfig> {
    match FindCluster(c.configs, sampled.id)
    case Some(cfg) => if SameConnection(cfg, sampled) then Some(cfg) else None
    case None => None
  }

  function Failures(c: Core, id: Id): nat {
    if id in c.retries then c.retries[id].failures else 0
  }

  /** Taking over one sample, accepted at time `now`. */
  function Accepted(c: Core, sampled: ClusterConfig, snapshot: Snapshot, now: int): Core
    requires c.options.historyPoints >= 0
  {
    var current := Current(c, sampled);
    if current.None? then c
    else
      var id := sampled.id;
      var item := snapshot.(name := current.value.name, readOnly := current.value.readOnly);
      var c := c.(items := c.items[id := item]);
      if item.status == Offline then
        var failures := Failures(c, id) + 1;
        c.(retries := c.retries[id := Retry(failures, now + Backoff(c.options.interval, failures))])
      else if item.status != Online then c
      else
        var c := c.(retries := c.retries - {id});
        if !item.lagAvailable then c
        else c.(history := c.history[id := Last(Points(c, id) + [PointOf(item)], c.options.historyPoints)])
  }

  // ----- The unbounded log

  /** One accepted Source call: the configuration it was made with, its answer, when, and the interval then. */
  datatype Sample = Sample(cfg: ClusterConfig, snapshot: Snapshot, at: int, interval: int)

  type Log = map<Id, seq<Sample>>

  function PointsOf(samples: seq<Sample>): seq<Point> {
    if samples == [] then []
    else
      var rest, last := PointsOf(samples[..|samples| - 1]), samples[|samples| - 1].snapshot;
      if last.status == Online && last.lagAvailable then rest + [PointOf(last)] else rest
  }

  /** The retry entry the log calls for: counting offline samples since the last online one. */
  function RetryOf(samples: seq<Sample>): Option<Retry> {
    if samples == [] then None
    else
      var rest, last := RetryOf(samples[..|samples| - 1]), samples[|samples| - 1];
      if last.snapshot.status == Online then None
      else if last.snapshot.status != Offline then rest
      else
        var failures := (if rest.Some? then rest.value.failures else 0) + 1;
        Some(Retry(failures, last.at + Backoff(last.interval, failures)))
  }

  /** What is shown for a cluster: its last accepted sample under its current display fields. */
  function ItemOf(cfg: ClusterConfig, samples: seq<Sample>): Snapshot {
    if samples == [] then LoadingSnapshot(cfg) else Labelled(samples[|samples| - 1].snapshot, cfg)
  }

  /** Update forgets the samples of clusters that go away or change their connection. */
  function UpdatedLog(c: Core, log: Log, configs: seq<ClusterConfig>): Log {
    var want := EnabledConfigs(EnabledClusters(configs));
    map id <- want :: if id in log && KeepsConnection(c, want[id]) then log[id] else []
  }

  function AcceptedLog(c: Core, log: Log, sampled: ClusterConfig, snapshot: Snapshot, now: int): Log {
    if Current(c, sampled).None? then log
    else
      var before := if sampled.id in log then log[sampled.id] else [];
      log[sampled.id := before + [Sample(sampled, snapshot, now, c.options.interval)]]
  }

  predicate IsSuffix<T(==)>(s: seq<T>, whole: seq<T>) {
    |s| <= |whole| && s == whole[|whole| - |s|..]
  }

  /** A list of enabled clusters with distinct ids. */
  ghost predicate Listed(cs: seq<ClusterConfig>) {
    DistinctIds(cs) && forall c <- cs :: IsEnabled(c)
  }

  /** The items, histories and samples are those of exactly the current clusters. */
  ghost predicate Keyed(c: Core, log: Log) {
    var ids := EnabledConfigs(c.configs).Keys;
    c.items.Keys == ids && c.history.Keys == ids && log.Keys == ids && c.retries.Keys <= ids
  }

  /** The sampler's maps are what the log of accepted samples says, with the history cut to the configured length. */
  ghost predicate Summarises(c: Core, log: Log) {
    && Listed(c.configs)
    && Keyed(c, log)
    && forall id <- log :: SummarisesOne(c, id, EnabledConfigs(c.configs)[id], log[id])
  }

  ghost predicate SummarisesOne(c: Core, id: Id, cfg: ClusterConfig, samples: seq<Sample>) {
    && cfg.id == id && id in c.items && id in c.history
    && c.items[id] == ItemOf(cfg, samples)
    && IsSuffix(c.history[id], PointsOf(samples)) && |c.history[id]| <= c.options.historyPoints
    && (if id in c.retries then Some(c.retries[id]) else None) == RetryOf(samples)
    && forall s <- samples :: s.cfg.id == id && SameConnection(s.cfg, cfg)
  }
}
