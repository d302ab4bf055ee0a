/** Runs that reach the bounds of LimiterBounds. */
module LimiterRuns {
  import opened Limiter
  import opened LimiterMachine
  import opened LimiterBounds
  import opened Wrappers

  // ----- Runs of one client, event by event

  /** One client, at most `k` attempts at a time, the five minutes that begin at `from`, and which readings may come. */
  datatype Setting = Setting(client: string, k: nat, from: int, free: bool)

  /** Where such a run has got to, and how many failures of the five minutes it has recorded. */
  datatype Summary = Summary(one: One, hits: nat)

  /** None if the run takes a step it may not. */
  function Played(g: Setting, events: seq<Event>): Option<Summary> {
    if events == [] then Some(Summary(One(None, Side(map[], None)), 0))
    else
      var e := events[|events| - 1];
      match Played(g, events[..|events| - 1])
      case None => None
      case Some(s) =>
        if e.client == g.client && Step(s.one, e, g.k, g.free)
        then Some(Summary(AfterOne(s.one, e), s.hits + Hit(e, g.from))) else None
  }

  lemma {:induction false} PlayedIsView(g: Setting, events: seq<Event>)
    requires Played(g, events).Some?
    ensures View(StateAfter(events), g.client) == Played(g, events).value.one
  {
    if events != [] {
      PlayedIsView(g, events[..|events| - 1]);
      ViewAfter(StateAfter(events[..|events| - 1]), events[|events| - 1], g.client);
    }
  }

  lemma {:induction false} PlayedIsLogged(g: Setting, events: seq<Event>)
    requires Played(g, events).Some?
    ensures CountIn(Log(events, g.client), g.from) == Played(g, events).value.hits
  {
    if events != [] {
      PlayedIsLogged(g, events[..|events| - 1]);
      LogAfter(events, g.client, g.from);
    }
  }

  lemma {:induction false} PlayedPrefix(g: Setting, events: seq<Event>, i: nat)
    requires Played(g, events).Some? && i <= |events|
    ensures Played(g, events[..i]).Some?
  {
    if i == |events| {
      assert events[..i] == events;
    } else {
      assert events[..|events| - 1][..i] == events[..i];
      PlayedPrefix(g, events[..|events| - 1], i);
    }
  }

  lemma PlayedStep(g: Setting, events: seq<Event>, i: nat)
    requires Played(g, events).Some? && i < |events|
    ensures events[i].client == g.client && Step(View(StateAfter(events[..i]), g.client), events[i], g.k, g.free)
  {
    PlayedPrefix(g, events, i + 1);
    assert events[..i + 1][..i] == events[..i] && events[..i + 1][i] == events[i];
    PlayedPrefix(g, events, i);
    PlayedIsView(g, events[..i]);
  }

  lemma PlayedOverlap(g: Setting, events: seq<Event>)
    requires Played(g, events).Some?
    ensures |SideOf(StateAfter(events), g.client).pending| <= g.k
  {
    PlayedIsView(g, events);
  }

  lemma PlayedIsAttempts(g: Setting, events: seq<Event>)
    requires Played(g, events).Some?
    ensures Attempts(events, g.client, g.k, g.free)
  {
    forall i | 0 <= i < |events|
      ensures CanHappen(StateAfter(events[..i]), events[i]) && !events[i].Succeed?
      ensures g.free ==> ReadAfterCheck(StateAfter(events[..i]), events[i], g.client)
      ensures !g.free ==> NotBefore(StateAfter(events[..i]), events[i], g.client)
    {
      PlayedStep(g, events, i);
    }
    forall i | 0 <= i <= |events| ensures |SideOf(StateAfter(events[..i]), g.client).pending| <= g.k {
      PlayedPrefix(g, events, i);
      PlayedOverlap(g, events[..i]);
    }
  }

  lemma Play(g: Setting, events: seq<Event>, one: One, hits: nat, e: Event, next: One) returns (more: seq<Event>)
    requires Played(g, events) == Some(Summary(one, hits)) && e.client == g.client
    requires Step(one, e, g.k, g.free) && AfterOne(one, e) == next
    ensures Played(g, more) == Some(Summary(next, hits + Hit(e, g.from)))
  {
    more := events + [e];
    assert more[..|events|] == events;
  }

  // ----- Points on the way

  /** Slow attempts `next` to `slow` - 1: they were checked at 0 and have not failed yet. */
  function SlowBand(next: nat, slow: nat): map<Attempt, int> {
    if slow <= next then map[] else SlowBand(next, slow - 1)[slow - 1 := 0]
  }

  /** These, and `n` younger ones that were checked at `since`. */
  function Band(next: nat, slow: nat, n: nat, since: int): map<Attempt, int> {
    if n == 0 then SlowBand(next, slow) else Band(next, slow, n - 1, since)[slow + n - 1 := since]
  }

  lemma {:induction false} SlowBandKeys(next: nat, slow: nat)
    requires next <= slow
    ensures forall p: nat :: p in SlowBand(next, slow) <==> next <= p < slow
    ensures forall p <- SlowBand(next, slow) :: SlowBand(next, slow)[p] == 0
    ensures |SlowBand(next, slow)| == slow - next
  {
    if next < slow {
      SlowBandKeys(next, slow - 1);
      SizeAfterAdding(SlowBand(next, slow - 1), slow - 1, 0);
    }
  }

  lemma {:induction false} BandKeys(next: nat, slow: nat, n: nat, since: int)
    requires next <= slow
    ensures forall p: nat :: p in Band(next, slow, n, since) <==> next <= p < slow + n
    ensures forall p <- Band(next, slow, n, since) :: Band(next, slow, n, since)[p] == if p < slow then 0 else since
    ensures |Band(next, slow, n, since)| == slow + n - next
  {
    SlowBandKeys(next, slow);
    if n > 0 {
      BandKeys(next, slow, n - 1, since);
      SizeAfterAdding(Band(next, slow, n - 1, since), slow + n - 1, since);
    }
  }

  lemma YoungestLeaves(next: nat, slow: nat, n: nat, since: int)
    requires next <= slow && n > 0
    ensures Band(next, slow, n, since) - {slow + n - 1} == Band(next, slow, n - 1, since)
  {
    BandKeys(next, slow, n - 1, since);
  }

  lemma SlowestLeaves(next: nat, slow: nat, n: nat, since: int)
    requires next < slow
    ensures Band(next, slow, n, since) - {next} == Band(next + 1, slow, n, since)
  {
    BandKeys(next, slow, n, since);
    BandKeys(next + 1, slow, n, since);
  }

  /**
   * A point of a run of slow and younger attempts: which slow ones are still to fail, how many younger ones are under
   * way and since when, the latest reading, the entry, and the failures counted.
   */
  datatype Point = Point(
    next: nat, slow: nat, n: nat, since: int, latest: Option<int>, entry: Option<LoginFailures>, hits: nat)

  datatype Move = CheckSlow | CheckYoung(now: int) | FailYoung | FailSlow(now: int)

  function OneAt(p: Point): One {
    One(p.entry, Side(Band(p.next, p.slow, p.n, p.since), p.latest))
  }

  function Inside(g: Setting, now: int): nat {
    if g.from <= now < g.from + WINDOW then 1 else 0
  }

  function EntryAfter(entry: Option<LoginFailures>, now: int): LoginFailures {
    if entry.None? || Expired(entry.value, now) then LoginFailures(1, now)
    else entry.value.(count := entry.value.count + 1)
  }

  /** None where the move is not possible. */
  function Moved(g: Setting, p: Point, move: Move): Option<Point> {
    match move
    case CheckSlow =>
      if p.next == 0 && p.n == 0 && p.entry.None? && p.latest == (if p.slow == 0 then None else Some(0)) && p.slow < g.k
      then Some(p.(slow := p.slow + 1, latest := Some(0))) else None
    case CheckYoung(now) =>
      if p.next <= p.slow && p.slow + p.n - p.next < g.k && (p.latest.Some? ==> p.latest.value <= now)
         && (p.n > 0 ==> p.since == now)
         && (p.entry.Some? ==> Expired(p.entry.value, now) || p.entry.value.count < MAX_FAILURES)
      then
        Some(p.(n := p.n + 1, since := now, latest := Some(now),
                entry := if p.entry.Some? && Expired(p.entry.value, now) then None else p.entry))
      else None
    case FailYoung =>
      if p.next <= p.slow && p.n > 0 && p.slow + p.n - p.next <= g.k && p.latest == Some(p.since)
      then Some(p.(n := p.n - 1, entry := Some(EntryAfter(p.entry, p.since)), hits := p.hits + Inside(g, p.since))) else None
    case FailSlow(now) =>
      if g.free && p.next < p.slow && p.slow + p.n - p.next <= g.k && p.latest.Some? && 0 <= now <= p.latest.value
      then Some(p.(next := p.next + 1, entry := Some(EntryAfter(p.entry, now)), hits := p.hits + Inside(g, now))) else None
  }

  function EventOf(g: Setting, p: Point, move: Move): Event {
    match move
    case CheckSlow => Check(g.client, p.slow, 0)
    case CheckYoung(now) => Check(g.client, p.slow + p.n, now)
    case FailYoung => if p.n > 0 then Fail(g.client, p.slow + p.n - 1, p.since) else Fail(g.client, 0, 0)
    case FailSlow(now) => Fail(g.client, p.next, now)
  }

  lemma SlowCheckIsStep(g: Setting, p: Point)
    requires Moved(g, p, CheckSlow).Some?
    ensures var e, t := EventOf(g, p, CheckSlow), Moved(g, p, CheckSlow).value;
            Step(OneAt(p), e, g.k, g.free) && AfterOne(OneAt(p), e) == OneAt(t) && t.hits == p.hits + Hit(e, g.from)
  {
    SlowBandKeys(0, p.slow);
    SlowBandKeys(0, p.slow + 1);
  }

  lemma YoungCheckIsStep(g: Setting, p: Point, now: int)
    requires Moved(g, p, CheckYoung(now)).Some?
    ensures var e, t := EventOf(g, p, CheckYoung(now)), Moved(g, p, CheckYoung(now)).value;
            Step(OneAt(p), e, g.k, g.free) && AfterOne(OneAt(p), e) == OneAt(t) && t.hits == p.hits + Hit(e, g.from)
  {
    BandKeys(p.next, p.slow, p.n, p.since);
    BandKeys(p.next, p.slow, p.n + 1, now);
    assert Band(p.next, p.slow, p.n + 1, now) == Band(p.next, p.slow, p.n, p.since)[p.slow + p.n := now];
  }

  lemma YoungFailIsStep(g: Setting, p: Point)
    requires Moved(g, p, FailYoung).Some?
    ensures var e, t := EventOf(g, p, FailYoung), Moved(g, p, FailYoung).value;
            Step(OneAt(p), e, g.k, g.free) && AfterOne(OneAt(p), e) == OneAt(t) && t.hits == p.hits + Hit(e, g.from)
  {
    BandKeys(p.next, p.slow, p.n, p.since);
    BandKeys(p.next, p.slow, p.n - 1, p.since);
    YoungestLeaves(p.next, p.slow, p.n, p.since);
  }

  lemma SlowFailIsStep(g: Setting, p: Point, now: int)
    requires Moved(g, p, FailSlow(now)).Some?
    ensures var e, t := EventOf(g, p, FailSlow(now)), Moved(g, p, FailSlow(now)).value;
            Step(OneAt(p), e, g.k, g.free) && AfterOne(OneAt(p), e) == OneAt(t) && t.hits == p.hits + Hit(e, g.from)
  {
    BandKeys(p.next, p.slow, p.n, p.since);
    BandKeys(p.next + 1, p.slow, p.n, p.since);
    SlowestLeaves(p.next, p.slow, p.n, p.since);
  }

  const ORIGIN := Point(0, 0, 0, 0, None, None, 0)

  /** A set of points that moves do not leave. */
  ghost predicate Closed(g: Setting, reached: Point -> bool) {
    && reached(ORIGIN)
    && forall p, move :: reached(p) && Moved(g, p, move).Some? ==> reached(Moved(g, p, move).value)
  }

  /** The same of what matters for one client, with the failures counted. */
  ghost predicate ClosedOnes(g: Setting, ones: (One, nat) -> bool) {
    && ones(One(None, Side(map[], None)), 0)
    && forall one: One, hits: nat, e: Event :: ones(one, hits) && e.client == g.client && Step(one, e, g.k, g.free) ==>
         ones(AfterOne(one, e), hits + Hit(e, g.from))
  }

  lemma Take(g: Setting, ones: (One, nat) -> bool, one: One, hits: nat, e: Event)
    requires ClosedOnes(g, ones) && ones(one, hits) && e.client == g.client && Step(one, e, g.k, g.free)
    ensures ones(AfterOne(one, e), hits + Hit(e, g.from))
  {
  }

  lemma SlowCheckLeads(g: Setting, ones: (One, nat) -> bool, p: Point)
    requires ClosedOnes(g, ones) && ones(OneAt(p), p.hits) && Moved(g, p, CheckSlow).Some?
    ensures ones(OneAt(Moved(g, p, CheckSlow).value), Moved(g, p, CheckSlow).value.hits)
  {
    SlowCheckIsStep(g, p);
    Take(g, ones, OneAt(p), p.hits, EventOf(g, p, CheckSlow));
  }

  lemma YoungCheckLeads(g: Setting, ones: (One, nat) -> bool, p: Point, now: int)
    requires ClosedOnes(g, ones) && ones(OneAt(p), p.hits) && Moved(g, p, CheckYoung(now)).Some?
    ensures ones(OneAt(Moved(g, p, CheckYoung(now)).value), Moved(g, p, CheckYoung(now)).value.hits)
  {
    YoungCheckIsStep(g, p, now);
    Take(g, ones, OneAt(p), p.hits, EventOf(g, p, CheckYoung(now)));
  }

  lemma YoungFailLeads(g: Setting, ones: (One, nat) -> bool, p: Point)
    requires ClosedOnes(g, ones) && ones(OneAt(p), p.hits) && Moved(g, p, FailYoung).Some?
    ensures ones(OneAt(Moved(g, p, FailYoung).value), Moved(g, p, FailYoung).value.hits)
  {
    YoungFailIsStep(g, p);
    Take(g, ones, OneAt(p), p.hits, EventOf(g, p, FailYoung));
  }

  lemma SlowFailLeads(g: Setting, ones: (One, nat) -> bool, p: Point, now: int)
    requires ClosedOnes(g, ones) && ones(OneAt(p), p.hits) && Moved(g, p, FailSlow(now)).Some?
    ensures ones(OneAt(Moved(g, p, FailSlow(now)).value), Moved(g, p, FailSlow(now)).value.hits)
  {
    SlowFailIsStep(g, p, now);
    Take(g, ones, OneAt(p), p.hits, EventOf(g, p, FailSlow(now)));
  }

  lemma MoveLeads(g: Setting, ones: (One, nat) -> bool, p: Point, move: Move)
    requires ClosedOnes(g, ones) && ones(OneAt(p), p.hits) && Moved(g, p, move).Some?
    ensures ones(OneAt(Moved(g, p, move).value), Moved(g, p, move).value.hits)
  {
    match move
    case CheckSlow => SlowCheckLeads(g, ones, p);
    case CheckYoung(now) => YoungCheckLeads(g, ones, p, now);
    case FailYoung => YoungFailLeads(g, ones, p);
    case FailSlow(now) => SlowFailLeads(g, ones, p, now);
  }

  ghost predicate SomeRunReaches(g: Setting, one: One, hits: nat) {
    exists events :: Played(g, events) == Some(Summary(one, hits))
  }

  /** Runs are closed in this way, so what is shown of every such set is shown of them. */
  lemma RunsAreClosed(g: Setting)
    ensures ClosedOnes(g, (one: One, hits: nat) => SomeRunReaches(g, one, hits))
  {
    assert Played(g, []) == Some(Summary(One(None, Side(map[], None)), 0));
    forall one: One, hits: nat, e: Event | SomeRunReaches(g, one, hits) && e.client == g.client && Step(one, e, g.k, g.free)
      ensures SomeRunReaches(g, AfterOne(one, e), hits + Hit(e, g.from))
    {
      var events :| Played(g, events) == Some(Summary(one, hits));
      var more := Play(g, events, one, hits, e, AfterOne(one, e));
    }
  }

  lemma PointsAreClosed(g: Setting, ones: (One, nat) -> bool)
    requires ClosedOnes(g, ones)
    ensures Closed(g, (p: Point) => ones(OneAt(p), p.hits))
  {
    assert OneAt(ORIGIN) == One(None, Side(map[], None));
    forall p: Point, move: Move | ones(OneAt(p), p.hits) && Moved(g, p, move).Some?
      ensures ones(OneAt(Moved(g, p, move).value), Moved(g, p, move).value.hits)
    {
      MoveLeads(g, ones, p, move);
    }
  }

  // ----- Filling windows

  /** There is room for `m` more attempts at a time. */
  predicate HasPlace(g: Setting, p: Point, m: nat) {
    p.next <= p.slow && p.slow + p.n + m - p.next <= g.k
  }

  /** The window is open at this time, which is no earlier than any before. */
  predicate InWindow(p: Point, now: int) {
    p.latest.Some? && p.latest.value <= now && p.entry.Some? && !Expired(p.entry.value, now)
  }

  lemma Go(g: Setting, reached: Point -> bool, p: Point, move: Move)
    requires Closed(g, reached) && reached(p) && Moved(g, p, move).Some?
    ensures reached(Moved(g, p, move).value)
  {
  }

  /** An attempt that fails at once. */
  lemma FailAlone(g: Setting, reached: Point -> bool, p: Point, now: int)
    requires Closed(g, reached) && reached(p) && p.n == 0 && HasPlace(g, p, 1)
    requires p.latest.Some? ==> p.latest.value <= now
    requires p.entry.Some? ==> Expired(p.entry.value, now) || p.entry.value.count < MAX_FAILURES
    ensures reached(p.(since := now, latest := Some(now), entry := Some(EntryAfter(p.entry, now)),
                       hits := p.hits + Inside(g, now)))
  {
    Go(g, reached, p, CheckYoung(now));
    Go(g, reached, Moved(g, p, CheckYoung(now)).value, FailYoung);
  }

  lemma {:induction false} CheckMany(g: Setting, reached: Point -> bool, p: Point, m: nat)
    requires Closed(g, reached) && reached(p) && p.n == 0 && HasPlace(g, p, m) && InWindow(p, p.since)
    requires p.latest == Some(p.since) && p.entry.value.count < MAX_FAILURES
    ensures reached(p.(n := m))
  {
    if m == 0 {
      assert p.(n := m) == p;
    } else {
      CheckMany(g, reached, p, m - 1);
      Go(g, reached, p.(n := m - 1), CheckYoung(p.since));
    }
  }

  lemma FailYoungest(g: Setting, reached: Point -> bool, p: Point)
    requires Closed(g, reached) && reached(p) && p.n > 0 && HasPlace(g, p, 0) && InWindow(p, p.since)
    requires p.latest == Some(p.since) && Inside(g, p.since) == 1
    ensures reached(p.(n := p.n - 1, hits := p.hits + 1, entry := Some(p.entry.value.(count := p.entry.value.count + 1))))
  {
    Go(g, reached, p, FailYoung);
  }

  lemma {:induction false} FailMany(g: Setting, reached: Point -> bool, p: Point, m: nat)
    requires Closed(g, reached) && reached(p) && m <= p.n && HasPlace(g, p, 0) && InWindow(p, p.since)
    requires p.latest == Some(p.since) && Inside(g, p.since) == 1
    ensures reached(p.(n := p.n - m, hits := p.hits + m,
                       entry := Some(p.entry.value.(count := p.entry.value.count + m))))
    decreases m
  {
    if m == 0 {
      assert p.(n := p.n - m, hits := p.hits + m, entry := Some(p.entry.value.(count := p.entry.value.count + m))) == p;
    } else {
      var t := p.(n := p.n - 1, hits := p.hits + 1, entry := Some(p.entry.value.(count := p.entry.value.count + 1)));
      FailYoungest(g, reached, p);
      FailMany(g, reached, t, m - 1);
    }
  }

  /** The window is filled: one failure after the other up to four, and then `m` at once. */
  lemma {:induction false} FillWindow(g: Setting, reached: Point -> bool, p: Point, now: int, m: nat)
    requires Closed(g, reached) && reached(p) && p.n == 0 && m >= 1 && HasPlace(g, p, m)
    requires InWindow(p, now) && p.entry.value.count < 4 && Inside(g, now) == 1
    ensures reached(p.(since := now, latest := Some(now), entry := Some(p.entry.value.(count := 4 + m)),
                       hits := p.hits + 4 - p.entry.value.count + m))
    decreases 4 - p.entry.value.count
  {
    var f := p.entry.value;
    FailAlone(g, reached, p, now);
    var t := p.(since := now, latest := Some(now), entry := Some(f.(count := f.count + 1)), hits := p.hits + 1);
    if f.count == 3 {
      CheckMany(g, reached, t, m);
      FailMany(g, reached, t.(n := m), m);
    } else {
      FillWindow(g, reached, t, now, m);
    }
  }

  // ----- Readings in order

  lemma TwoWindows(g: Setting, reached: Point -> bool)
    requires Closed(g, reached) && g.k >= 1 && g.from == 1
    ensures reached(Point(0, 0, 0, WINDOW, Some(WINDOW), Some(LoginFailures(4 + g.k, WINDOW)), 7 + 2 * g.k))
  {
    FailAlone(g, reached, ORIGIN, 0);
    FillWindow(g, reached, Point(0, 0, 0, 0, Some(0), Some(LoginFailures(1, 0)), 0), WINDOW - 1, g.k);
    var p := Point(0, 0, 0, WINDOW - 1, Some(WINDOW - 1), Some(LoginFailures(4 + g.k, 0)), 3 + g.k);
    FailAlone(g, reached, p, WINDOW);
    var q := Point(0, 0, 0, WINDOW, Some(WINDOW), Some(LoginFailures(1, WINDOW)), 4 + g.k);
    FillWindow(g, reached, q, WINDOW, g.k);
  }

  /** A run that stands at a point is one of those the bounds are about. */
  lemma RunTo(g: Setting, p: Point) returns (events: seq<Event>)
    requires SomeRunReaches(g, OneAt(p), p.hits)
    ensures Attempts(events, g.client, g.k, g.free)
    ensures View(StateAfter(events), g.client).entry == p.entry && CountIn(Log(events, g.client), g.from) == p.hits
  {
    events :| Played(g, events) == Some(Summary(OneAt(p), p.hits));
    PlayedIsAttempts(g, events);
    PlayedIsView(g, events);
    PlayedIsLogged(g, events);
  }

  /** For every number of attempts at a time one run, with its readings in order, reaches 4 + k and 7 + 2k. */
  lemma BoundsAreReached(client: string, k: nat)
    requires k >= 1
    ensures exists events ::
              && IsRun(events) && Overlap(events, client, k) && Unsuccessful(events, client) && InOrder(events, client)
              && CountOf(StateAfter(events).failures, client) == 4 + k
              && CountIn(Log(events, client), 1) == 7 + 2 * k
  {
    var g := Setting(client, k, 1, false);
    var ones := (one: One, hits: nat) => SomeRunReaches(g, one, hits);
    RunsAreClosed(g);
    PointsAreClosed(g, ones);
    TwoWindows(g, (p: Point) => ones(OneAt(p), p.hits));
    var events := RunTo(g, Point(0, 0, 0, WINDOW, Some(WINDOW), Some(LoginFailures(4 + k, WINDOW)), 7 + 2 * k));
    assert CountIn(Log(events, client), 1) == 7 + 2 * k;
  }

  // ----- Readings in any order the clock allows

  lemma {:induction false} CheckAllSlow(g: Setting, reached: Point -> bool, m: nat)
    requires Closed(g, reached) && m <= g.k
    ensures reached(ORIGIN.(slow := m, latest := if m == 0 then None else Some(0)))
  {
    if m == 0 {
      assert ORIGIN.(slow := m, latest := if m == 0 then None else Some(0)) == ORIGIN;
    } else {
      CheckAllSlow(g, reached, m - 1);
      Go(g, reached, ORIGIN.(slow := m - 1, latest := if m - 1 == 0 then None else Some(0)), CheckSlow);
    }
  }

  /** The failures of the first `i` + 1 windows. */
  function Hits(i: nat): nat {
    if i == 0 then 4 else Hits(i - 1) + 4 + i
  }

  /** The point at which window `i` is full. */
  function FullAt(g: Setting, i: nat): Point {
    var now := if i == 0 then g.k else WINDOW + i - 1;
    Point(i + 1, g.k, 0, now, Some(now), Some(LoginFailures(5 + i, i)), Hits(i))
  }

  lemma FirstWindow(g: Setting, reached: Point -> bool)
    requires Closed(g, reached) && g.free && 1 <= g.k < WINDOW && g.from == g.k
    ensures reached(FullAt(g, 0))
  {
    CheckAllSlow(g, reached, g.k);
    Go(g, reached, ORIGIN.(slow := g.k, latest := Some(0)), FailSlow(0));
    FillWindow(g, reached, Point(1, g.k, 0, 0, Some(0), Some(LoginFailures(1, 0)), 0), g.k, 1);
  }

  /** The last window is over: the next check forgets it, and a slow failure opens the next one. */
  lemma OpenNext(g: Setting, reached: Point -> bool, p: Point, now: int, i: nat)
    requires Closed(g, reached) && reached(p) && g.free && p.n == 0 && HasPlace(g, p, 1) && p.next == i < p.slow
    requires p.latest.Some? && p.latest.value <= now && i <= now && Inside(g, i) == 0
    requires p.entry.Some? && Expired(p.entry.value, now)
    ensures reached(p.(next := i + 1, n := 1, since := now, latest := Some(now), entry := Some(LoginFailures(1, i))))
  {
    Go(g, reached, p, CheckYoung(now));
    Go(g, reached, p.(n := 1, since := now, latest := Some(now), entry := None), FailSlow(i));
  }

  lemma NextWindow(g: Setting, reached: Point -> bool, i: nat)
    requires Closed(g, reached) && g.free && 1 <= i < g.k < WINDOW && g.from == g.k && reached(FullAt(g, i - 1))
    ensures reached(FullAt(g, i))
  {
    var now, hits := WINDOW + i - 1, Hits(i - 1);
    OpenNext(g, reached, FullAt(g, i - 1), now, i);
    FailYoungest(g, reached, Point(i + 1, g.k, 1, now, Some(now), Some(LoginFailures(1, i)), hits));
    FillWindow(g, reached, Point(i + 1, g.k, 0, now, Some(now), Some(LoginFailures(2, i)), hits + 1), now, i + 1);
  }

  /**
   * Window `i` is opened by slow attempt `i` with reading `i`, before the five minutes; all its other failures fall
   * into them. It is full as soon as the remaining slow attempts leave no room for more at once.
   */
  lemma {:induction false} SlowWindows(g: Setting, reached: Point -> bool, i: nat)
    requires Closed(g, reached) && g.free && i < g.k < WINDOW && g.from == g.k
    ensures reached(FullAt(g, i))
  {
    if i == 0 {
      FirstWindow(g, reached);
    } else {
      SlowWindows(g, reached, i - 1);
      NextWindow(g, reached, i);
    }
  }

  lemma {:induction false} HitsAreClosed(i: nat)
    ensures 2 * Hits(i) == (i + 1) * (i + 8)
  {
    if i > 0 {
      HitsAreClosed(i - 1);
      assert (i + 1) * (i + 8) == i * (i + 7) + 2 * (4 + i);
    }
  }

  function LastPoint(k: nat): Point {
    var now := WINDOW + k - 1;
    Point(k, k, 0, now, Some(now), Some(LoginFailures(4 + k, now)), Hits(k))
  }

  lemma AllWindows(g: Setting, reached: Point -> bool)
    requires Closed(g, reached) && g.free && 1 <= g.k < WINDOW && g.from == g.k
    ensures reached(LastPoint(g.k))
  {
    var k, now := g.k, WINDOW + g.k - 1;
    SlowWindows(g, reached, k - 1);
    FailAlone(g, reached, FullAt(g, k - 1), now);
    FillWindow(g, reached, Point(k, k, 0, now, Some(now), Some(LoginFailures(1, now)), Hits(k - 1) + 1), now, k);
  }

  lemma SlowRun(client: string, k: nat) returns (events: seq<Event>)
    requires 1 <= k < WINDOW
    ensures IsRun(events) && Overlap(events, client, k) && Unsuccessful(events, client) && OnClock(events, client)
    ensures CountIn(Log(events, client), k) == Hits(k)
  {
    var g := Setting(client, k, k, true);
    var ones := (one: One, hits: nat) => SomeRunReaches(g, one, hits);
    RunsAreClosed(g);
    PointsAreClosed(g, ones);
    AllWindows(g, (p: Point) => ones(OneAt(p), p.hits));
    events := RunTo(g, LastPoint(k));
  }

  /**
   * The bound for readings in any order is reached as well, for every number of attempts at a time below the
   * nanoseconds of a window: slow attempts, each of which opens a window with a reading from before the five minutes.
   */
  lemma SlowAttemptsReachBound(client: string, k: nat)
    requires 1 <= k < WINDOW
    ensures exists events ::
              && IsRun(events) && Overlap(events, client, k) && Unsuccessful(events, client) && OnClock(events, client)
              && 2 * CountIn(Log(events, client), k) == (k + 1) * (k + 8)
  {
    var events := SlowRun(client, k);
    HitsAreClosed(k);
    assert 2 * CountIn(Log(events, client), k) == (k + 1) * (k + 8);
  }

  lemma MoreThanInOrder(k: nat)
    requires k >= 2
    ensures Hits(k) > 7 + 2 * k && (k == 2 ==> Hits(k) == 15)
  {
    HitsAreClosed(k);
    assert (k + 1) * (k + 8) - 2 * (7 + 2 * k) == (k + 6) * (k - 1);
    assert (k + 6) * (k - 1) > 0;
  }

  /** So from two attempts at a time on 7 + 2k is no bound for them: with two, fifteen failures in five minutes. */
  lemma OutOfOrderExceeds(client: string, k: nat)
    requires 2 <= k < WINDOW
    ensures exists events ::
              && IsRun(events) && Overlap(events, client, k) && Unsuccessful(events, client) && OnClock(events, client)
              && CountIn(Log(events, client), k) > 7 + 2 * k && (k == 2 ==> CountIn(Log(events, client), k) == 15)
  {
    MoreThanInOrder(k);
    var events := SlowRun(client, k);
    assert CountIn(Log(events, client), k) == Hits(k);
  }
}
