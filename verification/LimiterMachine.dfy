/**
 * Login attempts in progress, of any number of clients. An attempt reads the clock before it takes the limiter's lock,
 * both for its check and for its failure, so the readings may reach the locked sections in another order.
 */
module LimiterMachine {
  import opened Limiter
  import opened Wrappers

  type Attempt = nat

  /** An attempt is checked, and if admitted it later proves malformed, fails, or succeeds. */
  datatype Event =
    | Check(client: string, attempt: Attempt, now: int)
    | Malformed(client: string, attempt: Attempt)
    | Fail(client: string, attempt: Attempt, now: int)
    | Succeed(client: string, attempt: Attempt)

  /**
   * One client's attempts that were admitted and have not come to an end. With each goes the latest reading of the
   * clock that had been used for the client by the end of the attempt's own check; `latest` is the latest by now.
   */
  datatype Side = Side(pending: map<Attempt, int>, latest: Option<int>)

  datatype State = State(failures: Failures, sides: map<string, Side>)

  function SideOf(s: State, client: string): Side {
    if client in s.sides then s.sides[client] else Side(map[], None)
  }

  function Later(latest: Option<int>, now: int): int {
    if latest.Some? && latest.value > now then latest.value else now
  }

  predicate CanHappen(s: State, e: Event) {
    if e.Check? then e.attempt !in SideOf(s, e.client).pending else e.attempt in SideOf(s, e.client).pending
  }

  function AfterSide(side: Side, e: Event, admitted: bool): Side {
    match e
    case Check(_, p, now) =>
      var latest := Later(side.latest, now);
      Side(if admitted then side.pending[p := latest] else side.pending, Some(latest))
    case Fail(_, p, now) => Side(side.pending - {p}, Some(Later(side.latest, now)))
    case _ => side.(pending := side.pending - {e.attempt})
  }

  function After(s: State, e: Event): State {
    var failures :=
      match e
      case Check(client, _, now) => AfterCheck(s.failures, client, now)
      case Fail(client, _, now) => AfterFailure(s.failures, client, now)
      case Malformed(_, _) => s.failures
      case Succeed(client, _) => s.failures - {client};
    var admitted := e.Check? && !Limited(s.failures, e.client, e.now);
    State(failures, s.sides[e.client := AfterSide(SideOf(s, e.client), e, admitted)])
  }

  function StateAfter(events: seq<Event>): State {
    if events == [] then State(map[], map[])
    else After(StateAfter(events[..|events| - 1]), events[|events| - 1])
  }

  ghost predicate IsRun(events: seq<Event>) {
    forall i :: 0 <= i < |events| ==> CanHappen(StateAfter(events[..i]), events[i])
  }

  /** At no moment does the client have more than `k` attempts in progress. */
  ghost predicate Overlap(events: seq<Event>, client: string, k: nat) {
    forall i :: 0 <= i <= |events| ==> |SideOf(StateAfter(events[..i]), client).pending| <= k
  }

  predicate Timed(e: Event, client: string) {
    (e.Check? || e.Fail?) && e.client == client
  }

  predicate ReadAfterCheck(s: State, e: Event, client: string) {
    e.Fail? && e.client == client && e.attempt in SideOf(s, client).pending ==>
      SideOf(s, client).pending[e.attempt] <= e.now
  }

  /**
   * What a clock that does not go back guarantees: an attempt reads it for its failure after its own check, and so not
   * before any reading that had been used by then. Readings for checks may be older than any used before them.
   */
  ghost predicate OnClock(events: seq<Event>, client: string) {
    forall i :: 0 <= i < |events| ==> ReadAfterCheck(StateAfter(events[..i]), events[i], client)
  }

  predicate NotBefore(s: State, e: Event, client: string) {
    Timed(e, client) && SideOf(s, client).latest.Some? ==> SideOf(s, client).latest.value <= e.now
  }

  /** The special case that the locked sections take the client's readings in the order of the clock. */
  ghost predicate InOrder(events: seq<Event>, client: string) {
    forall i :: 0 <= i < |events| ==> NotBefore(StateAfter(events[..i]), events[i], client)
  }

  ghost predicate Unsuccessful(events: seq<Event>, client: string) {
    forall i :: 0 <= i < |events| && events[i].client == client ==> !events[i].Succeed?
  }

  function CountOf(failures: Failures, client: string): nat {
    if client in failures then failures[client].count else 0
  }

  /** The readings with which failures of the client were recorded. */
  function Log(events: seq<Event>, client: string): seq<int> {
    if events == [] then []
    else
      var rest, last := Log(events[..|events| - 1], client), events[|events| - 1];
      if last.Fail? && last.client == client then rest + [last.now] else rest
  }

  /** How many of them fall into the half-open five minutes, in nanoseconds, that begin at `from`. */
  function CountIn(log: seq<int>, from: int): nat {
    if log == [] then 0
    else
      var n := |log| - 1;
      CountIn(log[..n], from) + if from <= log[n] < from + 300_000_000_000 then 1 else 0
  }

  // ----- One client

  /** All that matters for one client: what other clients do does not touch it. */
  datatype One = One(entry: Option<LoginFailures>, side: Side)

  function View(s: State, client: string): One {
    One(if client in s.failures then Some(s.failures[client]) else None, SideOf(s, client))
  }

  predicate Over(o: One, now: int) {
    o.entry.Some? && Expired(o.entry.value, now)
  }

  predicate Locked(o: One, now: int) {
    o.entry.Some? && !Over(o, now) && o.entry.value.count >= MAX_FAILURES
  }

  /** The entry after a failure. */
  function Counted(o: One, now: int): LoginFailures {
    if o.entry.None? || Over(o, now) then LoginFailures(1, now)
    else o.entry.value.(count := o.entry.value.count + 1)
  }

  function AfterOne(o: One, e: Event): One {
    match e
    case Check(_, _, now) => One(if Over(o, now) then None else o.entry, AfterSide(o.side, e, !Locked(o, now)))
    case Fail(_, _, now) => One(Some(Counted(o, now)), AfterSide(o.side, e, false))
    case Malformed(_, _) => One(o.entry, AfterSide(o.side, e, false))
    case Succeed(_, _) => One(None, AfterSide(o.side, e, false))
  }

  lemma ViewAfter(s: State, e: Event, client: string)
    ensures View(After(s, e), client) == if e.client == client then AfterOne(View(s, client), e) else View(s, client)
  {
  }

  /** The hypotheses of the bounds: with `free` the readings may come in any order the clock allows. */
  ghost predicate Attempts(events: seq<Event>, client: string, k: nat, free: bool) {
    && IsRun(events) && Overlap(events, client, k) && Unsuccessful(events, client)
    && if free then OnClock(events, client) else InOrder(events, client)
  }

  predicate Possible(o: One, e: Event, k: nat) {
    && (if e.Check? then e.attempt !in o.side.pending else e.attempt in o.side.pending)
    && |AfterOne(o, e).side.pending| <= k
  }

  /** An event of a run without success: `free` allows readings in any order that the clock does. */
  predicate Step(o: One, e: Event, k: nat, free: bool) {
    && Possible(o, e, k) && !e.Succeed?
    && (e.Fail? && free ==> o.side.pending[e.attempt] <= e.now)
    && ((e.Check? || e.Fail?) && !free && o.side.latest.Some? ==> o.side.latest.value <= e.now)
  }

  lemma LastOfRun(events: seq<Event>, client: string, k: nat)
    requires events != [] && IsRun(events) && Overlap(events, client, k)
    ensures var before, e := events[..|events| - 1], events[|events| - 1];
            var o := View(StateAfter(before), client);
            && IsRun(before) && Overlap(before, client, k)
            && View(StateAfter(events), client) == (if e.client == client then AfterOne(o, e) else o)
            && (e.client == client ==> Possible(o, e, k))
  {
    var before, e := events[..|events| - 1], events[|events| - 1];
    assert events[..|events|] == events;
    assert forall i :: 0 <= i <= |before| ==> before[..i] == events[..i];
    ViewAfter(StateAfter(before), e, client);
    assert CanHappen(StateAfter(before), e) && |SideOf(StateAfter(events), client).pending| <= k;
  }

  lemma PrefixesOfPrefix(events: seq<Event>)
    requires events != []
    ensures var before := events[..|events| - 1];
            forall i :: 0 <= i < |before| ==> before[..i] == events[..i] && before[i] == events[i]
  {
  }

  lemma LastOnClock(events: seq<Event>, client: string)
    requires events != [] && OnClock(events, client)
    ensures var before, e := events[..|events| - 1], events[|events| - 1];
            OnClock(before, client) && ReadAfterCheck(StateAfter(before), e, client)
  {
    PrefixesOfPrefix(events);
  }

  lemma LastInOrder(events: seq<Event>, client: string)
    requires events != [] && InOrder(events, client)
    ensures var before, e := events[..|events| - 1], events[|events| - 1];
            InOrder(before, client) && NotBefore(StateAfter(before), e, client)
  {
    PrefixesOfPrefix(events);
  }

  lemma LastAttempt(events: seq<Event>, client: string, k: nat, free: bool)
    requires events != [] && Attempts(events, client, k, free)
    ensures var before, e := events[..|events| - 1], events[|events| - 1];
            && Attempts(before, client, k, free)
            && (e.client == client ==> Step(View(StateAfter(before), client), e, k, free))
  {
    LastOfRun(events, client, k);
    if free {
      LastOnClock(events, client);
    } else {
      LastInOrder(events, client);
    }
  }

  lemma LogAfter(events: seq<Event>, client: string, from: int)
    requires events != []
    ensures var e := events[|events| - 1];
            CountIn(Log(events, client), from) ==
            CountIn(Log(events[..|events| - 1], client), from) +
            if e.Fail? && e.client == client && from <= e.now < from + WINDOW then 1 else 0
  {
    var rest, e := Log(events[..|events| - 1], client), events[|events| - 1];
    if e.Fail? && e.client == client {
      assert (rest + [e.now])[..|rest|] == rest;
    }
  }

  /** The attempt was admitted at event `j`, and none of the events since is its end. */
  ghost predicate UnderWay(events: seq<Event>, j: nat, client: string, p: Attempt) {
    && j < |events| && events[j].Check? && events[j].client == client && events[j].attempt == p
    && !Limited(StateAfter(events[..j]).failures, client, events[j].now)
    && forall k :: j < k < |events| ==> events[k].Check? || events[k].client != client || events[k].attempt != p
  }

  lemma UnderWayStays(events: seq<Event>, j: nat, client: string, p: Attempt)
    requires events != [] && j < |events| - 1
    ensures var e := events[|events| - 1];
            UnderWay(events, j, client, p) <==>
            UnderWay(events[..|events| - 1], j, client, p) && (e.Check? || e.client != client || e.attempt != p)
  {
    var before := events[..|events| - 1];
    assert before[..j] == events[..j];
    assert forall k :: 0 <= k < |before| ==> before[k] == events[k];
  }

  /** The attempts in progress are those that were admitted and have not come to an end. */
  lemma {:induction false} PendingAreUnderWay(events: seq<Event>, client: string, p: Attempt)
    requires IsRun(events)
    ensures p in SideOf(StateAfter(events), client).pending <==> exists j :: UnderWay(events, j, client, p)
  {
    if events != [] {
      var n := |events| - 1;
      var before, e := events[..n], events[n];
      assert forall i :: 0 <= i <= n ==> before[..i] == events[..i];
      PendingAreUnderWay(before, client, p);
      forall j | 0 <= j < n
        ensures UnderWay(events, j, client, p) <==>
                UnderWay(before, j, client, p) && (e.Check? || e.client != client || e.attempt != p)
      {
        UnderWayStays(events, j, client, p);
      }
      assert UnderWay(events, n, client, p) <==>
             e.Check? && e.client == client && e.attempt == p && !Limited(StateAfter(before).failures, client, e.now);
      assert CanHappen(StateAfter(before), e);
    }
  }
}
