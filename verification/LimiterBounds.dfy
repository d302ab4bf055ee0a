/** How many failures of one client the limiter can record, in one window and in any five minutes. */
module LimiterBounds {
  import opened Limiter
  import opened LimiterMachine
  import opened Wrappers

  // ----- The count

  /** What every run keeps, whatever the clock does. */
  ghost predicate Sound(o: One, k: nat) {
    && |o.side.pending| <= k
    && (o.side.latest.None? ==> o.side.pending == map[] && o.entry.None?)
    && (o.side.latest.Some? ==> forall p <- o.side.pending :: o.side.pending[p] <= o.side.latest.value)
    && (o.entry.Some? ==>
          && 1 <= o.entry.value.count && o.entry.value.count + |o.side.pending| <= 4 + k
          && o.entry.value.firstAt <= o.side.latest.value)
  }

  lemma SizeAfterAdding(pending: map<Attempt, int>, p: Attempt, since: int)
    requires p !in pending
    ensures |pending[p := since]| == |pending| + 1
  {
    assert pending[p := since].Keys == pending.Keys + {p};
  }

  lemma SizeAfterRemoving(pending: map<Attempt, int>, p: Attempt)
    requires p in pending
    ensures |pending - {p}| == |pending| - 1
  {
    assert (pending - {p}).Keys == pending.Keys - {p};
  }

  lemma EventKeepsSound(o: One, e: Event, k: nat)
    requires Sound(o, k) && Possible(o, e, k)
    ensures Sound(AfterOne(o, e), k)
  {
    if e.Check? {
      SizeAfterAdding(o.side.pending, e.attempt, Later(o.side.latest, e.now));
    } else {
      SizeAfterRemoving(o.side.pending, e.attempt);
    }
  }

  lemma {:induction false} RunIsSound(events: seq<Event>, client: string, k: nat)
    requires IsRun(events) && Overlap(events, client, k)
    ensures Sound(View(StateAfter(events), client), k)
  {
    if events != [] {
      var before, e := events[..|events| - 1], events[|events| - 1];
      LastOfRun(events, client, k);
      RunIsSound(before, client, k);
      if e.client == client {
        EventKeepsSound(View(StateAfter(before), client), e, k);
      }
    }
  }

  /** With at most `k` attempts at a time, no count goes beyond 4 + k, whatever the clock does. */
  lemma CountStaysBounded(events: seq<Event>, client: string, k: nat)
    requires IsRun(events) && Overlap(events, client, k)
    ensures CountOf(StateAfter(events).failures, client) <= 4 + k
  {
    RunIsSound(events, client, k);
  }

  // ----- Locks

  function AfterAll(s: State, events: seq<Event>): State {
    if events == [] then s else After(AfterAll(s, events[..|events| - 1]), events[|events| - 1])
  }

  /**
   * Five failures lock a client out until five minutes after the first of them: until then, and whatever else happens
   * short of a success, further attempts and failures of attempts that were under way included, the window stays the
   * same, its count does not fall, and no check is passed.
   */
  lemma {:induction false} LockHolds(s: State, events: seq<Event>, client: string)
    requires client in s.failures && s.failures[client].count >= 5
    requires forall i :: 0 <= i < |events| && Timed(events[i], client) ==>
               events[i].now < s.failures[client].firstAt + 300_000_000_000
    requires Unsuccessful(events, client)
    ensures var t := AfterAll(s, events);
            && client in t.failures && t.failures[client].firstAt == s.failures[client].firstAt
            && t.failures[client].count >= s.failures[client].count
            && forall now ::
                 Limited(t.failures, client, now) <==> now < s.failures[client].firstAt + 300_000_000_000
  {
    if events != [] {
      var n := |events| - 1;
      LockHolds(s, events[..n], client);
      ViewAfter(AfterAll(s, events[..n]), events[n], client);
      assert Timed(events[n], client) ==> events[n].now < s.failures[client].firstAt + 300_000_000_000;
    }
  }

  // ----- Five minutes

  /** The attempts in progress that may still read a time before `t`. */
  function Before(pending: map<Attempt, int>, t: int): set<Attempt> {
    set p | p in pending && pending[p] < t
  }

  /**
   * The most failures of the five minutes that are still to come when no window is open and `stale` attempts may read
   * an earlier time: each of these can open a window before the five minutes, which then fills within them.
   */
  function Most(stale: nat, k: nat): nat
    requires stale <= k
  {
    if stale == 0 then 4 + k else Most(stale - 1, k) + 4 + k - stale
  }

  lemma {:induction false} MostGrows(a: nat, b: nat, k: nat)
    requires a <= b <= k
    ensures Most(a, k) <= Most(b, k)
  {
    if a < b {
      MostGrows(a, b - 1, k);
    }
  }

  lemma {:induction false} MostIsClosed(stale: nat, k: nat)
    requires stale <= k
    ensures 2 * Most(stale, k) == 2 * (stale + 1) * (4 + k) - stale * (stale + 1)
  {
    if stale > 0 {
      MostIsClosed(stale - 1, k);
    }
  }

  lemma BeforeAfterAdding(pending: map<Attempt, int>, p: Attempt, since: int, t: int)
    requires p !in pending
    ensures |Before(pending[p := since], t)| == |Before(pending, t)| + if since < t then 1 else 0
  {
    assert Before(pending[p := since], t) == Before(pending, t) + if since < t then {p} else {};
  }

  lemma BeforeAfterRemoving(pending: map<Attempt, int>, p: Attempt, t: int)
    requires p in pending
    ensures |Before(pending - {p}, t)| == |Before(pending, t)| - if pending[p] < t then 1 else 0
  {
    assert Before(pending - {p}, t) == Before(pending, t) - if pending[p] < t then {p} else {};
  }

  lemma BeforeIsSome(pending: map<Attempt, int>, t: int)
    ensures |Before(pending, t)| <= |pending|
  {
    SubsetSize(Before(pending, t), pending.Keys);
  }

  /** The attempts that may read a time before `from` although a later one has been used. */
  function Stale(o: One, from: int, free: bool): nat {
    if free then |Before(o.side.pending, from)| else 0
  }

  /**
   * At most how many failures with readings in the five minutes from `from` on can still come, once a reading of that
   * time has been used. After the five minutes only attempts that were under way before can bring one.
   */
  function Rest(o: One, from: int, k: nat, free: bool): int
    requires o.side.latest.Some? && Stale(o, from, free) <= k
  {
    var stale := Stale(o, from, free);
    if o.side.latest.value >= from + WINDOW then |Before(o.side.pending, from + WINDOW)|
    else if o.entry.None? then Most(stale, k)
    else if o.entry.value.firstAt < from then 4 + k - stale - o.entry.value.count + Most(stale, k)
    else 4 + k - o.entry.value.count
  }

  function Cap(k: nat, free: bool): (cap: nat)
    ensures cap <= k
  {
    if free || k == 0 then k else 1
  }

  /** The failures so far, and those that can still come, are within the bound. */
  ghost predicate Within(o: One, hits: nat, from: int, k: nat, free: bool) {
    && Stale(o, from, free) <= k
    && if o.side.latest.None? || o.side.latest.value < from then hits == 0
       else hits + Rest(o, from, k, free) <= Most(Cap(k, free), k)
  }

  function Hit(e: Event, from: int): nat {
    if e.Fail? && from <= e.now < from + WINDOW then 1 else 0
  }

  lemma StaleIsBounded(o: One, from: int, k: nat, free: bool)
    requires Sound(o, k)
    ensures Stale(o, from, free) <= |o.side.pending| <= k && |Before(o.side.pending, from + WINDOW)| <= |o.side.pending|
  {
    BeforeIsSome(o.side.pending, from);
    BeforeIsSome(o.side.pending, from + WINDOW);
  }

  lemma MostIsEnough(stale: nat, k: nat)
    requires stale <= k
    ensures Most(stale, k) >= 4 + k
    ensures stale < k ==> Most(stale + 1, k) == Most(stale, k) + 4 + k - (stale + 1)
  {
    MostGrows(0, stale, k);
  }

  /** The first reading in or after the five minutes: whatever came before it, no failure of theirs has. */
  lemma FirstCheck(o: One, e: Event, from: int, k: nat, free: bool)
    requires Sound(o, k) && Step(o, e, k, free) && e.Check?
    requires o.side.latest.None? || o.side.latest.value < from
    requires Later(o.side.latest, e.now) >= from
    ensures Within(AfterOne(o, e), 0, from, k, free)
  {
    var t := AfterOne(o, e);
    EventKeepsSound(o, e, k);
    StaleIsBounded(o, from, k, free);
    StaleIsBounded(t, from, k, free);
    SizeAfterAdding(o.side.pending, e.attempt, e.now);
    BeforeAfterAdding(o.side.pending, e.attempt, e.now, from);
    OneIsNotStale(t, from, k, free);
  }

  lemma FirstFailure(o: One, e: Event, from: int, k: nat, free: bool)
    requires Sound(o, k) && Step(o, e, k, free) && e.Fail?
    requires o.side.latest.None? || o.side.latest.value < from
    requires Later(o.side.latest, e.now) >= from
    ensures Within(AfterOne(o, e), Hit(e, from), from, k, free)
  {
    var t := AfterOne(o, e);
    EventKeepsSound(o, e, k);
    StaleIsBounded(o, from, k, free);
    StaleIsBounded(t, from, k, free);
    SizeAfterRemoving(o.side.pending, e.attempt);
    BeforeAfterRemoving(o.side.pending, e.attempt, from);
    OneIsNotStale(t, from, k, free);
  }

  lemma OneIsNotStale(o: One, from: int, k: nat, free: bool)
    requires k >= 1 && (free ==> |Before(o.side.pending, from)| < k)
    ensures Stale(o, from, free) + 1 <= Cap(k, free)
    ensures Most(Cap(k, free), k) >= Most(Stale(o, from, free), k) + 4 + k - (Stale(o, from, free) + 1)
    ensures Most(Stale(o, from, free), k) >= 4 + k
  {
    var stale := Stale(o, from, free);
    MostIsEnough(stale, k);
    MostGrows(stale + 1, Cap(k, free), k);
  }

  lemma CheckKeepsRest(o: One, e: Event, from: int, k: nat, free: bool)
    requires Sound(o, k) && Step(o, e, k, free) && e.Check? && o.side.latest.Some? && o.side.latest.value >= from
    ensures Sound(AfterOne(o, e), k) && Stale(o, from, free) <= k && Stale(AfterOne(o, e), from, free) <= k
    ensures Rest(AfterOne(o, e), from, k, free) <= Rest(o, from, k, free)
  {
    var t, latest := AfterOne(o, e), Later(o.side.latest, e.now);
    EventKeepsSound(o, e, k);
    StaleIsBounded(o, from, k, free);
    StaleIsBounded(t, from, k, free);
    SizeAfterAdding(o.side.pending, e.attempt, latest);
    BeforeAfterAdding(o.side.pending, e.attempt, latest, from);
    BeforeAfterAdding(o.side.pending, e.attempt, latest, from + WINDOW);
    MostIsEnough(Stale(o, from, free), k);
  }

  lemma LeavingKeepsRest(o: One, e: Event, from: int, k: nat, free: bool)
    requires Sound(o, k) && Step(o, e, k, free) && e.Malformed? && o.side.latest.Some? && o.side.latest.value >= from
    ensures Sound(AfterOne(o, e), k) && Stale(o, from, free) <= k && Stale(AfterOne(o, e), from, free) <= k
    ensures Rest(AfterOne(o, e), from, k, free) <= Rest(o, from, k, free)
  {
    EventKeepsSound(o, e, k);
    StaleIsBounded(o, from, k, free);
    StaleIsBounded(AfterOne(o, e), from, k, free);
    BeforeAfterRemoving(o.side.pending, e.attempt, from);
    BeforeAfterRemoving(o.side.pending, e.attempt, from + WINDOW);
    if Stale(o, from, free) > 0 {
      MostIsEnough(Stale(o, from, free) - 1, k);
    }
  }

  lemma FailureKeepsRest(o: One, e: Event, from: int, k: nat, free: bool)
    requires Sound(o, k) && Step(o, e, k, free) && e.Fail? && o.side.latest.Some? && o.side.latest.value >= from
    ensures Sound(AfterOne(o, e), k) && Stale(o, from, free) <= k && Stale(AfterOne(o, e), from, free) <= k
    ensures Rest(AfterOne(o, e), from, k, free) + Hit(e, from) <= Rest(o, from, k, free)
  {
    var t, stale := AfterOne(o, e), Stale(o, from, free);
    EventKeepsSound(o, e, k);
    StaleIsBounded(o, from, k, free);
    StaleIsBounded(t, from, k, free);
    SizeAfterRemoving(o.side.pending, e.attempt);
    BeforeAfterRemoving(o.side.pending, e.attempt, from);
    BeforeAfterRemoving(o.side.pending, e.attempt, from + WINDOW);
    MostIsEnough(stale, k);
    if stale > 0 {
      MostIsEnough(stale - 1, k);
    }
  }

  lemma EventKeepsWithin(o: One, e: Event, hits: nat, from: int, k: nat, free: bool)
    requires Sound(o, k) && Step(o, e, k, free) && Within(o, hits, from, k, free)
    ensures Within(AfterOne(o, e), hits + Hit(e, from), from, k, free)
  {
    EventKeepsSound(o, e, k);
    StaleIsBounded(AfterOne(o, e), from, k, free);
    if o.side.latest.None? || o.side.latest.value < from {
      if (e.Check? || e.Fail?) && Later(o.side.latest, e.now) >= from {
        if e.Check? {
          FirstCheck(o, e, from, k, free);
        } else {
          FirstFailure(o, e, from, k, free);
        }
      }
    } else {
      match e
      case Check(_, _, _) => CheckKeepsRest(o, e, from, k, free);
      case Fail(_, _, _) => FailureKeepsRest(o, e, from, k, free);
      case Malformed(_, _) => LeavingKeepsRest(o, e, from, k, free);
    }
  }

  lemma {:induction false} RunIsWithin(events: seq<Event>, client: string, from: int, k: nat, free: bool)
    requires Attempts(events, client, k, free)
    ensures Within(View(StateAfter(events), client), CountIn(Log(events, client), from), from, k, free)
  {
    if events != [] {
      var before, e := events[..|events| - 1], events[|events| - 1];
      LastAttempt(events, client, k, free);
      LastOfRun(events, client, k);
      RunIsWithin(before, client, from, k, free);
      RunIsSound(before, client, k);
      LogAfter(events, client, from);
      if e.client == client {
        EventKeepsWithin(View(StateAfter(before), client), e, CountIn(Log(before, client), from), from, k, free);
      }
    }
  }

  lemma WithinIsBounded(o: One, hits: nat, from: int, k: nat, free: bool)
    requires Sound(o, k) && Within(o, hits, from, k, free)
    ensures hits <= Most(Cap(k, free), k)
  {
    StaleIsBounded(o, from, k, free);
    if o.side.latest.Some? {
      MostIsEnough(Stale(o, from, free), k);
    }
  }

  lemma AttemptsAreBounded(events: seq<Event>, client: string, from: int, k: nat, free: bool)
    requires Attempts(events, client, k, free)
    ensures CountIn(Log(events, client), from) <= Most(Cap(k, free), k)
  {
    RunIsSound(events, client, k);
    RunIsWithin(events, client, from, k, free);
    WithinIsBounded(View(StateAfter(events), client), CountIn(Log(events, client), from), from, k, free);
  }

  /**
   * At most `k` attempts of a client at a time, none of them successful, and a clock that does not go back: at most
   * (k + 1)(k + 8) / 2 failures in any five minutes, in whatever order the readings reach the limiter.
   */
  lemma FailuresInFiveMinutes(events: seq<Event>, client: string, k: nat, from: int)
    requires IsRun(events) && Overlap(events, client, k) && Unsuccessful(events, client) && OnClock(events, client)
    ensures 2 * CountIn(Log(events, client), from) <= (k + 1) * (k + 8)
  {
    AttemptsAreBounded(events, client, from, k, true);
    MostIsClosed(k, k);
    assert 2 * (k + 1) * (4 + k) - k * (k + 1) == (k + 1) * (k + 8);
  }

  lemma HalfOfEighteen(n: nat, k: nat)
    requires k == 1 && 2 * n <= (k + 1) * (k + 8)
    ensures n <= 9
  {
  }

  /** One attempt at a time: at most five failures in a window, and at most nine in any five minutes. */
  lemma AtMostNineInFiveMinutes(events: seq<Event>, client: string, from: int)
    requires IsRun(events) && Overlap(events, client, 1) && Unsuccessful(events, client) && OnClock(events, client)
    ensures CountOf(StateAfter(events).failures, client) <= 5
    ensures CountIn(Log(events, client), from) <= 9
  {
    CountStaysBounded(events, client, 1);
    FailuresInFiveMinutes(events, client, 1, from);
    HalfOfEighteen(CountIn(Log(events, client), from), 1);
  }

  /** When the locked sections take the readings in the order of the clock, the bound is 7 + 2k. */
  lemma InOrderFailures(events: seq<Event>, client: string, k: nat, from: int)
    requires IsRun(events) && Overlap(events, client, k) && Unsuccessful(events, client) && InOrder(events, client)
    ensures CountIn(Log(events, client), from) <= 7 + 2 * k
  {
    AttemptsAreBounded(events, client, from, k, false);
    if k > 0 {
      MostIsEnough(0, k);
    }
  }
}
