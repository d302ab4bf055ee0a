/**
 * The record collector: it keeps at most Limit matches, replaces the oldest one in filtered latest queries, stops
 * early in the others and never scans more than ScanLimit records. It is compared with filtering everything.
 */
module Collector {
  import opened Query
  import opened Newest

  /** How a record is judged; MatchRecord with a query and any JSON judge is one. */
  type Matcher = Record -> Verdict

  datatype Output = Output(
    items: seq<Record>, scanned: nat, matched: nat, skippedInvalidJSON: nat, resultLimited: bool, scanLimited: bool)

  const NOTHING := Output([], 0, 0, 0, false, false)

  /** A latest query with content filters looks at the whole window for the newest matches. */
  predicate SeeksNewest(q: Query) {
    q.mode == "latest" && HasContentFilters(q)
  }

  predicate Done(q: Query, o: Output) {
    o.scanned >= q.scanLimit || (!SeeksNewest(q) && |o.items| >= q.limit)
  }

  /** The first of the oldest items among the first `n`. */
  function Oldest(items: seq<Record>, n: nat): (i: nat)
    requires 0 < n <= |items|
    ensures i < n
  {
    if n == 1 then 0
    else
      var i := Oldest(items, n - 1);
      if Newer(items[i], items[n - 1]) then n - 1 else i
  }

  function Keep(q: Query, items: seq<Record>, r: Record): seq<Record>
    requires q.limit >= 1
  {
    if SeeksNewest(q) && |items| >= q.limit then
      var i := Oldest(items, |items|);
      if Newer(r, items[i]) then items[i := r] else items
    else items + [r]
  }

  function Added(q: Query, matcher: Matcher, o: Output, r: Record): Output
    requires q.limit >= 1
  {
    if Done(q, o) then o
    else
      var v := matcher(r);
      o.(scanned := o.scanned + 1,
         skippedInvalidJSON := o.skippedInvalidJSON + if v.invalidJSON then 1 else 0,
         matched := o.matched + if v.matched then 1 else 0,
         items := if v.matched then Keep(q, o.items, r) else o.items)
  }

  function Collected(q: Query, matcher: Matcher, rs: seq<Record>): Output
    requires q.limit >= 1
  {
    if rs == [] then NOTHING else Added(q, matcher, Collected(q, matcher, rs[..|rs| - 1]), rs[|rs| - 1])
  }

  function Finished(q: Query, o: Output): Output {
    var limited := if SeeksNewest(q) then o.matched > |o.items| else o.matched >= q.limit;
    o.(resultLimited := limited,
       items := if q.mode == "latest" then SortNewest(o.items) else o.items,
       scanLimited := o.scanned >= q.scanLimit)
  }

  // ----- The naive computation

  function Matches(matcher: Matcher, rs: seq<Record>): seq<Record> {
    if rs == [] then []
    else
      var rest, last := Matches(matcher, rs[..|rs| - 1]), rs[|rs| - 1];
      if matcher(last).matched then rest + [last] else rest
  }

  function InvalidCount(matcher: Matcher, rs: seq<Record>): nat {
    if rs == [] then 0
    else
      InvalidCount(matcher, rs[..|rs| - 1]) + if matcher(rs[|rs| - 1]).invalidJSON then 1 else 0
  }

  /** The records within the scan budget. */
  function Window(q: Query, rs: seq<Record>): seq<Record>
    requires q.scanLimit >= 0
  {
    rs[..Min(q.scanLimit, |rs|)]
  }

  /** Filtering and counting go record by record. */
  lemma {:induction false} NaiveOfConcat(matcher: Matcher, a: seq<Record>, b: seq<Record>)
    ensures Matches(matcher, a + b) == Matches(matcher, a) + Matches(matcher, b)
    ensures InvalidCount(matcher, a + b) == InvalidCount(matcher, a) + InvalidCount(matcher, b)
    ensures |b| == 1 ==> Matches(matcher, b) == if matcher(b[0]).matched then b else []
    ensures |b| == 1 ==> InvalidCount(matcher, b) == if matcher(b[0]).invalidJSON then 1 else 0
  {
    if b == [] {
      assert a + b == a;
    } else {
      assert (a + b)[..|a + b| - 1] == a + b[..|b| - 1];
      NaiveOfConcat(matcher, a, b[..|b| - 1]);
    }
  }

  lemma {:induction false} OldestIsOldest(items: seq<Record>, n: nat)
    requires 0 < n <= |items|
    ensures forall j :: 0 <= j < n ==> !Newer(items[Oldest(items, n)], items[j])
  {
    if n > 1 {
      OldestIsOldest(items, n - 1);
    }
  }

  lemma StepUp(matcher: Matcher, rs: seq<Record>, n: nat)
    requires n < |rs|
    ensures rs[..n + 1][..n] == rs[..n] && rs[..n + 1][n] == rs[n]
    ensures multiset(Matches(matcher, rs[..n + 1])) ==
            multiset(Matches(matcher, rs[..n])) +
            if matcher(rs[n]).matched then multiset{rs[n]} else multiset{}
  {
    assert rs[..n + 1][..n] == rs[..n];
  }

  // ----- Filtered latest queries

  lemma KeepKeepsNewest(q: Query, items: seq<Record>, all: multiset<Record>, r: Record)
    requires q.limit >= 1 && SeeksNewest(q) && AreNewest(multiset(items), all, q.limit)
    ensures AreNewest(multiset(Keep(q, items, r)), all + multiset{r}, q.limit)
  {
    assert |multiset(items)| == |items|;
    if |items| < q.limit {
      JoinNewest(multiset(items), all, q.limit, r);
    } else {
      var i := Oldest(items, |items|);
      OldestIsOldest(items, |items|);
      forall x | x in multiset(items) ensures !Newer(items[i], x) {
        var j :| 0 <= j < |items| && items[j] == x;
      }
      if Newer(r, items[i]) {
        ReplaceOldest(multiset(items), all, q.limit, r, items[i]);
        assert multiset(items[i := r]) == multiset(items) - multiset{items[i]} + multiset{r};
      } else {
        KeepOldest(multiset(items), all, q.limit, r, items[i]);
      }
    }
  }

  /** The output after scanning exactly the records `w`. */
  ghost predicate HoldsNewest(q: Query, matcher: Matcher, o: Output, w: seq<Record>)
    requires q.limit >= 0
  {
    && o.scanned == |w|
    && o.matched == |Matches(matcher, w)|
    && o.skippedInvalidJSON == InvalidCount(matcher, w)
    && AreNewest(multiset(o.items), multiset(Matches(matcher, w)), q.limit)
  }

  lemma AddHoldsNewest(q: Query, matcher: Matcher, o: Output, rs: seq<Record>, n: nat)
    requires HasLimits(q) && SeeksNewest(q) && n < |rs| && n < q.scanLimit && HoldsNewest(q, matcher, o, rs[..n])
    ensures HoldsNewest(q, matcher, Added(q, matcher, o, rs[n]), rs[..n + 1])
  {
    StepUp(matcher, rs, n);
    if matcher(rs[n]).matched {
      KeepKeepsNewest(q, o.items, multiset(Matches(matcher, rs[..n])), rs[n]);
    }
  }

  lemma {:induction false} CollectsNewest(q: Query, matcher: Matcher, rs: seq<Record>)
    requires HasLimits(q) && SeeksNewest(q)
    ensures HoldsNewest(q, matcher, Collected(q, matcher, rs), Window(q, rs))
  {
    if rs != [] {
      var n := |rs| - 1;
      CollectsNewest(q, matcher, rs[..n]);
      if n < q.scanLimit {
        assert Window(q, rs[..n]) == rs[..n] && Window(q, rs) == rs == rs[..n + 1];
        AddHoldsNewest(q, matcher, Collected(q, matcher, rs[..n]), rs, n);
      } else {
        assert Window(q, rs[..n]) == Window(q, rs);
      }
    }
  }

  lemma LatestItems(q: Query, matcher: Matcher, rs: seq<Record>)
    requires HasLimits(q) && SeeksNewest(q)
    ensures var answer, all := Finished(q, Collected(q, matcher, rs)), Matches(matcher, Window(q, rs));
            && AreNewest(multiset(answer.items), multiset(all), q.limit) && Sorted(answer.items)
            && answer.scanned == Min(q.scanLimit, |rs|) && answer.matched == |all|
            && answer.skippedInvalidJSON == InvalidCount(matcher, Window(q, rs))
            && (answer.resultLimited <==> |all| > q.limit)
            && (answer.scanLimited <==> |rs| >= q.scanLimit)
  {
    CollectsNewest(q, matcher, rs);
    var o := Collected(q, matcher, rs);
    SortSorts(o.items);
    assert |multiset(o.items)| == |o.items|;
    assert |multiset(Matches(matcher, Window(q, rs)))| == |Matches(matcher, Window(q, rs))|;
  }

  /** By timestamp, then partition, then offset, each from the greatest down. */
  ghost predicate NewestFirst(s: seq<Record>) {
    forall i, j :: 0 <= i < j < |s| ==>
      || s[i].timestamp > s[j].timestamp
      || (s[i].timestamp == s[j].timestamp && s[i].partition > s[j].partition)
      || (s[i].timestamp == s[j].timestamp && s[i].partition == s[j].partition && s[i].offset >= s[j].offset)
  }

  lemma SortedIsNewestFirst(s: seq<Record>)
    ensures Sorted(s) <==> NewestFirst(s)
  {
  }

  /**
   * The answer to a filtered latest query: the Limit newest of all matches in the window, newest first, with the
   * counters of the naive computation. With equal keys it may differ from it only in which of them it keeps.
   */
  lemma LatestAnswer(q: Query, matcher: Matcher, rs: seq<Record>)
    requires HasLimits(q) && q.mode == "latest" && (|q.keyFilter| > 0 || |q.valueFilter| > 0 || |q.jsonFilters| > 0)
    ensures var answer, all := Finished(q, Collected(q, matcher, rs)), Matches(matcher, Window(q, rs));
            && AreNewest(multiset(answer.items), multiset(all), q.limit) && NewestFirst(answer.items)
            && answer.scanned == Min(q.scanLimit, |rs|) && answer.matched == |all|
            && answer.skippedInvalidJSON == InvalidCount(matcher, Window(q, rs))
            && (answer.resultLimited <==> |all| > q.limit)
            && (answer.scanLimited <==> |rs| >= q.scanLimit)
  {
    LatestItems(q, matcher, rs);
    SortedIsNewestFirst(Finished(q, Collected(q, matcher, rs)).items);
  }

  /** With distinct keys it is exactly filter, sort, take. */
  lemma LatestAnswerIsSortAndTake(q: Query, matcher: Matcher, rs: seq<Record>)
    requires HasLimits(q) && q.mode == "latest" && (|q.keyFilter| > 0 || |q.valueFilter| > 0 || |q.jsonFilters| > 0)
    requires DistinctKeys(multiset(Matches(matcher, Window(q, rs))))
    ensures var all := SortNewest(Matches(matcher, Window(q, rs)));
            Finished(q, Collected(q, matcher, rs)).items == all[..Min(q.limit, |all|)]
  {
    var matches := Matches(matcher, Window(q, rs));
    var answer, all := Finished(q, Collected(q, matcher, rs)).items, SortNewest(matches);
    LatestItems(q, matcher, rs);
    SortSorts(matches);
    TakeIsNewest(all, q.limit);
    SortedNewestAreEqual(answer, all[..Min(q.limit, |all|)], multiset(matches), q.limit);
  }

  // ----- All other queries

  /** What has been scanned is a prefix; all its matches are kept, and it stops only when full or out of budget. */
  lemma {:induction false} CollectsFirst(q: Query, matcher: Matcher, rs: seq<Record>)
    requires HasLimits(q) && !SeeksNewest(q)
    ensures var o := Collected(q, matcher, rs);
            && o.scanned <= |Window(q, rs)|
            && o.items == Matches(matcher, rs[..o.scanned]) && |o.items| <= q.limit
            && o.matched == |o.items| && o.skippedInvalidJSON == InvalidCount(matcher, rs[..o.scanned])
            && (o.scanned < |Window(q, rs)| ==> |o.items| == q.limit)
  {
    if rs != [] {
      var n := |rs| - 1;
      CollectsFirst(q, matcher, rs[..n]);
      var before := Collected(q, matcher, rs[..n]);
      assert rs[..n][..before.scanned] == rs[..before.scanned];
      if !Done(q, before) {
        assert before.scanned == n && rs[..n + 1] == rs;
      }
    }
  }

  lemma {:induction false} MatchesOfPrefix(matcher: Matcher, rs: seq<Record>, n: nat)
    requires n <= |rs|
    ensures Matches(matcher, rs[..n]) <= Matches(matcher, rs)
  {
    if n == |rs| {
      assert rs[..n] == rs;
    } else {
      assert rs[..|rs| - 1][..n] == rs[..n];
      MatchesOfPrefix(matcher, rs[..|rs| - 1], n);
    }
  }

  /** The answer to every other query: the first Limit matches in the window in arrival order, before any sorting. */
  lemma FirstMatchesAnswer(q: Query, matcher: Matcher, rs: seq<Record>)
    requires HasLimits(q) && (q.mode != "latest" || |q.keyFilter| == |q.valueFilter| == |q.jsonFilters| == 0)
    ensures var o, all := Collected(q, matcher, rs), Matches(matcher, Window(q, rs));
            && o.items == all[..Min(q.limit, |all|)]
            && Finished(q, o).matched == Min(q.limit, |all|)
            && (Finished(q, o).resultLimited <==> |all| >= q.limit)
            && (q.mode != "latest" ==> Finished(q, o).items == o.items)
            && (q.mode == "latest" ==> Finished(q, o).items == SortNewest(o.items))
  {
    CollectsFirst(q, matcher, rs);
    var o := Collected(q, matcher, rs);
    assert Window(q, rs)[..o.scanned] == rs[..o.scanned];
    MatchesOfPrefix(matcher, Window(q, rs), o.scanned);
    if o.scanned == |Window(q, rs)| {
      assert rs[..o.scanned] == Window(q, rs);
    }
  }

  lemma MatchesStep(matcher: Matcher, rs: seq<Record>, n: nat)
    requires n < |rs|
    ensures Matches(matcher, rs[..n + 1]) == Matches(matcher, rs[..n]) + if matcher(rs[n]).matched then [rs[n]] else []
  {
    assert rs[..n + 1][..n] == rs[..n];
  }

  /** The last record that was scanned. */
  lemma {:induction false} LastScanned(q: Query, matcher: Matcher, rs: seq<Record>)
    requires HasLimits(q) && !SeeksNewest(q)
    ensures var o := Collected(q, matcher, rs);
            |o.items| == q.limit ==> 1 <= o.scanned <= |rs| && matcher(rs[o.scanned - 1]).matched
  {
    if rs != [] {
      LastScanned(q, matcher, rs[..|rs| - 1]);
      CollectsFirst(q, matcher, rs[..|rs| - 1]);
    }
  }

  /**
   * What every other query reports beside its items: it has scanned up to the Limit-th match, or the whole window if
   * there are fewer; it counts the values there that are not JSON; and it says that the scan limit was reached
   * exactly if the budget's last record was scanned, that is, if the Limit-th match did not come before it.
   */
  lemma FirstMatchesCounters(q: Query, matcher: Matcher, rs: seq<Record>)
    requires HasLimits(q) && (q.mode != "latest" || |q.keyFilter| == |q.valueFilter| == |q.jsonFilters| == 0)
    ensures var answer, all := Finished(q, Collected(q, matcher, rs)), Matches(matcher, Window(q, rs));
            && answer.scanned <= Min(q.scanLimit, |rs|)
            && (|all| < q.limit ==> answer.scanned == Min(q.scanLimit, |rs|))
            && (|all| >= q.limit ==>
                  && answer.scanned >= 1 && matcher(rs[answer.scanned - 1]).matched
                  && |Matches(matcher, rs[..answer.scanned])| == q.limit)
            && answer.skippedInvalidJSON == InvalidCount(matcher, rs[..answer.scanned])
            && (answer.scanLimited <==> |rs| >= q.scanLimit && |Matches(matcher, rs[..q.scanLimit - 1])| < q.limit)
  {
    FirstMatchesAnswer(q, matcher, rs);
    CollectsFirst(q, matcher, rs);
    LastScanned(q, matcher, rs);
    var o, w := Collected(q, matcher, rs), Window(q, rs);
    assert o.scanned == |w| ==> rs[..o.scanned] == w;
    if |rs| >= q.scanLimit {
      ScansToLimit(q, matcher, rs);
    }
  }

  /** With enough records, the last one of the budget is scanned unless the Limit-th match comes before it. */
  lemma ScansToLimit(q: Query, matcher: Matcher, rs: seq<Record>)
    requires HasLimits(q) && !SeeksNewest(q) && |rs| >= q.scanLimit
    ensures Collected(q, matcher, rs).scanned >= q.scanLimit <==> |Matches(matcher, rs[..q.scanLimit - 1])| < q.limit
  {
    var o, last := Collected(q, matcher, rs), q.scanLimit - 1;
    CollectsFirst(q, matcher, rs);
    LastScanned(q, matcher, rs);
    if o.scanned >= q.scanLimit {
      assert o.scanned == last + 1;
      MatchesStep(matcher, rs, last);
    } else {
      assert rs[..last][..o.scanned] == rs[..o.scanned];
      MatchesOfPrefix(matcher, rs[..last], o.scanned);
    }
  }

  lemma AllMatchAnswer(q: Query, matcher: Matcher, rs: seq<Record>)
    requires HasLimits(q) && !HasContentFilters(q) && forall r :: matcher(r).matched
    ensures var first := rs[..Min(q.limit, |rs|)];
            Finished(q, Collected(q, matcher, rs)).items == if q.mode == "latest" then SortNewest(first) else first
  {
    var first, w := rs[..Min(q.limit, |rs|)], Window(q, rs);
    assert w == first;
    AllMatch(matcher, w);
    FirstMatchesAnswer(q, matcher, rs);
    assert w[..Min(q.limit, |w|)] == w;
  }

  function MatcherOf(q: Query, judge: JSONJudge): Matcher {
    r => MatchRecord(r, q, judge)
  }

  /** A query without content filters answers with the first Limit records, sorted in latest mode. */
  lemma UnfilteredAnswer(q: Query, judge: JSONJudge, rs: seq<Record>)
    requires HasLimits(q) && |q.keyFilter| == |q.valueFilter| == |q.jsonFilters| == 0
    ensures var first := rs[..Min(q.limit, |rs|)];
            Finished(q, Collected(q, MatcherOf(q, judge), rs)).items ==
            if q.mode == "latest" then SortNewest(first) else first
  {
    forall r ensures MatcherOf(q, judge)(r).matched {
      UnfilteredMatches(r, q, judge);
    }
    AllMatchAnswer(q, MatcherOf(q, judge), rs);
  }

  lemma {:induction false} AllMatch(matcher: Matcher, rs: seq<Record>)
    requires forall r :: matcher(r).matched
    ensures Matches(matcher, rs) == rs
  {
    if rs != [] {
      AllMatch(matcher, rs[..|rs| - 1]);
      assert rs == rs[..|rs| - 1] + [rs[|rs| - 1]];
    }
  }

  // ----- Records after the end do not matter

  lemma {:induction false} DoneStays(q: Query, matcher: Matcher, rs: seq<Record>, more: seq<Record>)
    requires q.limit >= 1 && Done(q, Collected(q, matcher, rs))
    ensures Collected(q, matcher, rs + more) == Collected(q, matcher, rs)
  {
    if more == [] {
      assert rs + more == rs;
    } else {
      assert (rs + more)[..|rs + more| - 1] == rs + more[..|more| - 1];
      DoneStays(q, matcher, rs, more[..|more| - 1]);
    }
  }

  // ----- The collector as it runs

  class RecordCollector {
    const query: Query
    const matcher: Matcher
    var output: Output
    ghost var added: seq<Record>

    ghost predicate Valid()
      reads this
    {
      HasLimits(query) && output == Collected(query, matcher, added)
    }

    constructor (query: Query, matcher: Matcher)
      requires HasLimits(query)
      ensures Valid() && added == [] && this.query == query && this.matcher == matcher
    {
      this.query, this.matcher, output, added := query, matcher, NOTHING, [];
    }

    predicate IsDone()
      reads this
    {
      output.scanned >= query.scanLimit ||
      (!(query.mode == "latest" && HasContentFilters(query)) && |output.items| >= query.limit)
    }

    method RemainingScan() returns (remaining: nat)
      requires Valid()
      ensures output.scanned + remaining == query.scanLimit
    {
      CollectedWithinBudget(query, matcher, added);
      remaining := query.scanLimit - output.scanned;
    }

    /** Keeps a match: appended while there is room or no search, else in the place of the oldest, if newer. */
    method Retain(record: Record)
      requires query.limit >= 1
      modifies this`output
      ensures output == old(output).(items := Keep(query, old(output.items), record))
    {
      if query.mode == "latest" && HasContentFilters(query) && |output.items| >= query.limit {
        var oldest := 0;
        for index := 1 to |output.items|
          invariant oldest == Oldest(output.items, index)
        {
          if Newer(output.items[oldest], output.items[index]) {
            oldest := index;
          }
        }
        if Newer(record, output.items[oldest]) {
          output := output.(items := output.items[oldest := record]);
        }
      } else {
        output := output.(items := output.items + [record]);
      }
    }

    /** Scans one record, unless done; returns whether to go on. */
    method Add(record: Record) returns (more: bool)
      requires Valid()
      modifies this`output, this`added
      ensures Valid() && added == old(added) + [record]
      ensures more == !IsDone()
      ensures output.scanned == old(output.scanned) + if old(IsDone()) then 0 else 1
    {
      added := added + [record];
      assert added[..|added| - 1] == old(added);
      if IsDone() {
        return false;
      }
      Scan(record);
      more := !IsDone();
    }

    /** Counts the record and what the filters say of it, and keeps it if it matches. */
    method Scan(record: Record)
      requires query.limit >= 1 && !IsDone()
      modifies this`output
      ensures output == Added(query, matcher, old(output), record)
    {
      output := output.(scanned := output.scanned + 1);
      var verdict := matcher(record);
      if verdict.invalidJSON {
        output := output.(skippedInvalidJSON := output.skippedInvalidJSON + 1);
      }
      if verdict.matched {
        output := output.(matched := output.matched + 1);
        Retain(record);
      }
    }

    method Result() returns (result: Output)
      requires Valid()
      modifies this`output
      ensures result == Finished(query, Collected(query, matcher, added)) == output
    {
      output := output.(resultLimited := output.matched >= query.limit);
      if query.mode == "latest" {
        if HasContentFilters(query) {
          output := output.(resultLimited := output.matched > |output.items|);
        }
        output := output.(items := SortNewest(output.items));
      }
      output := output.(scanLimited := output.scanned >= query.scanLimit);
      result := output;
    }
  }

  /** No query scans more than its budget, or more than it was given. */
  lemma CollectedWithinBudget(q: Query, matcher: Matcher, rs: seq<Record>)
    requires HasLimits(q)
    ensures Collected(q, matcher, rs).scanned <= Min(q.scanLimit, |rs|)
  {
    if SeeksNewest(q) {
      CollectsNewest(q, matcher, rs);
    } else {
      CollectsFirst(q, matcher, rs);
    }
  }
}
