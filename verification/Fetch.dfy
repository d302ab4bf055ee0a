/** The poll loop of a message query, over any stream of answers Kafka may give. */
module Fetch {
  import opened Wrappers
  import opened Query
  import opened Newest
  import opened Collector

  datatype FetchError = DeadlineExceeded | Broken(text: string)

  /** One poll: the errors and records it returned, whether its own deadline passed, and the request's error, if any. */
  datatype Poll = Poll(errors: seq<FetchError>, expired: bool, requestError: Option<FetchError>, records: seq<Record>)

  /** A poll that only ran into its own deadline is no error. */
  function PollError(e: FetchError, expired: bool, requestError: Option<FetchError>): Option<FetchError> {
    if requestError.Some? then requestError
    else if expired && e == DeadlineExceeded then None
    else Some(e)
  }

  function Failure(p: Poll, n: nat): Option<FetchError>
    requires n <= |p.errors|
  {
    if n == 0 then None
    else
      var earlier := Failure(p, n - 1);
      if earlier.Some? then earlier else PollError(p.errors[n - 1], p.expired, p.requestError)
  }

  function PollFailure(p: Poll): Option<FetchError> {
    Failure(p, |p.errors|)
  }

  /** Nothing went wrong: no error, or only that the poll ran into its own deadline while the request went on. */
  ghost predicate Quiet(p: Poll) {
    || p.errors == []
    || (p.requestError.None? && p.expired && forall i :: 0 <= i < |p.errors| ==> p.errors[i] == DeadlineExceeded)
  }

  /** The error of the request itself, or else the first one that is not an expired poll's own deadline. */
  ghost predicate Reported(p: Poll, e: FetchError) {
    if p.requestError.Some? then p.errors != [] && e == p.requestError.value
    else
      exists i :: 0 <= i < |p.errors| && p.errors[i] == e && !(p.expired && e == DeadlineExceeded)
                  && forall j :: 0 <= j < i ==> p.expired && p.errors[j] == DeadlineExceeded
  }

  lemma {:induction false} FailureUpTo(p: Poll, n: nat)
    requires n <= |p.errors|
    ensures Failure(p, n).None? ==>
              n == 0 || (p.requestError.None? && p.expired && forall i :: 0 <= i < n ==> p.errors[i] == DeadlineExceeded)
    ensures Failure(p, n).Some? ==> Reported(p, Failure(p, n).value)
  {
    if n > 0 {
      FailureUpTo(p, n - 1);
    }
  }

  lemma FailureMeans(p: Poll)
    ensures PollFailure(p).None? <==> Quiet(p)
    ensures PollFailure(p).Some? ==> Reported(p, PollFailure(p).value)
  {
    FailureUpTo(p, |p.errors|);
  }

  // ----- Termination

  lemma {:induction false} ScannedGrows(q: Query, matcher: Matcher, rs: seq<Record>, more: seq<Record>)
    requires q.limit >= 1 && more != []
    ensures Collected(q, matcher, rs + more).scanned >= Collected(q, matcher, rs).scanned
    ensures !Done(q, Collected(q, matcher, rs)) ==>
              Collected(q, matcher, rs + more).scanned > Collected(q, matcher, rs).scanned
  {
    var n := |more| - 1;
    assert (rs + more)[..|rs| + n] == rs + more[..n] && (rs + more)[|rs| + n] == more[n];
    if n > 0 {
      ScannedGrows(q, matcher, rs, more[..n]);
    } else {
      assert rs + more[..n] == rs;
    }
  }

  /** The loop from poll `k` on, when the records `rs` have been collected. */
  ghost function FetchFrom(q: Query, matcher: Matcher, polls: nat -> Poll, k: nat, rs: seq<Record>)
    : (r: Result<Output, FetchError>)
    requires HasLimits(q)
    decreases q.scanLimit - Collected(q, matcher, rs).scanned
  {
    if Done(q, Collected(q, matcher, rs)) then Ok(Finished(q, Collected(q, matcher, rs)))
    else if PollFailure(polls(k)).Some? then Err(PollFailure(polls(k)).value)
    else if polls(k).records == [] then Ok(Finished(q, Collected(q, matcher, rs)))
    else
      ScannedGrows(q, matcher, rs, polls(k).records);
      CollectedWithinBudget(q, matcher, rs + polls(k).records);
      FetchFrom(q, matcher, polls, k + 1, rs + polls(k).records)
  }

  lemma {:induction false} FetchWithinBudget(q: Query, matcher: Matcher, polls: nat -> Poll, k: nat, rs: seq<Record>)
    requires HasLimits(q)
    ensures FetchFrom(q, matcher, polls, k, rs).Ok? ==>
              FetchFrom(q, matcher, polls, k, rs).value.scanned <= q.scanLimit
    decreases q.scanLimit - Collected(q, matcher, rs).scanned
  {
    CollectedWithinBudget(q, matcher, rs);
    if !Done(q, Collected(q, matcher, rs)) && polls(k).records != [] {
      ScannedGrows(q, matcher, rs, polls(k).records);
      CollectedWithinBudget(q, matcher, rs + polls(k).records);
      FetchWithinBudget(q, matcher, polls, k + 1, rs + polls(k).records);
    }
  }

  /** The loop as it runs. It ends whatever the stream: each round scans at least one more record of the budget. */
  method Fetch(q: Query, matcher: Matcher, polls: nat -> Poll) returns (result: Result<Output, FetchError>)
    requires HasLimits(q)
    ensures result == FetchFrom(q, matcher, polls, 0, [])
    ensures result.Ok? ==> result.value.scanned <= q.scanLimit
  {
    FetchWithinBudget(q, matcher, polls, 0, []);
    var collector := new RecordCollector(q, matcher);
    var k := 0;
    while !collector.IsDone()
      invariant collector.Valid() && collector.query == q && collector.matcher == matcher && fresh(collector)
      invariant FetchFrom(q, matcher, polls, 0, []) == FetchFrom(q, matcher, polls, k, collector.added)
      invariant collector.output.scanned <= q.scanLimit
      decreases q.scanLimit - collector.output.scanned
    {
      var batch := polls(k);
      for i := 0 to |batch.errors|
        invariant Failure(batch, i).None?
      {
        var failure := PollError(batch.errors[i], batch.expired, batch.requestError);
        if failure.Some? {
          FailureIsFirst(batch, i);
          return Err(failure.value);
        }
      }
      if batch.records == [] {
        break;
      }
      ghost var before := collector.added;
      AddBatch(collector, batch.records);
      ScannedGrows(q, matcher, before, batch.records);
      CollectedWithinBudget(q, matcher, collector.added);
      k := k + 1;
    }
    var answer := collector.Result();
    result := Ok(answer);
  }

  lemma FailureIsFirst(p: Poll, i: nat)
    requires i < |p.errors| && Failure(p, i).None?
    requires PollError(p.errors[i], p.expired, p.requestError).Some?
    ensures PollFailure(p) == PollError(p.errors[i], p.expired, p.requestError)
  {
    FailureStays(p, i + 1, |p.errors|);
  }

  lemma {:induction false} FailureStays(p: Poll, a: nat, b: nat)
    requires a <= b <= |p.errors| && Failure(p, a).Some?
    ensures Failure(p, b) == Failure(p, a)
  {
    if a < b {
      FailureStays(p, a, b - 1);
    }
  }

  /** Records that arrive after the collector is done are passed over. */
  method AddBatch(collector: RecordCollector, records: seq<Record>)
    requires collector.Valid()
    modifies collector`output, collector`added
    ensures collector.Valid()
    ensures collector.output == Collected(collector.query, collector.matcher, old(collector.added) + records)
    ensures collector.added == old(collector.added) + records
  {
    for i := 0 to |records|
      invariant collector.Valid() && collector.added == old(collector.added) + records[..i]
    {
      var more := collector.Add(records[i]);
    }
    assert records[..|records|] == records;
  }

  // ----- Batches

  function Flatten(batches: seq<seq<Record>>): seq<Record> {
    if batches == [] then [] else Flatten(batches[..|batches| - 1]) + batches[|batches| - 1]
  }

  /** The stream begins with these non-empty batches, and nothing goes wrong. */
  ghost predicate Reaches(polls: nat -> Poll, batches: seq<seq<Record>>) {
    forall i :: 0 <= i < |batches| ==> Quiet(polls(i)) && polls(i).records == batches[i] != []
  }

  /** And then an empty poll ends it. */
  ghost predicate Delivers(polls: nat -> Poll, batches: seq<seq<Record>>) {
    Reaches(polls, batches) && Quiet(polls(|batches|)) && polls(|batches|).records == []
  }

  /** The records answer the query: they fill the scan budget, or hold enough matches for a query that takes the first. */
  ghost predicate Answered(q: Query, matcher: Matcher, rs: seq<Record>) {
    || |rs| >= q.scanLimit
    || ((q.mode != "latest" || |q.keyFilter| == |q.valueFilter| == |q.jsonFilters| == 0)
        && |Matches(matcher, rs)| >= q.limit)
  }

  lemma AnsweredIsDone(q: Query, matcher: Matcher, rs: seq<Record>)
    requires HasLimits(q)
    ensures Done(q, Collected(q, matcher, rs)) <==> Answered(q, matcher, rs)
  {
    var o := Collected(q, matcher, rs);
    if SeeksNewest(q) {
      CollectsNewest(q, matcher, rs);
    } else {
      CollectsFirst(q, matcher, rs);
      MatchesOfPrefix(matcher, rs, o.scanned);
      assert o.scanned == |rs| ==> rs[..o.scanned] == rs;
    }
  }

  lemma FetchGoesOn(q: Query, matcher: Matcher, polls: nat -> Poll, k: nat, rs: seq<Record>)
    requires HasLimits(q) && !Done(q, Collected(q, matcher, rs))
    requires Quiet(polls(k)) && polls(k).records != []
    ensures FetchFrom(q, matcher, polls, k, rs) == FetchFrom(q, matcher, polls, k + 1, rs + polls(k).records)
  {
    FailureMeans(polls(k));
  }

  lemma FetchStops(q: Query, matcher: Matcher, polls: nat -> Poll, k: nat, rs: seq<Record>)
    requires HasLimits(q)
    requires Done(q, Collected(q, matcher, rs)) || PollFailure(polls(k)).Some? || polls(k).records == []
    ensures FetchFrom(q, matcher, polls, k, rs) ==
            if !Done(q, Collected(q, matcher, rs)) && PollFailure(polls(k)).Some? then Err(PollFailure(polls(k)).value)
            else Ok(Finished(q, Collected(q, matcher, rs)))
  {
  }

  /** After some batches the loop is done with their concatenation, or goes on from it. */
  lemma {:induction false} FetchAfter(q: Query, matcher: Matcher, polls: nat -> Poll, batches: seq<seq<Record>>)
    requires HasLimits(q) && Reaches(polls, batches)
    ensures var all := Flatten(batches);
            FetchFrom(q, matcher, polls, 0, []) ==
            if Done(q, Collected(q, matcher, all)) then Ok(Finished(q, Collected(q, matcher, all)))
            else FetchFrom(q, matcher, polls, |batches|, all)
  {
    var all, n := Flatten(batches), |batches| - 1;
    if batches == [] {
      if Done(q, Collected(q, matcher, all)) {
        FetchStops(q, matcher, polls, 0, all);
      }
    } else {
      var before := Flatten(batches[..n]);
      FetchAfter(q, matcher, polls, batches[..n]);
      if Done(q, Collected(q, matcher, before)) {
        DoneStays(q, matcher, before, batches[n]);
      } else {
        FetchGoesOn(q, matcher, polls, n, before);
        if Done(q, Collected(q, matcher, all)) {
          FetchStops(q, matcher, polls, n + 1, all);
        }
      }
    }
  }

  /**
   * The answer is that of collecting the concatenation, however it was cut into batches: that a poll ran into its own
   * deadline is no error, neither on the way nor at the end.
   */
  lemma FetchCollects(q: Query, matcher: Matcher, polls: nat -> Poll, batches: seq<seq<Record>>)
    requires HasLimits(q) && Delivers(polls, batches)
    ensures FetchFrom(q, matcher, polls, 0, []) == Ok(Finished(q, Collected(q, matcher, Flatten(batches))))
  {
    FetchAfter(q, matcher, polls, batches);
    FailureMeans(polls(|batches|));
    FetchStops(q, matcher, polls, |batches|, Flatten(batches));
  }

  /**
   * An error is reported exactly when the batches before it have not already answered the query; it is that of the
   * request if there is one, and else the first that is not an expired poll's own deadline.
   */
  lemma FetchReportsFailure(q: Query, matcher: Matcher, polls: nat -> Poll, batches: seq<seq<Record>>)
    requires HasLimits(q) && Reaches(polls, batches) && !Quiet(polls(|batches|))
    ensures var rs, result := Flatten(batches), FetchFrom(q, matcher, polls, 0, []);
            && (Answered(q, matcher, rs) ==> result == Ok(Finished(q, Collected(q, matcher, rs))))
            && (!Answered(q, matcher, rs) ==> result.Err? && Reported(polls(|batches|), result.error))
  {
    FetchAfter(q, matcher, polls, batches);
    FailureMeans(polls(|batches|));
    AnsweredIsDone(q, matcher, Flatten(batches));
    FetchStops(q, matcher, polls, |batches|, Flatten(batches));
  }

  /** Two streams of the same records give the same answer, whatever their batch boundaries. */
  lemma BatchingDoesNotMatter(q: Query, matcher: Matcher, polls: nat -> Poll, batches: seq<seq<Record>>,
                              polls': nat -> Poll, batches': seq<seq<Record>>)
    requires HasLimits(q) && Delivers(polls, batches) && Delivers(polls', batches')
    requires Flatten(batches) == Flatten(batches')
    ensures FetchFrom(q, matcher, polls, 0, []) == FetchFrom(q, matcher, polls', 0, [])
    ensures FetchFrom(q, matcher, polls, 0, []) == Ok(Finished(q, Collected(q, matcher, Flatten(batches))))
  {
    FetchCollects(q, matcher, polls, batches);
    FetchCollects(q, matcher, polls', batches');
  }

  // ----- Arrival order

  function Invalids(matcher: Matcher, rs: seq<Record>): seq<Record> {
    if rs == [] then []
    else
      var rest, last := Invalids(matcher, rs[..|rs| - 1]), rs[|rs| - 1];
      if matcher(last).invalidJSON then rest + [last] else rest
  }

  lemma {:induction false} FilterCounts(matcher: Matcher, rs: seq<Record>, r: Record)
    ensures multiset(Matches(matcher, rs))[r] == if matcher(r).matched then multiset(rs)[r] else 0
    ensures multiset(Invalids(matcher, rs))[r] == if matcher(r).invalidJSON then multiset(rs)[r] else 0
  {
    if rs != [] {
      FilterCounts(matcher, rs[..|rs| - 1], r);
      assert rs == rs[..|rs| - 1] + [rs[|rs| - 1]];
    }
  }

  lemma {:induction false} InvalidsAreCounted(matcher: Matcher, rs: seq<Record>)
    ensures |Invalids(matcher, rs)| == InvalidCount(matcher, rs)
  {
    if rs != [] {
      InvalidsAreCounted(matcher, rs[..|rs| - 1]);
    }
  }

  lemma SameFilters(matcher: Matcher, rs: seq<Record>, rs': seq<Record>)
    requires multiset(rs) == multiset(rs')
    ensures multiset(Matches(matcher, rs)) == multiset(Matches(matcher, rs'))
    ensures multiset(Invalids(matcher, rs)) == multiset(Invalids(matcher, rs'))
  {
    forall r
      ensures multiset(Matches(matcher, rs))[r] == multiset(Matches(matcher, rs'))[r]
      ensures multiset(Invalids(matcher, rs))[r] == multiset(Invalids(matcher, rs'))[r]
    {
      FilterCounts(matcher, rs, r);
      FilterCounts(matcher, rs', r);
    }
  }

  lemma MatchesAreAmong(matcher: Matcher, rs: seq<Record>)
    ensures multiset(Matches(matcher, rs)) <= multiset(rs)
  {
    forall r ensures multiset(Matches(matcher, rs))[r] <= multiset(rs)[r] {
      FilterCounts(matcher, rs, r);
    }
  }

  lemma SameCounts(matcher: Matcher, rs: seq<Record>, rs': seq<Record>)
    requires multiset(rs) == multiset(rs')
    ensures |Matches(matcher, rs)| == |Matches(matcher, rs')|
    ensures InvalidCount(matcher, rs) == InvalidCount(matcher, rs')
  {
    SameFilters(matcher, rs, rs');
    SameLength(Matches(matcher, rs), Matches(matcher, rs'));
    SameLength(Invalids(matcher, rs), Invalids(matcher, rs'));
    InvalidsAreCounted(matcher, rs);
    InvalidsAreCounted(matcher, rs');
  }

  /** A filtered latest query whose whole window fits the budget gives one answer for every order of arrival. */
  lemma ArrivalOrderDoesNotMatter(q: Query, matcher: Matcher, rs: seq<Record>, rs': seq<Record>)
    requires HasLimits(q) && q.mode == "latest" && (|q.keyFilter| > 0 || |q.valueFilter| > 0 || |q.jsonFilters| > 0)
    requires multiset(rs) == multiset(rs') && DistinctKeys(multiset(rs)) && |rs| <= q.scanLimit
    ensures Finished(q, Collected(q, matcher, rs)) == Finished(q, Collected(q, matcher, rs'))
  {
    SameLength(rs, rs');
    SameFilters(matcher, rs, rs');
    SameCounts(matcher, rs, rs');
    MatchesAreAmong(matcher, rs);
    assert Window(q, rs) == rs && Window(q, rs') == rs';
    var matches := multiset(Matches(matcher, rs));
    FewerAreDistinct(matches, multiset(rs));
    LatestItems(q, matcher, rs);
    LatestItems(q, matcher, rs');
    var a, b := Finished(q, Collected(q, matcher, rs)), Finished(q, Collected(q, matcher, rs'));
    SortedNewestAreEqual(a.items, b.items, matches, q.limit);
  }

  // ----- Where to start

  /** What Kafka is asked for before a partition is read. */
  datatype Listing = NothingListed | StartOffsets | EndOffsets | OffsetsAfter(timestamp: int)

  datatype OffsetError = ListingFailed | Unavailable(partition: int)

  /** The partition's offset in a listing, if the listing succeeded and the partition is in it without error. */
  type Listed = Listing -> Result<Option<int>, OffsetError>

  /**
   * resolveOffset: the offset stated; or the listed one of the mode, in latest mode moved back by the scan limit but
   * not before zero.
   */
  method ResolveOffset(q: Query, partition: int, list: Listed) returns (at: Result<int, OffsetError>)
    ensures q.mode == "offset" ==> at == Ok(q.offset)
    ensures q.mode != "offset" ==>
              var listing := if q.mode == "earliest" then StartOffsets
                             else if q.mode == "latest" || q.mode == "live" then EndOffsets
                             else if q.mode == "timestamp" then OffsetsAfter(q.timestamp)
                             else NothingListed;
              match list(listing)
              case Err(e) => at == Err(e)
              case Ok(None) => at == Err(Unavailable(partition))
              case Ok(Some(offset)) =>
                at == Ok(if q.mode != "latest" then offset else if offset >= q.scanLimit then offset - q.scanLimit else 0)
    ensures at.Ok? && q.mode != "offset" ==> exists listed :: at.value == StartOffset(q, listed)
  {
    if q.mode == "offset" {
      return Ok(q.offset);
    }
    var listing := NothingListed;
    match q.mode {
      case "earliest" => listing := StartOffsets;
      case "latest" => listing := EndOffsets;
      case "live" => listing := EndOffsets;
      case "timestamp" => listing := OffsetsAfter(q.timestamp);
      case _ =>
    }
    var listed := list(listing);
    if listed.Err? {
      return Err(listed.error);
    }
    if listed.value.None? {
      return Err(Unavailable(partition));
    }
    at := Ok(StartOffset(q, listed.value.value));
  }

  /** The offset a partition is read from; `listed` is what Kafka reports for the mode. */
  function StartOffset(q: Query, listed: int): int {
    if q.mode == "offset" then q.offset
    else if q.mode == "latest" then if listed - q.scanLimit < 0 then 0 else listed - q.scanLimit
    else listed
  }

  /**
   * The records one partition delivers from the start offset on, each offset once: those before the end that was
   * listed, and then any number that were produced since.
   */
  ghost predicate FromOnePartition(q: Query, end: int, rs: seq<Record>) {
    && (forall i :: 0 <= i < |rs| ==> rs[i].partition == rs[0].partition && StartOffset(q, end) <= rs[i].offset)
    && (forall i, j :: 0 <= i < j < |rs| ==> rs[i].offset != rs[j].offset)
    && (forall i, j :: 0 <= i < j < |rs| && rs[j].offset < end ==> rs[i].offset < end)
  }

  /** Kafka delivers a partition in the order of its offsets, which is one such order. */
  lemma InOffsetOrder(q: Query, end: int, rs: seq<Record>)
    requires forall i :: 0 <= i < |rs| ==> rs[i].partition == rs[0].partition && StartOffset(q, end) <= rs[i].offset
    requires forall i, j :: 0 <= i < j < |rs| ==> rs[i].offset < rs[j].offset
    ensures FromOnePartition(q, end, rs)
  {
  }

  lemma {:induction false} DistinctOffsets(rs: seq<Record>, start: int, n: nat)
    requires forall i :: 0 <= i < |rs| ==> start <= rs[i].offset < start + n
    requires forall i, j :: 0 <= i < j < |rs| ==> rs[i].offset != rs[j].offset
    ensures |rs| <= n
  {
    if rs != [] {
      assert start <= rs[0].offset < start + n;
      if k :| 0 <= k < |rs| && rs[k].offset == start + n - 1 {
        DistinctOffsets(rs[..k] + rs[k + 1..], start, n - 1);
      } else {
        DistinctOffsets(rs, start, n - 1);
      }
    }
  }

  /** The window of a latest query reaches the end that was listed. */
  lemma WindowReachesEnd(q: Query, end: int, rs: seq<Record>, i: nat)
    requires q.mode == "latest" && q.scanLimit >= 0 && end >= 0 && FromOnePartition(q, end, rs)
    requires i < |rs| && rs[i].offset < end
    ensures i < |Window(q, rs)|
  {
    DistinctOffsets(rs[..i + 1], StartOffset(q, end), end - StartOffset(q, end));
  }

  /**
   * A filtered latest query on one partition: every record before the end that was listed lies in the window, and the
   * answer is filter, sort, take of the window, whatever was produced meanwhile, however it was cut into batches, and
   * whether the stream or the budget ran out. If nothing was produced meanwhile the window is all there is.
   */
  lemma OnePartitionLatest(q: Query, matcher: Matcher, end: int, polls: nat -> Poll, batches: seq<seq<Record>>)
    requires HasLimits(q) && q.mode == "latest" && (|q.keyFilter| > 0 || |q.valueFilter| > 0 || |q.jsonFilters| > 0)
    requires end >= 0 && Reaches(polls, batches) && (Answered(q, matcher, Flatten(batches)) || Delivers(polls, batches))
    requires FromOnePartition(q, end, Flatten(batches))
    ensures var rs := Flatten(batches);
            var all := SortNewest(Matches(matcher, Window(q, rs)));
            && (forall i :: 0 <= i < |rs| && rs[i].offset < end ==> i < |Window(q, rs)|)
            && FetchFrom(q, matcher, polls, 0, []).Ok?
            && FetchFrom(q, matcher, polls, 0, []).value.items == all[..Min(q.limit, |all|)]
            && ((forall i :: 0 <= i < |rs| ==> rs[i].offset < end) ==> Window(q, rs) == rs)
  {
    var rs := Flatten(batches);
    var window := Window(q, rs);
    forall i | 0 <= i < |rs| && rs[i].offset < end ensures i < |window| {
      WindowReachesEnd(q, end, rs, i);
    }
    if rs != [] && rs[|rs| - 1].offset < end {
      assert window == rs;
    }
    AnsweredIsDone(q, matcher, rs);
    FetchAfter(q, matcher, polls, batches);
    if Delivers(polls, batches) {
      FetchCollects(q, matcher, polls, batches);
    }
    OffsetsAreKeys(window);
    MatchesAreAmong(matcher, window);
    FewerAreDistinct(multiset(Matches(matcher, window)), multiset(window));
    LatestAnswerIsSortAndTake(q, matcher, rs);
  }

  lemma {:induction false} OffsetsAreKeys(rs: seq<Record>)
    requires forall i, j :: 0 <= i < j < |rs| ==> rs[i].offset != rs[j].offset
    ensures DistinctKeys(multiset(rs))
    ensures forall r :: r in multiset(rs) ==> exists i :: 0 <= i < |rs| && rs[i] == r
  {
    if rs != [] {
      var rest, last := rs[..|rs| - 1], rs[|rs| - 1];
      OffsetsAreKeys(rest);
      assert rs == rest + [last];
    }
  }
}
