/** Message queries: their validation, the limits it guarantees, and the filters a record is matched against. */
module Query {
  import opened Wrappers

  const MAX_LIMIT := 500
  const DEFAULT_LIMIT := 100
  const MAX_SCAN := 50_000
  const DEFAULT_SCAN := 5_000
  const MAX_JSON_FILTERS := 5

  datatype JSONFilter = JSONFilter(path: string, operator: string, value: string)

  datatype Query = Query(
    topic: string, partition: int, mode: string, offset: int, timestamp: int, limit: int, scanLimit: int,
    keyFilter: string, keyOperator: string, valueFilter: string, valueOperator: string,
    jsonFilters: seq<JSONFilter>)

  datatype QueryError =
    | TopicRequired | BadPartition | BadOffset | TimestampRequired | UnsupportedMode | ScanLimitTooLarge
    | BadKeyOperator | BadValueOperator | TooManyFilters | PathRequired | BadJSONOperator

  predicate HasContentFilters(q: Query) {
    q.keyFilter != "" || q.valueFilter != "" || |q.jsonFilters| > 0
  }

  // ----- Text

  /** The white space strings.TrimSpace removes (Unicode's White_Space property). */
  predicate IsSpace(c: char) {
    || '\t' <= c <= '\r' || c == ' ' || c == '\U{0085}' || c == '\U{00A0}' || c == '\U{1680}'
    || '\U{2000}' <= c <= '\U{200A}' || c == '\U{2028}' || c == '\U{2029}' || c == '\U{202F}' || c == '\U{205F}'
    || c == '\U{3000}'
  }

  function TrimLeft(s: string): string {
    if s != "" && IsSpace(s[0]) then TrimLeft(s[1..]) else s
  }

  function TrimRight(s: string): string {
    if s != "" && IsSpace(s[|s| - 1]) then TrimRight(s[..|s| - 1]) else s
  }

  function Trim(s: string): string {
    TrimRight(TrimLeft(s))
  }

  lemma {:induction false} TrimLeftEnds(s: string)
    ensures TrimLeft(s) != "" ==> !IsSpace(TrimLeft(s)[0])
  {
    if s != "" && IsSpace(s[0]) {
      TrimLeftEnds(s[1..]);
    }
  }

  lemma {:induction false} TrimRightEnds(s: string)
    ensures TrimRight(s) <= s
    ensures TrimRight(s) != "" ==> !IsSpace(TrimRight(s)[|TrimRight(s)| - 1])
  {
    if s != "" && IsSpace(s[|s| - 1]) {
      TrimRightEnds(s[..|s| - 1]);
    }
  }

  /** The code points with Unicode's White_Space property. */
  const WHITE_SPACE: set<int> := {
    0x9, 0xA, 0xB, 0xC, 0xD, 0x20, 0x85, 0xA0, 0x1680, 0x2000, 0x2001, 0x2002, 0x2003, 0x2004, 0x2005, 0x2006,
    0x2007, 0x2008, 0x2009, 0x200A, 0x2028, 0x2029, 0x202F, 0x205F, 0x3000}

  lemma SpaceIsWhite(c: char)
    ensures IsSpace(c) <==> c as int in WHITE_SPACE
  {
  }

  ghost predicate AllSpace(s: string) {
    forall i :: 0 <= i < |s| ==> IsSpace(s[i])
  }

  lemma {:induction false} TrimLeftDrops(s: string) returns (front: string)
    ensures s == front + TrimLeft(s) && AllSpace(front)
  {
    front := "";
    if s != "" && IsSpace(s[0]) {
      var rest := TrimLeftDrops(s[1..]);
      front := [s[0]] + rest;
      assert s == [s[0]] + s[1..];
    }
  }

  lemma {:induction false} TrimRightDrops(s: string) returns (back: string)
    ensures s == TrimRight(s) + back && AllSpace(back)
  {
    back := "";
    if s != "" && IsSpace(s[|s| - 1]) {
      var rest := TrimRightDrops(s[..|s| - 1]);
      back := rest + [s[|s| - 1]];
      assert s == s[..|s| - 1] + [s[|s| - 1]];
    }
  }

  /** Trimming takes white space off both ends, and leaves none there. */
  lemma TrimDropsSpace(s: string) returns (front: string, back: string)
    ensures s == front + Trim(s) + back && AllSpace(front) && AllSpace(back)
    ensures Trim(s) != "" ==>
              !IsSpace(Trim(s)[0]) && !IsSpace(Trim(s)[|Trim(s)| - 1])
    ensures Trim(s) == "" <==> AllSpace(s)
  {
    front := TrimLeftDrops(s);
    back := TrimRightDrops(TrimLeft(s));
    TrimLeftEnds(s);
    TrimRightEnds(TrimLeft(s));
    if Trim(s) != "" {
      assert Trim(s)[0] == TrimLeft(s)[0];
      assert s[|front|] == Trim(s)[0];
    }
  }

  lemma TrimIsIdempotent(s: string)
    ensures Trim(Trim(s)) == Trim(s)
  {
    TrimLeftEnds(s);
    TrimRightEnds(TrimLeft(s));
    assert Trim(s) != "" ==> Trim(s)[0] == TrimLeft(s)[0];
    assert TrimLeft(Trim(s)) == Trim(s);
  }

  // ----- Validation

  const JSON_OPERATORS := {"eq", "neq", "contains", "exists", "gt", "gte", "lt", "lte"}

  function FilterError(f: JSONFilter): Option<QueryError> {
    if f.path == "" then Some(PathRequired)
    else if f.operator !in JSON_OPERATORS then Some(BadJSONOperator)
    else None
  }

  /** One round of the filter loop: the path trimmed and, if it is not empty, the operator defaulted. */
  function NormalizedFilter(f: JSONFilter): JSONFilter {
    var path := Trim(f.path);
    JSONFilter(path, if path != "" && f.operator == "" then "eq" else f.operator, f.value)
  }

  /** Rewriting a list up to and including the first element whose rewriting is bad. */
  function RewriteUntil<T>(s: seq<T>, rewrite: T -> T, bad: T -> bool): (r: seq<T>)
    ensures |r| == |s|
  {
    if s == [] then []
    else if bad(rewrite(s[0])) then [rewrite(s[0])] + s[1..]
    else [rewrite(s[0])] + RewriteUntil(s[1..], rewrite, bad)
  }

  function FirstBad<T>(s: seq<T>, rewrite: T -> T, bad: T -> bool): (n: nat)
    ensures n <= |s| && (n < |s| ==> bad(rewrite(s[n])))
    ensures forall k :: 0 <= k < n ==> !bad(rewrite(s[k]))
  {
    if s == [] || bad(rewrite(s[0])) then 0 else 1 + FirstBad(s[1..], rewrite, bad)
  }

  lemma {:induction false} RewriteUntilAt<T>(s: seq<T>, rewrite: T -> T, bad: T -> bool, n: nat)
    requires n <= |s| && (forall k :: 0 <= k < n ==> !bad(rewrite(s[k]))) && (n < |s| ==> bad(rewrite(s[n])))
    ensures forall k :: 0 <= k < |s| ==> RewriteUntil(s, rewrite, bad)[k] == if k <= n then rewrite(s[k]) else s[k]
    ensures FirstBad(s, rewrite, bad) == n
  {
    if n > 0 {
      RewriteUntilAt(s[1..], rewrite, bad, n - 1);
    }
  }

  lemma {:induction false} RewriteUntilIsFixed<T>(s: seq<T>, rewrite: T -> T, bad: T -> bool)
    requires FirstBad(s, rewrite, bad) == |s| && forall x :: rewrite(rewrite(x)) == rewrite(x)
    ensures RewriteUntil(RewriteUntil(s, rewrite, bad), rewrite, bad) == RewriteUntil(s, rewrite, bad)
    ensures FirstBad(RewriteUntil(s, rewrite, bad), rewrite, bad) == |s|
  {
    if s != [] {
      RewriteUntilIsFixed(s[1..], rewrite, bad);
      assert RewriteUntil(s, rewrite, bad)[1..] == RewriteUntil(s[1..], rewrite, bad);
    }
  }

  predicate Rejected(f: JSONFilter) {
    FilterError(f).Some?
  }

  /** The filters the loop leaves behind: it stops after the first one it rejects. */
  function NormalizedFilters(fs: seq<JSONFilter>): (r: seq<JSONFilter>) {
    RewriteUntil(fs, NormalizedFilter, Rejected)
  }

  function FiltersError(fs: seq<JSONFilter>): Option<QueryError> {
    var n := FirstBad(fs, NormalizedFilter, Rejected);
    if n < |fs| then FilterError(NormalizedFilter(fs[n])) else None
  }

  function ModeError(q: Query): Option<QueryError> {
    if q.mode in {"earliest", "latest", "live"} then None
    else if q.mode == "offset" then if q.offset < 0 then Some(BadOffset) else None
    else if q.mode == "timestamp" then if q.timestamp <= 0 then Some(TimestampRequired) else None
    else Some(UnsupportedMode)
  }

  function Limited(limit: int): int {
    if limit < 1 then DEFAULT_LIMIT else if limit > MAX_LIMIT then MAX_LIMIT else limit
  }

  function OperatorError(filter: string, operator: string, supported: set<string>, error: QueryError): Option<QueryError> {
    if filter != "" && operator != "" && operator !in supported then Some(error) else None
  }

  /** Why a query is refused before its JSON filters are looked at. */
  function EarlyError(q: Query): Option<QueryError> {
    if Trim(q.topic) == "" then Some(TopicRequired)
    else if q.partition < -1 then Some(BadPartition)
    else if ModeError(q).Some? then ModeError(q)
    else if q.scanLimit > MAX_SCAN then Some(ScanLimitTooLarge)
    else
      var keyError := OperatorError(q.keyFilter, q.keyOperator, {"contains", "exact", "prefix"}, BadKeyOperator);
      var valueError := OperatorError(q.valueFilter, q.valueOperator, {"contains", "exact"}, BadValueOperator);
      if keyError.Some? then keyError
      else if valueError.Some? then valueError
      else if |q.jsonFilters| > MAX_JSON_FILTERS then Some(TooManyFilters)
      else None
  }

  function DefaultOperator(filter: string, operator: string): string {
    if filter != "" && operator == "" then "contains" else operator
  }

  /** The limit clamped and the missing operators filled in. */
  function Defaulted(q: Query): Query {
    q.(limit := Limited(q.limit), keyOperator := DefaultOperator(q.keyFilter, q.keyOperator),
       valueOperator := DefaultOperator(q.valueFilter, q.valueOperator))
  }

  /** The validated query, or why it is refused. */
  function Validated(q: Query): Result<Query, QueryError> {
    if EarlyError(q).Some? then Err(EarlyError(q).value)
    else if FiltersError(q.jsonFilters).Some? then Err(FiltersError(q.jsonFilters).value)
    else
      var q := Defaulted(q).(jsonFilters := NormalizedFilters(q.jsonFilters));
      Ok(q.(scanLimit := if !HasContentFilters(q) then q.limit else if q.scanLimit < 1 then DEFAULT_SCAN else q.scanLimit))
  }

  /** The limits the collector relies on. */
  predicate HasLimits(q: Query) {
    && 1 <= q.limit <= MAX_LIMIT && 1 <= q.scanLimit <= MAX_SCAN
    && (!HasContentFilters(q) ==> q.scanLimit == q.limit)
  }

  lemma ValidatedHasLimits(q: Query)
    ensures Validated(q).Ok? ==> HasLimits(Validated(q).value)
    ensures Validated(q).Ok? ==> HasContentFilters(Validated(q).value) == HasContentFilters(q)
  {
  }

  /** What is wrong with a query, check by check. */
  ghost predicate Fails(q: Query, e: QueryError) {
    match e
    case TopicRequired => AllSpace(q.topic)
    case BadPartition => q.partition <= -2
    case BadOffset => q.mode == "offset" && q.offset <= -1
    case TimestampRequired => q.mode == "timestamp" && q.timestamp <= 0
    case UnsupportedMode =>
      q.mode != "earliest" && q.mode != "latest" && q.mode != "live" && q.mode != "offset" && q.mode != "timestamp"
    case ScanLimitTooLarge => q.scanLimit >= 50_001
    case BadKeyOperator =>
      && |q.keyFilter| > 0 && q.keyOperator != "" && q.keyOperator != "contains" && q.keyOperator != "exact"
      && q.keyOperator != "prefix"
    case BadValueOperator =>
      |q.valueFilter| > 0 && q.valueOperator != "" && q.valueOperator != "contains" && q.valueOperator != "exact"
    case TooManyFilters => |q.jsonFilters| >= 6
    case PathRequired =>
      exists n: nat :: FirstRefused(q.jsonFilters, n) && AllSpace(q.jsonFilters[n].path)
    case BadJSONOperator =>
      exists n: nat :: FirstRefused(q.jsonFilters, n) && !AllSpace(q.jsonFilters[n].path)
  }

  /** The order of the checks. */
  function Rank(e: QueryError): nat {
    match e
    case TopicRequired => 0
    case BadPartition => 1
    case BadOffset => 2
    case TimestampRequired => 2
    case UnsupportedMode => 2
    case ScanLimitTooLarge => 3
    case BadKeyOperator => 4
    case BadValueOperator => 5
    case TooManyFilters => 6
    case PathRequired => 7
    case BadJSONOperator => 7
  }

  /** The filter has a path, and an operator that is known or left out. */
  ghost predicate Accepts(f: JSONFilter) {
    && !AllSpace(f.path)
    && f.operator in {"", "eq", "neq", "contains", "exists", "gt", "gte", "lt", "lte"}
  }

  ghost predicate FirstRefused(fs: seq<JSONFilter>, n: nat) {
    n < |fs| && !Accepts(fs[n]) && forall k :: 0 <= k < n ==> Accepts(fs[k])
  }

  lemma RejectedIsNotAccepted(f: JSONFilter)
    ensures Rejected(NormalizedFilter(f)) <==> !Accepts(f)
    ensures Rejected(NormalizedFilter(f)) ==>
              FilterError(NormalizedFilter(f)).value == if AllSpace(f.path) then PathRequired else BadJSONOperator
  {
    var _, _ := TrimDropsSpace(f.path);
  }

  /** The loop over the filters rewrites those before the first it refuses, trims the path of that one, and stops. */
  lemma RewrittenUpToRefused(fs: seq<JSONFilter>, n: nat, k: nat)
    requires n <= |fs| && (forall i :: 0 <= i < n ==> Accepts(fs[i])) && (n < |fs| ==> !Accepts(fs[n]))
    requires k < |fs|
    ensures NormalizedFilters(fs)[k] ==
            if k < n then JSONFilter(Trim(fs[k].path), if fs[k].operator == "" then "eq" else fs[k].operator, fs[k].value)
            else if k == n then fs[k].(path := Trim(fs[k].path))
            else fs[k]
  {
    forall i | 0 <= i < |fs| ensures Rejected(NormalizedFilter(fs[i])) <==> !Accepts(fs[i]) {
      RejectedIsNotAccepted(fs[i]);
    }
    RewriteUntilAt(fs, NormalizedFilter, Rejected, n);
    var _, _ := TrimDropsSpace(fs[k].path);
  }

  lemma FiltersErrorIsFirst(fs: seq<JSONFilter>)
    ensures FiltersError(fs).None? <==> forall k :: 0 <= k < |fs| ==> Accepts(fs[k])
    ensures forall n: nat :: FirstRefused(fs, n) ==>
              FiltersError(fs) == Some(if AllSpace(fs[n].path) then PathRequired else BadJSONOperator)
    ensures FiltersError(fs).Some? ==> exists n: nat :: FirstRefused(fs, n)
  {
    var m := FirstBad(fs, NormalizedFilter, Rejected);
    forall k | 0 <= k < |fs| ensures Rejected(NormalizedFilter(fs[k])) <==> !Accepts(fs[k]) {
      RejectedIsNotAccepted(fs[k]);
    }
    if m < |fs| {
      RejectedIsNotAccepted(fs[m]);
      assert FirstRefused(fs, m);
      forall n: nat | FirstRefused(fs, n) ensures n == m {
      }
    }
  }

  lemma EarlyErrorIsFirst(q: Query)
    ensures EarlyError(q).None? <==> forall e :: Rank(e) < 7 ==> !Fails(q, e)
    ensures EarlyError(q).Some? ==>
              && Rank(EarlyError(q).value) < 7 && Fails(q, EarlyError(q).value)
              && forall e :: Rank(e) < Rank(EarlyError(q).value) ==> !Fails(q, e)
  {
    var _, _ := TrimDropsSpace(q.topic);
    assert ModeError(q).Some? <==> Fails(q, BadOffset) || Fails(q, TimestampRequired) || Fails(q, UnsupportedMode);
    if EarlyError(q).None? {
      forall e | Rank(e) < 7 ensures !Fails(q, e) {
      }
    } else {
      assert Fails(q, EarlyError(q).value);
    }
  }

  lemma FilterErrorsFail(q: Query)
    ensures var error := FiltersError(q.jsonFilters);
            && (error.None? ==> !Fails(q, PathRequired) && !Fails(q, BadJSONOperator))
            && (error.Some? ==> Rank(error.value) == 7 && Fails(q, error.value))
  {
    FiltersErrorIsFirst(q.jsonFilters);
  }

  lemma RanksBelowEight(e: QueryError)
    ensures Rank(e) < 7 || e == PathRequired || e == BadJSONOperator
  {
  }

  /** A query is refused for the first of the checks that it fails, and accepted if it fails none. */
  lemma FirstFailedCheckDecides(q: Query)
    ensures Validated(q).Ok? ==> forall e :: !Fails(q, e)
    ensures Validated(q).Err? ==>
              Fails(q, Validated(q).error) && forall e :: Rank(e) < Rank(Validated(q).error) ==> !Fails(q, e)
  {
    EarlyErrorIsFirst(q);
    FilterErrorsFail(q);
    if Validated(q).Ok? {
      forall e ensures !Fails(q, e) {
        RanksBelowEight(e);
      }
    }
  }

  /**
   * What an accepted query is turned into: the limit brought into 1 to 500, with 100 for none; the operators of stated
   * filters "contains" where left out; each JSON path trimmed and its operator "eq" where left out; the scan limit the
   * limit if there is nothing to filter by, and 5,000 if there is and none was stated. All else is kept.
   */
  lemma ValidatedKeepsTheRest(q: Query)
    requires Validated(q).Ok?
    ensures var v := Validated(q).value;
            && v.limit == (if q.limit < 1 then 100 else if q.limit < 500 then q.limit else 500)
            && (|q.keyFilter| > 0 && q.keyOperator == "" ==> v.keyOperator == "contains")
            && (|q.keyFilter| == 0 || q.keyOperator != "" ==> v.keyOperator == q.keyOperator)
            && (|q.valueFilter| > 0 && q.valueOperator == "" ==> v.valueOperator == "contains")
            && (|q.valueFilter| == 0 || q.valueOperator != "" ==> v.valueOperator == q.valueOperator)
            && v.scanLimit == (if |q.keyFilter| == |q.valueFilter| == |q.jsonFilters| == 0 then v.limit
                               else if q.scanLimit < 1 then 5_000 else q.scanLimit)
            && v == q.(limit := v.limit, scanLimit := v.scanLimit, keyOperator := v.keyOperator,
                       valueOperator := v.valueOperator, jsonFilters := v.jsonFilters)
            && |v.jsonFilters| == |q.jsonFilters|
            && forall k :: 0 <= k < |q.jsonFilters| ==>
                 var f := q.jsonFilters[k];
                 v.jsonFilters[k] == JSONFilter(Trim(f.path), if f.operator == "" then "eq" else f.operator, f.value)
  {
    RewriteUntilAt(q.jsonFilters, NormalizedFilter, Rejected, |q.jsonFilters|);
  }

  lemma NormalizedFiltersAreFixed(fs: seq<JSONFilter>)
    requires FiltersError(fs).None?
    ensures NormalizedFilters(NormalizedFilters(fs)) == NormalizedFilters(fs)
    ensures FiltersError(NormalizedFilters(fs)).None?
  {
    forall f ensures NormalizedFilter(NormalizedFilter(f)) == NormalizedFilter(f) {
      TrimIsIdempotent(f.path);
    }
    RewriteUntilIsFixed(fs, NormalizedFilter, Rejected);
  }

  /** A validated query validates to itself, so the stream path may validate twice. */
  lemma ValidationIsIdempotent(q: Query)
    requires Validated(q).Ok?
    ensures Validated(Validated(q).value) == Validated(q)
  {
    NormalizedFiltersAreFixed(q.jsonFilters);
  }

  /** Between its two validations the stream path raises the limit; filters and positions stay what they were. */
  lemma StreamRevalidates(q: Query)
    requires Validated(q).Ok?
    ensures var again := Validated(Validated(q).value.(limit := MAX_LIMIT));
            && again.Ok? && again.value.limit == MAX_LIMIT
            && again.value.(limit := Validated(q).value.limit, scanLimit := Validated(q).value.scanLimit) == Validated(q).value
  {
    NormalizedFiltersAreFixed(q.jsonFilters);
  }

  /**
   * validateQuery as it runs: the JSON filters are rewritten in place in the caller's slice exactly when the query
   * passes the checks before them, also if it is then refused for one of them.
   */
  method ValidateQuery(query: Query, filters: array<JSONFilter>) returns (result: Result<Query, QueryError>)
    requires query.jsonFilters == filters[..]
    modifies filters
    ensures result == Validated(query)
    ensures result.Ok? ==> result.value.jsonFilters == filters[..]
    ensures filters[..] ==
            if EarlyError(query).None? then NormalizedFilters(old(filters[..])) else old(filters[..])
  {
    var error, q := CheckFields(query);
    if error.Some? {
      return Err(error.value);
    }
    error := ValidateFilters(filters);
    if error.Some? {
      return Err(error.value);
    }
    q := q.(jsonFilters := filters[..]);
    if HasContentFilters(q) {
      if q.scanLimit < 1 {
        q := q.(scanLimit := DEFAULT_SCAN);
      }
    } else {
      q := q.(scanLimit := q.limit);
    }
    result := Ok(q);
  }

  /** The checks and defaults before the filter loop. */
  method CheckFields(query: Query) returns (error: Option<QueryError>, q: Query)
    ensures error == EarlyError(query)
    ensures error.None? ==> q == Defaulted(query)
  {
    q := query;
    if Trim(q.topic) == "" {
      return Some(TopicRequired), q;
    }
    if q.partition < -1 {
      return Some(BadPartition), q;
    }
    if ModeError(q).Some? {
      return ModeError(q), q;
    }
    if q.limit < 1 {
      q := q.(limit := DEFAULT_LIMIT);
    }
    if q.limit > MAX_LIMIT {
      q := q.(limit := MAX_LIMIT);
    }
    if q.scanLimit > MAX_SCAN {
      return Some(ScanLimitTooLarge), q;
    }
    if q.keyFilter != "" {
      if q.keyOperator == "" {
        q := q.(keyOperator := "contains");
      }
      if q.keyOperator !in {"contains", "exact", "prefix"} {
        return Some(BadKeyOperator), q;
      }
    }
    if q.valueFilter != "" {
      if q.valueOperator == "" {
        q := q.(valueOperator := "contains");
      }
      if q.valueOperator !in {"contains", "exact"} {
        return Some(BadValueOperator), q;
      }
    }
    if |q.jsonFilters| > MAX_JSON_FILTERS {
      return Some(TooManyFilters), q;
    }
    error := None;
  }

  /** The loop over the filters, each rewritten in place before it is checked. */
  method ValidateFilters(filters: array<JSONFilter>) returns (error: Option<QueryError>)
    modifies filters
    ensures filters[..] == NormalizedFilters(old(filters[..]))
    ensures error == FiltersError(old(filters[..]))
  {
    ghost var before := filters[..];
    for i := 0 to filters.Length
      invariant forall k :: 0 <= k < i ==> filters[k] == NormalizedFilter(before[k])
      invariant forall k :: i <= k < filters.Length ==> filters[k] == before[k]
      invariant forall k :: 0 <= k < i ==> !Rejected(NormalizedFilter(before[k]))
    {
      var path := Trim(filters[i].path);
      filters[i] := filters[i].(path := path);
      if path == "" {
        RewriteUntilAt(before, NormalizedFilter, Rejected, i);
        return Some(PathRequired);
      }
      if filters[i].operator == "" {
        filters[i] := filters[i].(operator := "eq");
      }
      if filters[i].operator !in JSON_OPERATORS {
        RewriteUntilAt(before, NormalizedFilter, Rejected, i);
        return Some(BadJSONOperator);
      }
    }
    RewriteUntilAt(before, NormalizedFilter, Rejected, filters.Length);
    error := None;
  }

  // ----- Matching

  datatype Header = Header(key: string, value: string)

  datatype Record = Record(
    topic: string, partition: int, offset: int, timestamp: int, key: string, value: string, headers: seq<Header>)

  /** What the JSON conditions say about a record's value. */
  datatype JSONVerdict = NotJSON | Holds | Fails

  /** JSON decoding and comparison are not modelled: any function of the value and the conditions. */
  type JSONJudge = (string, seq<JSONFilter>) -> JSONVerdict

  predicate Contains(s: string, part: string) {
    exists i | 0 <= i <= |s| :: part <= s[i..]
  }

  predicate MatchText(actual: string, expected: string, operator: string) {
    if operator == "exact" then actual == expected
    else if operator == "prefix" then expected <= actual
    else Contains(actual, expected)
  }

  datatype Verdict = Verdict(matched: bool, invalidJSON: bool)

  function MatchRecord(r: Record, q: Query, judge: JSONJudge): Verdict {
    if q.keyFilter != "" && !MatchText(r.key, q.keyFilter, q.keyOperator) then Verdict(false, false)
    else if q.valueFilter != "" && !MatchText(r.value, q.valueFilter, q.valueOperator) then Verdict(false, false)
    else if |q.jsonFilters| == 0 then Verdict(true, false)
    else
      match judge(r.value, q.jsonFilters)
      case NotJSON => Verdict(false, true)
      case Holds => Verdict(true, false)
      case Fails => Verdict(false, false)
  }

  /** A text matches if it is the one expected, begins with it, or has it somewhere inside. */
  lemma TextMatches(actual: string, expected: string, operator: string)
    ensures operator == "exact" ==> (MatchText(actual, expected, operator) <==> actual == expected)
    ensures operator == "prefix" ==>
              (MatchText(actual, expected, operator) <==> exists rest :: actual == expected + rest)
    ensures operator != "exact" && operator != "prefix" ==>
              (MatchText(actual, expected, operator) <==> exists a, b :: actual == a + expected + b)
  {
    if operator == "prefix" && MatchText(actual, expected, operator) {
      assert actual == expected + actual[|expected|..];
    } else if operator != "exact" && operator != "prefix" {
      if MatchText(actual, expected, operator) {
        var i :| 0 <= i <= |actual| && expected <= actual[i..];
        assert actual == actual[..i] + expected + actual[i + |expected|..];
      }
      forall a: string, b: string | actual == a + expected + b ensures Contains(actual, expected) {
        assert actual[|a|..] == expected + b;
      }
    }
  }

  /**
   * A record matches if it passes every filter that is stated; its value counts as invalid JSON if it passes the text
   * filters, there are JSON filters, and it is not JSON.
   */
  lemma RecordMatches(r: Record, q: Query, judge: JSONJudge)
    ensures var v := MatchRecord(r, q, judge);
            var text := && (|q.keyFilter| == 0 || MatchText(r.key, q.keyFilter, q.keyOperator))
                        && (|q.valueFilter| == 0 || MatchText(r.value, q.valueFilter, q.valueOperator));
            && (v.matched <==> text && (q.jsonFilters == [] || judge(r.value, q.jsonFilters) == Holds))
            && (v.invalidJSON <==> text && q.jsonFilters != [] && judge(r.value, q.jsonFilters) == NotJSON)
  {
  }

  /** Without content filters everything matches. */
  lemma UnfilteredMatches(r: Record, q: Query, judge: JSONJudge)
    requires |q.keyFilter| == |q.valueFilter| == |q.jsonFilters| == 0
    ensures MatchRecord(r, q, judge) == Verdict(true, false)
  {
  }
}
