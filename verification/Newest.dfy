/** Ordering records newest first, and what it means to be the newest of a collection. */
module Newest {
  import opened Query

  /** Newer by timestamp, then partition, then offset. */
  predicate Newer(a: Record, b: Record) {
    if a.timestamp != b.timestamp then a.timestamp > b.timestamp
    else if a.partition != b.partition then a.partition > b.partition
    else a.offset > b.offset
  }

  predicate SameKey(a: Record, b: Record) {
    a.timestamp == b.timestamp && a.partition == b.partition && a.offset == b.offset
  }

  predicate Sorted(s: seq<Record>) {
    forall i, j :: 0 <= i < j < |s| ==> !Newer(s[j], s[i])
  }

  function Min(a: int, b: int): int {
    if a < b then a else b
  }

  // ----- A stable sort, newest first

  function Insert(s: seq<Record>, r: Record): seq<Record> {
    if s != [] && Newer(r, s[|s| - 1]) then Insert(s[..|s| - 1], r) + [s[|s| - 1]] else s + [r]
  }

  function SortNewest(s: seq<Record>): seq<Record> {
    if s == [] then [] else Insert(SortNewest(s[..|s| - 1]), s[|s| - 1])
  }

  /** The records with a given key, in order. */
  function WithKey(s: seq<Record>, k: Record): seq<Record> {
    if s == [] then []
    else WithKey(s[..|s| - 1], k) + if SameKey(s[|s| - 1], k) then [s[|s| - 1]] else []
  }

  lemma {:induction false} InsertAdds(s: seq<Record>, r: Record)
    ensures multiset(Insert(s, r)) == multiset(s) + multiset{r}
  {
    if s != [] && Newer(r, s[|s| - 1]) {
      InsertAdds(s[..|s| - 1], r);
      SplitLast(s);
    }
  }

  lemma SortedAppend(s: seq<Record>, last: Record)
    requires Sorted(s) && forall x :: x in multiset(s) ==> !Newer(last, x)
    ensures Sorted(s + [last])
  {
    assert forall i :: 0 <= i < |s| ==> s[i] in multiset(s);
  }

  lemma {:induction false} InsertSorts(s: seq<Record>, r: Record)
    requires Sorted(s)
    ensures Sorted(Insert(s, r))
  {
    if s != [] && Newer(r, s[|s| - 1]) {
      var rest, last := s[..|s| - 1], s[|s| - 1];
      InsertSorts(rest, r);
      InsertAdds(rest, r);
      forall x | x in multiset(Insert(rest, r)) ensures !Newer(last, x) {
        if x in multiset(rest) {
          var i :| 0 <= i < |rest| && rest[i] == x;
          assert s[i] == x;
        }
      }
      SortedAppend(Insert(rest, r), last);
    }
  }

  lemma {:induction false} SortKeepsAll(s: seq<Record>)
    ensures multiset(SortNewest(s)) == multiset(s)
  {
    if s != [] {
      SortKeepsAll(s[..|s| - 1]);
      InsertAdds(SortNewest(s[..|s| - 1]), s[|s| - 1]);
      SplitLast(s);
    }
  }

  lemma SplitLast(s: seq<Record>)
    requires s != []
    ensures multiset(s) == multiset(s[..|s| - 1]) + multiset{s[|s| - 1]}
  {
    assert s == s[..|s| - 1] + [s[|s| - 1]];
  }

  lemma {:induction false} SortSorts(s: seq<Record>)
    ensures Sorted(SortNewest(s)) && multiset(SortNewest(s)) == multiset(s)
  {
    SortKeepsAll(s);
    if s != [] {
      SortSorts(s[..|s| - 1]);
      InsertSorts(SortNewest(s[..|s| - 1]), s[|s| - 1]);
    }
  }

  lemma WithKeyOneMore(s: seq<Record>, r: Record, k: Record)
    ensures WithKey(s + [r], k) == WithKey(s, k) + if SameKey(r, k) then [r] else []
  {
    assert (s + [r])[..|s|] == s;
  }

  /** They are all the records with its timestamp, partition and offset. */
  lemma {:induction false} WithKeyCounts(s: seq<Record>, k: Record, r: Record)
    ensures multiset(WithKey(s, k))[r] ==
            if r.timestamp == k.timestamp && r.partition == k.partition && r.offset == k.offset then multiset(s)[r] else 0
  {
    if s != [] {
      WithKeyCounts(s[..|s| - 1], k, r);
      SplitLast(s);
    }
  }

  lemma {:induction false} InsertIsStable(s: seq<Record>, r: Record, k: Record)
    ensures WithKey(Insert(s, r), k) == WithKey(s + [r], k)
  {
    if s != [] && Newer(r, s[|s| - 1]) {
      var rest, last := s[..|s| - 1], s[|s| - 1];
      InsertIsStable(rest, r, k);
      assert s == rest + [last];
      WithKeyOneMore(Insert(rest, r), last, k);
      WithKeyOneMore(rest, r, k);
      WithKeyOneMore(rest, last, k);
      WithKeyOneMore(s, r, k);
    }
  }

  /** The sort keeps records with equal keys in the order they came in. */
  lemma {:induction false} SortIsStable(s: seq<Record>, k: Record)
    ensures WithKey(SortNewest(s), k) == WithKey(s, k)
  {
    if s != [] {
      var rest, last := s[..|s| - 1], s[|s| - 1];
      SortIsStable(rest, k);
      InsertIsStable(SortNewest(rest), last, k);
      WithKeyOneMore(SortNewest(rest), last, k);
      WithKeyOneMore(rest, last, k);
      assert s == rest + [last];
    }
  }

  // ----- The newest of a collection

  /** `kept` are `k` of the records (or all of them), and none left out is newer than one kept. */
  ghost predicate AreNewest(kept: multiset<Record>, all: multiset<Record>, k: nat) {
    && kept <= all
    && |kept| == Min(k, |all|)
    && forall d, x :: d in all - kept && x in kept ==> !Newer(d, x)
  }

  /** While there is room, a new record joins. */
  lemma JoinNewest(kept: multiset<Record>, all: multiset<Record>, k: nat, r: Record)
    requires AreNewest(kept, all, k) && |kept| < k
    ensures AreNewest(kept + multiset{r}, all + multiset{r}, k)
  {
    RoomMeansAll(kept, all);
  }

  lemma RoomMeansAll(kept: multiset<Record>, all: multiset<Record>)
    requires kept <= all && |kept| == |all|
    ensures kept == all
  {
    assert all == kept + (all - kept);
  }

  /** When full, a record newer than the oldest kept one takes its place. */
  lemma ReplaceOldest(kept: multiset<Record>, all: multiset<Record>, k: nat, r: Record, oldest: Record)
    requires AreNewest(kept, all, k) && |kept| == k && oldest in kept && Newer(r, oldest)
    requires forall x :: x in kept ==> !Newer(oldest, x)
    ensures AreNewest(kept - multiset{oldest} + multiset{r}, all + multiset{r}, k)
  {
    var kept', all' := kept - multiset{oldest} + multiset{r}, all + multiset{r};
    assert all' - kept' == (all - kept) + multiset{oldest};
    forall d, x | d in all' - kept' && x in kept' ensures !Newer(d, x) {
      assert d == oldest || d in all - kept;
      assert x == r || x in kept;
    }
  }

  /** When full, a record not newer than the oldest kept one is left out. */
  lemma KeepOldest(kept: multiset<Record>, all: multiset<Record>, k: nat, r: Record, oldest: Record)
    requires AreNewest(kept, all, k) && |kept| == k && oldest in kept && !Newer(r, oldest)
    requires forall x :: x in kept ==> !Newer(oldest, x)
    ensures AreNewest(kept, all + multiset{r}, k)
  {
    var all' := all + multiset{r};
    assert all' - kept == (all - kept) + multiset{r};
    forall d, x | d in all' - kept && x in kept ensures !Newer(d, x) {
      assert d == r || d in all - kept;
    }
  }

  // ----- Uniqueness

  /** No two of the records have the same timestamp, partition and offset. */
  ghost predicate DistinctKeys(all: multiset<Record>) {
    && (forall r :: all[r] <= 1)
    && forall a, b :: a in all && b in all && SameKey(a, b) ==> a == b
  }

  lemma NewestAreUnique(a: multiset<Record>, b: multiset<Record>, all: multiset<Record>, k: nat)
    requires AreNewest(a, all, k) && AreNewest(b, all, k) && DistinctKeys(all)
    ensures a == b
  {
    if x :| x in all && a[x] > b[x] {
      if y :| y in all && b[y] > a[y] {
        assert x in all - b && y in all - a;
        assert SameKey(x, y);
      } else {
        RoomMeansAll(b, a);
      }
    } else {
      RoomMeansAll(a, b);
    }
  }

  /** Sorted sequences of the same records are equal when no two keys are. */
  lemma {:induction false} SortedAreEqual(s: seq<Record>, t: seq<Record>)
    requires Sorted(s) && Sorted(t) && multiset(s) == multiset(t) && DistinctKeys(multiset(s))
    ensures s == t
  {
    SameLength(s, t);
    if s != [] {
      HeadsAreEqual(s, t);
      TailIsRest(s);
      TailIsRest(t);
      FewerAreDistinct(multiset(s[1..]), multiset(s));
      SortedAreEqual(s[1..], t[1..]);
      assert s == [s[0]] + s[1..] && t == [t[0]] + t[1..];
    }
  }

  lemma SameLength(s: seq<Record>, t: seq<Record>)
    requires multiset(s) == multiset(t)
    ensures |s| == |t|
  {
    assert |s| == |multiset(s)| && |t| == |multiset(t)|;
  }

  lemma TailIsRest(s: seq<Record>)
    requires s != []
    ensures multiset(s[1..]) == multiset(s) - multiset{s[0]}
  {
    assert s == [s[0]] + s[1..];
  }

  lemma FewerAreDistinct(some: multiset<Record>, all: multiset<Record>)
    requires some <= all && DistinctKeys(all)
    ensures DistinctKeys(some)
  {
  }

  /** So there is one way to list the newest of records with distinct keys, newest first. */
  lemma SortedNewestAreEqual(s: seq<Record>, t: seq<Record>, all: multiset<Record>, k: nat)
    requires AreNewest(multiset(s), all, k) && AreNewest(multiset(t), all, k) && DistinctKeys(all)
    requires Sorted(s) && Sorted(t)
    ensures s == t
  {
    NewestAreUnique(multiset(s), multiset(t), all, k);
    FewerAreDistinct(multiset(s), all);
    SortedAreEqual(s, t);
  }

  lemma HeadsAreEqual(s: seq<Record>, t: seq<Record>)
    requires Sorted(s) && Sorted(t) && multiset(s) == multiset(t) && DistinctKeys(multiset(s)) && s != [] && t != []
    ensures s[0] == t[0]
  {
    assert s[0] in multiset(t) && t[0] in multiset(s);
    var i :| 0 <= i < |t| && t[i] == s[0];
    var j :| 0 <= j < |s| && s[j] == t[0];
    assert !Newer(s[0], t[0]) && !Newer(t[0], s[0]);
    assert SameKey(s[0], t[0]);
  }

  /** The first `k` of all records sorted are the newest `k`. */
  lemma TakeIsNewest(s: seq<Record>, k: nat)
    requires Sorted(s)
    ensures AreNewest(multiset(s[..Min(k, |s|)]), multiset(s), k) && Sorted(s[..Min(k, |s|)])
  {
    var n := Min(k, |s|);
    var front, back := s[..n], s[n..];
    assert s == front + back;
    forall d, x | d in multiset(s) - multiset(front) && x in multiset(front) ensures !Newer(d, x) {
      assert d in multiset(back);
      SortedSplit(s, n, d, x);
    }
  }

  lemma SortedSplit(s: seq<Record>, n: nat, d: Record, x: Record)
    requires Sorted(s) && n <= |s| && d in multiset(s[n..]) && x in multiset(s[..n])
    ensures !Newer(d, x)
  {
    var i :| 0 <= i < |s| - n && s[n..][i] == d;
    var j :| 0 <= j < n && s[..n][j] == x;
    assert s[n + i] == d && s[j] == x;
  }
}
