/** Python's `sorted`, `list.sort(key=...)` and `np.median`, as the parts of the source use them. */
module Sorting {
  import opened Common

  predicate SortedBy<T>(s: seq<T>, key: T -> int)
  {
    forall i, j :: 0 <= i < j < |s| ==> key(s[i]) <= key(s[j])
  }

  /** Inserts x before the first element whose key is not smaller: equal keys keep their
      order, as in Python's stable sort. */
  function Insert<T>(x: T, s: seq<T>, key: T -> int): (r: seq<T>)
    requires SortedBy(s, key)
    ensures SortedBy(r, key)
    ensures multiset(r) == multiset(s) + multiset{x}
    ensures |r| == |s| + 1
    ensures r[0] == x || (|s| > 0 && r[0] == s[0])
  {
    if s == [] || key(x) <= key(s[0]) then [x] + s
    else
      assert s == [s[0]] + s[1..];
      [s[0]] + Insert(x, s[1..], key)
  }

  function SortBy<T>(s: seq<T>, key: T -> int): (r: seq<T>)
    ensures SortedBy(r, key)
    ensures multiset(r) == multiset(s)
    ensures |r| == |s|
  {
    if s == [] then []
    else
      assert s == [s[0]] + s[1..];
      Insert(s[0], SortBy(s[1..], key), key)
  }

  /** Sorting a sequence that is already in key order changes nothing. */
  lemma {:induction false} SortBySortedIsIdentity<T>(s: seq<T>, key: T -> int)
    requires SortedBy(s, key)
    ensures SortBy(s, key) == s
  {
    if s != [] {
      SortBySortedIsIdentity(s[1..], key);
      assert s == [s[0]] + s[1..];
    }
  }

  function Id(x: int): int { x }

  predicate Sorted(s: seq<int>)
  {
    forall i, j :: 0 <= i < j < |s| ==> s[i] <= s[j]
  }

  predicate StrictlyIncreasing(s: seq<int>)
  {
    forall i, j :: 0 <= i < j < |s| ==> s[i] < s[j]
  }

  /** Python's `sorted` on a list of integers. */
  function Sort(s: seq<int>): (r: seq<int>)
    ensures Sorted(r) && multiset(r) == multiset(s) && |r| == |s|
  {
    var r := SortBy(s, Id);
    assert forall i, j :: 0 <= i < j < |r| ==> Id(r[i]) <= Id(r[j]);
    r
  }

  /** How many elements are at most m, and at least m. */
  function CountAtMost(s: seq<int>, m: int): nat
  {
    if s == [] then 0
    else CountAtMost(s[..|s| - 1], m) + (if s[|s| - 1] <= m then 1 else 0)
  }

  function CountAtLeast(s: seq<int>, m: int): nat
  {
    if s == [] then 0
    else CountAtLeast(s[..|s| - 1], m) + (if s[|s| - 1] >= m then 1 else 0)
  }

  lemma {:induction false} CountConcat(u: seq<int>, v: seq<int>, m: int)
    ensures CountAtMost(u + v, m) == CountAtMost(u, m) + CountAtMost(v, m)
    ensures CountAtLeast(u + v, m) == CountAtLeast(u, m) + CountAtLeast(v, m)
    decreases |v|
  {
    if v != [] {
      assert (u + v)[..|u + v| - 1] == u + v[..|v| - 1];
      CountConcat(u, v[..|v| - 1], m);
    } else {
      assert u + v == u;
    }
  }

  lemma {:induction false} CountAll(s: seq<int>, m: int)
    ensures (forall i :: 0 <= i < |s| ==> s[i] <= m) ==> CountAtMost(s, m) == |s|
    ensures (forall i :: 0 <= i < |s| ==> s[i] >= m) ==> CountAtLeast(s, m) == |s|
  {
    if s != [] {
      CountAll(s[..|s| - 1], m);
    }
  }

  lemma CountRemoveAt(b: seq<int>, i: nat, m: int)
    requires i < |b|
    ensures CountAtMost(b, m) == CountAtMost(b[..i] + b[i + 1..], m) + (if b[i] <= m then 1 else 0)
    ensures CountAtLeast(b, m) == CountAtLeast(b[..i] + b[i + 1..], m) + (if b[i] >= m then 1 else 0)
  {
    assert b == (b[..i] + [b[i]]) + b[i + 1..];
    CountConcat(b[..i] + [b[i]], b[i + 1..], m);
    CountConcat(b[..i], [b[i]], m);
    CountConcat(b[..i], b[i + 1..], m);
    assert CountAtMost([b[i]], m) == (if b[i] <= m then 1 else 0) by {
      assert [b[i]][..0] == [];
    }
    assert CountAtLeast([b[i]], m) == (if b[i] >= m then 1 else 0) by {
      assert [b[i]][..0] == [];
    }
  }

  lemma MultisetRemoveAt(b: seq<int>, i: nat)
    requires i < |b|
    ensures multiset(b[..i] + b[i + 1..]) == multiset(b) - multiset{b[i]}
  {
    assert b == b[..i] + [b[i]] + b[i + 1..];
  }

  /** Counting is blind to order: a permutation has the same counts. */
  lemma {:induction false} CountPermutation(a: seq<int>, b: seq<int>, m: int)
    requires multiset(a) == multiset(b)
    ensures CountAtMost(a, m) == CountAtMost(b, m)
    ensures CountAtLeast(a, m) == CountAtLeast(b, m)
    decreases |a|
  {
    if a == [] {
      assert |b| == |multiset(b)| == 0;
    } else {
      var x := a[|a| - 1];
      assert x in multiset(b);
      var i :| 0 <= i < |b| && b[i] == x;
      MultisetRemoveAt(a, |a| - 1);
      MultisetRemoveAt(b, i);
      assert a[..|a| - 1] + a[|a|..] == a[..|a| - 1];
      CountPermutation(a[..|a| - 1], b[..i] + b[i + 1..], m);
      CountRemoveAt(b, i, m);
    }
  }

  /** The middle of a list: its middle element, or for an even count the truncated mean of
      its two middle elements. */
  function Middle(s: seq<int>): int
    requires |s| > 0
  {
    var n := |s|;
    if n % 2 == 1 then s[n / 2] else TruncDiv(s[n / 2 - 1] + s[n / 2], 2)
  }

  /** `np.median` of integers followed by `int(...)`: the middle of the sorted values. At least
      half the values lie on each side of it. */
  function Median(xs: seq<int>): (m: int)
    requires |xs| > 0
    ensures m == Middle(Sort(xs))
    ensures CountAtMost(xs, m) >= (|xs| + 1) / 2
    ensures CountAtLeast(xs, m) >= (|xs| + 1) / 2
  {
    var s := Sort(xs);
    var m := Middle(s);
    MedianCounts(s, m);
    CountPermutation(s, xs, m);
    m
  }

  lemma CountLow(s: seq<int>, m: int, t: nat)
    requires t <= |s|
    requires forall k :: 0 <= k < t ==> s[k] <= m
    ensures CountAtMost(s, m) >= t
  {
    assert s == s[..t] + s[t..];
    CountConcat(s[..t], s[t..], m);
    CountAll(s[..t], m);
  }

  lemma CountHigh(s: seq<int>, m: int, t: nat)
    requires t <= |s|
    requires forall k :: t <= k < |s| ==> s[k] >= m
    ensures CountAtLeast(s, m) >= |s| - t
  {
    assert s == s[..t] + s[t..];
    CountConcat(s[..t], s[t..], m);
    CountAll(s[t..], m);
  }

  lemma MedianCounts(s: seq<int>, m: int)
    requires |s| > 0 && Sorted(s)
    requires m == Middle(s)
    ensures CountAtMost(s, m) >= (|s| + 1) / 2
    ensures CountAtLeast(s, m) >= (|s| + 1) / 2
  {
    var n := |s|;
    if n % 2 == 1 {
      CountLow(s, m, n / 2 + 1);
      CountHigh(s, m, n / 2);
    } else {
      TruncDivBetween(s[n / 2 - 1] + s[n / 2], 2, s[n / 2 - 1], s[n / 2]);
      CountLow(s, m, n / 2);
      CountHigh(s, m, n / 2);
    }
  }

  /** The median stays inside any range that holds all the values. */
  lemma MedianInRange(xs: seq<int>, lo: int, hi: int)
    requires |xs| > 0
    requires forall i :: 0 <= i < |xs| ==> lo <= xs[i] <= hi
    ensures lo <= Median(xs) <= hi
  {
    var s := Sort(xs);
    forall k | 0 <= k < |s|
      ensures lo <= s[k] <= hi
    {
      PermutedInRange(xs, s, k, lo, hi);
    }
    MiddleInRange(s, lo, hi);
  }

  lemma MiddleInRange(s: seq<int>, lo: int, hi: int)
    requires |s| > 0
    requires forall k :: 0 <= k < |s| ==> lo <= s[k] <= hi
    ensures lo <= Middle(s) <= hi
  {
    var n := |s|;
    if n % 2 == 0 {
      TruncDivBetween(s[n / 2 - 1] + s[n / 2], 2, lo, hi);
    }
  }

  lemma PermutedInRange(xs: seq<int>, s: seq<int>, k: nat, lo: int, hi: int)
    requires multiset(s) == multiset(xs) && k < |s|
    requires forall i :: 0 <= i < |xs| ==> lo <= xs[i] <= hi
    ensures lo <= s[k] <= hi
  {
    assert s[k] in multiset(xs);
  }
}
