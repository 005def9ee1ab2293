/** `cluster_colors` and `assign_letter` (src/imageloader.py:201-277): the sampled cell colours
    are grouped into at most 26 clusters, and each cell gets the letter of its nearest cluster. */
module ColorCluster {
  import opened Common
  import opened Sorting
  import opened Picture

  /** `COLOR_MERGE_THR`: colours at most this far apart join the same cluster. */
  const ColorMergeThr := 45

  /** The number of letters, and so of clusters, a board may use. */
  const MaxClusters := 26

  const Letters := "ABCDEFGHIJKLMNOPQRSTUVWXYZ"

  /** One cluster: its integer centroid, how many colours it holds, and the index of the first
      colour that opened it. */
  datatype Cluster = Cluster(centroid: Rgb, count: nat, firstIdx: nat)

  /** Squared distance from x to the centroid of cluster k. */
  function CentroidDist(x: Rgb, cls: seq<Cluster>, k: nat): nat
    requires k < |cls|
  {
    Dist2(x, cls[k].centroid)
  }

  /** The nearest of the first k clusters, the first one on a tie (the comparison is a strict
      `<`); -1 when k is 0. */
  function NearestIn(x: Rgb, cls: seq<Cluster>, k: nat): (b: int)
    requires k <= |cls|
    ensures -1 <= b < k
    ensures b == -1 <==> k == 0
    ensures b >= 0 ==> forall j :: 0 <= j < k ==> CentroidDist(x, cls, b) <= CentroidDist(x, cls, j)
    ensures b >= 0 ==> forall j :: 0 <= j < b ==> CentroidDist(x, cls, b) < CentroidDist(x, cls, j)
  {
    if k == 0 then -1
    else
      var b := NearestIn(x, cls, k - 1);
      if b == -1 || CentroidDist(x, cls, k - 1) < CentroidDist(x, cls, b) then k - 1 else b
  }

  function Nearest(x: Rgb, cls: seq<Cluster>): int
  {
    NearestIn(x, cls, |cls|)
  }

  /** `int((c * n + v) / (n + 1))`: the running mean after one more value. */
  function RunningMean(c: int, n: nat, v: int): int
  {
    TruncDiv(c * n + v, n + 1)
  }

  /** Cluster cl after colour x joins it (src/imageloader.py:221-229). */
  function Absorb(cl: Cluster, x: Rgb): Cluster
  {
    Cluster(Rgb(RunningMean(cl.centroid.r, cl.count, x.r),
                RunningMean(cl.centroid.g, cl.count, x.g),
                RunningMean(cl.centroid.b, cl.count, x.b)),
            cl.count + 1, cl.firstIdx)
  }

  /** One step of the loop at src/imageloader.py:210-231: colour x, at index idx, joins its
      nearest cluster when that is within thr, and opens a new cluster otherwise. */
  function AddColor(cls: seq<Cluster>, x: Rgb, idx: nat, thr: int): (r: seq<Cluster>)
    ensures Populated(cls) ==> Populated(r)
  {
    var b := Nearest(x, cls);
    if b != -1 && WithinDist(x, cls[b].centroid, thr) then cls[b := Absorb(cls[b], x)]
    else cls + [Cluster(x, 1, idx)]
  }

  /** The clusters after the first pass over all colours. */
  function Online(colors: seq<Rgb>, thr: int): (r: seq<Cluster>)
    ensures Populated(r)
  {
    if colors == [] then []
    else AddColor(Online(colors[..|colors| - 1], thr), colors[|colors| - 1], |colors| - 1, thr)
  }

  /** Squared distance between the centroids of clusters i and j. */
  function PairDist(cls: seq<Cluster>, i: nat, j: nat): nat
    requires i < |cls| && j < |cls|
  {
    Dist2(cls[i].centroid, cls[j].centroid)
  }

  /** Pair (p, q) comes before pair (i, j) in the order the nested loops of
      src/imageloader.py:238-243 visit them. */
  predicate ScanBefore(p: nat, q: nat, i: nat, j: nat)
  {
    p < i || (p == i && q < j)
  }

  predicate IsPair(cls: seq<Cluster>, pr: (nat, nat))
  {
    pr.0 < pr.1 < |cls|
  }

  /** The scan's `best_pair` after pair (i, j) is compared. */
  function Closer(cls: seq<Cluster>, best: Option<(nat, nat)>, i: nat, j: nat): Option<(nat, nat)>
    requires i < j < |cls| && (best.Some? ==> IsPair(cls, best.value))
  {
    if best.None? || PairDist(cls, i, j) < PairDist(cls, best.value.0, best.value.1) then Some((i, j))
    else best
  }

  /** The scan's `best_pair` once every pair before (i, j) has been compared. */
  function PairsBefore(cls: seq<Cluster>, i: nat, j: nat): (best: Option<(nat, nat)>)
    requires i < j <= |cls|
    ensures best.None? <==> i == 0 && j == 1
    ensures best.Some? ==> IsPair(cls, best.value) && ScanBefore(best.value.0, best.value.1, i, j)
    decreases i, j
  {
    if j > i + 1 then Closer(cls, PairsBefore(cls, i, j - 1), i, j - 1)
    else if i > 0 then PairsBefore(cls, i - 1, |cls|)
    else None
  }

  /** The pair the scan keeps is the closest among those visited before (i, j), the first one
      on a tie. */
  lemma {:induction false} PairsBeforeIsClosest(cls: seq<Cluster>, i: nat, j: nat)
    requires i < j <= |cls|
    ensures var best := PairsBefore(cls, i, j);
      best.Some? ==> forall p: nat, q: nat :: p < q < |cls| && ScanBefore(p, q, i, j) ==>
        PairDist(cls, best.value.0, best.value.1) <= PairDist(cls, p, q)
    ensures var best := PairsBefore(cls, i, j);
      best.Some? ==> forall p: nat, q: nat :: p < q < |cls| && ScanBefore(p, q, best.value.0, best.value.1) ==>
        PairDist(cls, best.value.0, best.value.1) < PairDist(cls, p, q)
    decreases i, j
  {
    if j > i + 1 {
      PairsBeforeIsClosest(cls, i, j - 1);
    } else if i > 0 {
      PairsBeforeIsClosest(cls, i - 1, |cls|);
    }
  }

  /** The pair the merge loop merges: the closest of all pairs i < j, the first one on a tie. */
  function ClosestPair(cls: seq<Cluster>): (pr: (nat, nat))
    requires |cls| >= 2
    ensures IsPair(cls, pr)
    ensures forall p: nat, q: nat :: p < q < |cls| ==> PairDist(cls, pr.0, pr.1) <= PairDist(cls, p, q)
    ensures forall p: nat, q: nat :: p < q < |cls| && ScanBefore(p, q, pr.0, pr.1) ==> PairDist(cls, pr.0, pr.1) < PairDist(cls, p, q)
  {
    PairsBeforeIsClosest(cls, |cls| - 1, |cls|);
    PairsBefore(cls, |cls| - 1, |cls|).value
  }

  /** `int((a * ca + b * cb) / (ca + cb))`. */
  function WeightedMean(a: int, ca: nat, b: int, cb: nat): int
    requires ca + cb > 0
  {
    TruncDiv(a * ca + b * cb, ca + cb)
  }

  /** Every cluster holds at least one colour. */
  predicate Populated(cls: seq<Cluster>)
  {
    forall k :: 0 <= k < |cls| ==> cls[k].count >= 1
  }

  /** Cluster b merged into cluster a (src/imageloader.py:250-259). */
  function Combine(a: Cluster, b: Cluster): Cluster
    requires a.count >= 1 && b.count >= 1
  {
    Cluster(Rgb(WeightedMean(a.centroid.r, a.count, b.centroid.r, b.count),
                WeightedMean(a.centroid.g, a.count, b.centroid.g, b.count),
                WeightedMean(a.centroid.b, a.count, b.centroid.b, b.count)),
            a.count + b.count, Min(a.firstIdx, b.firstIdx))
  }

  /** `clusters[i]` takes in `clusters[j]`, which is then popped. */
  function MergePair(cls: seq<Cluster>, i: nat, j: nat): (r: seq<Cluster>)
    requires i < j < |cls| && Populated(cls)
    ensures |r| == |cls| - 1 && Populated(r)
  {
    var m := cls[i := Combine(cls[i], cls[j])];
    m[..j] + m[j + 1..]
  }

  /** The merge loop of src/imageloader.py:234-261: while there are more than maxClusters
      clusters, merge the closest pair. */
  function Cap(cls: seq<Cluster>, maxClusters: nat): (r: seq<Cluster>)
    requires maxClusters >= 1 && Populated(cls)
    ensures Populated(r)
    decreases |cls|
  {
    if |cls| <= maxClusters then cls
    else
      var pr := ClosestPair(cls);
      Cap(MergePair(cls, pr.0, pr.1), maxClusters)
  }

  function FirstIdx(c: Cluster): int
  {
    c.firstIdx
  }

  function TotalCount(cls: seq<Cluster>): nat
  {
    if cls == [] then 0 else TotalCount(cls[..|cls| - 1]) + cls[|cls| - 1].count
  }

  predicate IncreasingFirst(cls: seq<Cluster>)
  {
    forall i, j :: 0 <= i < j < |cls| ==> cls[i].firstIdx < cls[j].firstIdx
  }

  predicate FirstBelow(cls: seq<Cluster>, n: nat)
  {
    forall k :: 0 <= k < |cls| ==> cls[k].firstIdx < n
  }

  /** Each channel of p lies in its own range: red in lo.r..hi.r, green in lo.g..hi.g, blue in
      lo.b..hi.b. */
  predicate ChannelsIn(p: Rgb, lo: Rgb, hi: Rgb)
  {
    lo.r <= p.r <= hi.r && lo.g <= p.g <= hi.g && lo.b <= p.b <= hi.b
  }

  predicate CentroidsIn(cls: seq<Cluster>, lo: Rgb, hi: Rgb)
  {
    forall k :: 0 <= k < |cls| ==> ChannelsIn(cls[k].centroid, lo, hi)
  }

  predicate ColorsIn(colors: seq<Rgb>, lo: Rgb, hi: Rgb)
  {
    forall k :: 0 <= k < |colors| ==> ChannelsIn(colors[k], lo, hi)
  }

  /** The value `cluster_colors(colors, merge_thr, max_clusters)` returns. Python fails on
      `max_clusters < 1` with at least one colour; the source only passes 26. */
  function Clustering(colors: seq<Rgb>, thr: int, maxClusters: nat): seq<Cluster>
    requires maxClusters >= 1
  {
    SortBy(Cap(Online(colors, thr), maxClusters), FirstIdx)
  }

  /** `LETTERS[i] if i < len(LETTERS) else "Z"`. */
  function Letter(i: nat): char
  {
    if i < |Letters| then Letters[i] else 'Z'
  }

  /** The value `assign_letter(rgb, clusters)` returns; with no clusters `best_i` stays 0. */
  function LetterFor(x: Rgb, cls: seq<Cluster>): char
  {
    var b := Nearest(x, cls);
    Letter(if b == -1 then 0 else b)
  }

  // ---------------------------------------------------------------- the first pass

  /** A colour opens a new cluster exactly when no existing centroid is within thr of it;
      otherwise it joins the nearest cluster, which then is within thr. */
  lemma AddColorCases(cls: seq<Cluster>, x: Rgb, idx: nat, thr: int)
    ensures (forall k :: 0 <= k < |cls| ==> !WithinDist(x, cls[k].centroid, thr)) ==>
      AddColor(cls, x, idx, thr) == cls + [Cluster(x, 1, idx)]
    ensures (exists k :: 0 <= k < |cls| && WithinDist(x, cls[k].centroid, thr)) ==>
      var b := Nearest(x, cls);
      && 0 <= b < |cls| && WithinDist(x, cls[b].centroid, thr)
      && AddColor(cls, x, idx, thr) == cls[b := Absorb(cls[b], x)]
  {
    if exists k :: 0 <= k < |cls| && WithinDist(x, cls[k].centroid, thr) {
      var k :| 0 <= k < |cls| && WithinDist(x, cls[k].centroid, thr);
      var b := Nearest(x, cls);
      assert CentroidDist(x, cls, b) <= CentroidDist(x, cls, k);
    }
  }

  lemma {:induction false} TotalCountConcat(u: seq<Cluster>, v: seq<Cluster>)
    ensures TotalCount(u + v) == TotalCount(u) + TotalCount(v)
    decreases |v|
  {
    if v != [] {
      var n := |v| - 1;
      var w := u + v;
      TotalCountConcat(u, v[..n]);
      assert w[..|w| - 1] == u + v[..n];
      assert w[|w| - 1] == v[n];
      assert TotalCount(w) == TotalCount(w[..|w| - 1]) + w[|w| - 1].count;
    } else {
      assert u + v == u;
    }
  }

  lemma TotalCountSplit(s: seq<Cluster>, k: nat)
    requires k < |s|
    ensures TotalCount(s) == TotalCount(s[..k]) + s[k].count + TotalCount(s[k + 1..])
  {
    assert s == s[..k] + [s[k]] + s[k + 1..];
    TotalCountConcat(s[..k] + [s[k]], s[k + 1..]);
    TotalCountConcat(s[..k], [s[k]]);
  }

  lemma TotalCountUpdate(s: seq<Cluster>, k: nat, c: Cluster)
    requires k < |s|
    ensures TotalCount(s[k := c]) == TotalCount(s) - s[k].count + c.count
  {
    TotalCountSplit(s, k);
    TotalCountSplit(s[k := c], k);
    assert s[k := c][..k] == s[..k] && s[k := c][k + 1..] == s[k + 1..];
  }

  lemma MulBetween(a: int, c: nat, lo: int, hi: int)
    requires lo <= a <= hi
    ensures lo * c <= a * c <= hi * c
  {
  }

  /** A weighted mean of two values in lo..hi lies in lo..hi. */
  lemma WeightedMeanBetween(a: int, ca: nat, b: int, cb: nat, lo: int, hi: int)
    requires lo <= a <= hi && lo <= b <= hi && ca + cb > 0
    ensures lo <= WeightedMean(a, ca, b, cb) <= hi
  {
    MulBetween(a, ca, lo, hi);
    MulBetween(b, cb, lo, hi);
    assert lo * (ca + cb) == lo * ca + lo * cb && hi * (ca + cb) == hi * ca + hi * cb;
    TruncDivBetween(a * ca + b * cb, ca + cb, lo, hi);
  }

  lemma RunningMeanBetween(c: int, n: nat, v: int, lo: int, hi: int)
    requires lo <= c <= hi && lo <= v <= hi
    ensures lo <= RunningMean(c, n, v) <= hi
  {
    WeightedMeanBetween(c, n, v, 1, lo, hi);
    assert v * 1 == v;
  }

  lemma ColorsInPrefix(colors: seq<Rgb>, n: nat, lo: Rgb, hi: Rgb)
    requires n <= |colors| && ColorsIn(colors, lo, hi)
    ensures ColorsIn(colors[..n], lo, hi)
  {
    forall k | 0 <= k < n
      ensures ChannelsIn(colors[..n][k], lo, hi)
    {
      assert colors[..n][k] == colors[k];
    }
  }

  /** One colour more: one more colour counted, and at most one cluster more. */
  lemma AddColorCount(cls: seq<Cluster>, x: Rgb, idx: nat, thr: int)
    requires Populated(cls)
    ensures var r := AddColor(cls, x, idx, thr);
      && Populated(r) && TotalCount(r) == TotalCount(cls) + 1
      && |cls| <= |r| <= |cls| + 1 && r != []
  {
    var b := Nearest(x, cls);
    if b != -1 && WithinDist(x, cls[b].centroid, thr) {
      TotalCountUpdate(cls, b, Absorb(cls[b], x));
    } else {
      TotalCountConcat(cls, [Cluster(x, 1, idx)]);
      assert TotalCount([Cluster(x, 1, idx)]) == 1;
    }
  }

  /** The opening indices stay increasing when the new colour's index is beyond all of them. */
  lemma AddColorFirst(cls: seq<Cluster>, x: Rgb, idx: nat, thr: int)
    requires IncreasingFirst(cls) && FirstBelow(cls, idx)
    ensures var r := AddColor(cls, x, idx, thr);
      && IncreasingFirst(r) && FirstBelow(r, idx + 1)
      && (cls != [] ==> r[0].firstIdx == cls[0].firstIdx)
      && (cls == [] ==> r[0].firstIdx == idx)
  {
  }

  lemma AddColorRange(cls: seq<Cluster>, x: Rgb, idx: nat, thr: int, lo: Rgb, hi: Rgb)
    requires CentroidsIn(cls, lo, hi) && ChannelsIn(x, lo, hi)
    ensures CentroidsIn(AddColor(cls, x, idx, thr), lo, hi)
  {
    var b := Nearest(x, cls);
    if b != -1 && WithinDist(x, cls[b].centroid, thr) {
      RunningMeanBetween(cls[b].centroid.r, cls[b].count, x.r, lo.r, hi.r);
      RunningMeanBetween(cls[b].centroid.g, cls[b].count, x.g, lo.g, hi.g);
      RunningMeanBetween(cls[b].centroid.b, cls[b].count, x.b, lo.b, hi.b);
    }
  }

  /** What the first pass builds: every colour is counted exactly once, and there are at most
      as many clusters as colours, at least one when there is a colour. */
  lemma {:induction false} OnlineCount(colors: seq<Rgb>, thr: int)
    ensures var cls := Online(colors, thr);
      && Populated(cls) && TotalCount(cls) == |colors|
      && |cls| <= |colors| && (cls == [] <==> colors == [])
  {
    if colors != [] {
      var n := |colors| - 1;
      OnlineCount(colors[..n], thr);
      AddColorCount(Online(colors[..n], thr), colors[n], n, thr);
    }
  }

  /** Each cluster records the index of the colour that opened it; these are distinct, in
      increasing order, and the first is colour 0. */
  lemma {:induction false} OnlineFirst(colors: seq<Rgb>, thr: int)
    ensures var cls := Online(colors, thr);
      && IncreasingFirst(cls) && FirstBelow(cls, |colors|)
      && (colors != [] ==> cls[0].firstIdx == 0)
  {
    if colors != [] {
      var n := |colors| - 1;
      OnlineFirst(colors[..n], thr);
      AddColorFirst(Online(colors[..n], thr), colors[n], n, thr);
    }
  }

  /** When each channel of every colour lies in that channel's range, so does the same
      channel of every centroid. */
  lemma {:induction false} OnlineRange(colors: seq<Rgb>, thr: int, lo: Rgb, hi: Rgb)
    requires ColorsIn(colors, lo, hi)
    ensures CentroidsIn(Online(colors, thr), lo, hi)
  {
    if colors != [] {
      var n := |colors| - 1;
      ColorsInPrefix(colors, n, lo, hi);
      OnlineRange(colors[..n], thr, lo, hi);
      AddColorRange(Online(colors[..n], thr), colors[n], n, thr, lo, hi);
    }
  }

  // ---------------------------------------------------------------- the merge loop

  lemma MergePairCount(cls: seq<Cluster>, i: nat, j: nat)
    requires i < j < |cls| && Populated(cls)
    ensures TotalCount(MergePair(cls, i, j)) == TotalCount(cls)
  {
    var c := Combine(cls[i], cls[j]);
    var m := cls[i := c];
    TotalCountUpdate(cls, i, c);
    TotalCountSplit(m, j);
    TotalCountConcat(m[..j], m[j + 1..]);
  }

  lemma MergePairFirst(cls: seq<Cluster>, i: nat, j: nat, n: nat)
    requires i < j < |cls| && Populated(cls) && IncreasingFirst(cls)
    ensures var r := MergePair(cls, i, j);
      && IncreasingFirst(r) && r[0].firstIdx == cls[0].firstIdx
      && (FirstBelow(cls, n) ==> FirstBelow(r, n))
  {
    var c := Combine(cls[i], cls[j]);
    var m := cls[i := c];
    var r := MergePair(cls, i, j);
    assert c.firstIdx == cls[i].firstIdx;
    forall p, q | 0 <= p < q < |r|
      ensures r[p].firstIdx < r[q].firstIdx
    {
      var p' := if p < j then p else p + 1;
      var q' := if q < j then q else q + 1;
      assert r[p] == m[p'] && r[q] == m[q'] && p' < q';
    }
    if FirstBelow(cls, n) {
      forall k | 0 <= k < |r|
        ensures r[k].firstIdx < n
      {
        var k' := if k < j then k else k + 1;
        assert r[k] == m[k'];
      }
    }
  }

  lemma MergePairRange(cls: seq<Cluster>, i: nat, j: nat, lo: Rgb, hi: Rgb)
    requires i < j < |cls| && Populated(cls) && CentroidsIn(cls, lo, hi)
    ensures CentroidsIn(MergePair(cls, i, j), lo, hi)
  {
    var c := Combine(cls[i], cls[j]);
    var m := cls[i := c];
    var r := MergePair(cls, i, j);
    WeightedMeanBetween(cls[i].centroid.r, cls[i].count, cls[j].centroid.r, cls[j].count, lo.r, hi.r);
    WeightedMeanBetween(cls[i].centroid.g, cls[i].count, cls[j].centroid.g, cls[j].count, lo.g, hi.g);
    WeightedMeanBetween(cls[i].centroid.b, cls[i].count, cls[j].centroid.b, cls[j].count, lo.b, hi.b);
    forall k | 0 <= k < |r|
      ensures ChannelsIn(r[k].centroid, lo, hi)
    {
      var k' := if k < j then k else k + 1;
      assert r[k] == m[k'];
    }
  }

  /** Merging a pair keeps the number of colours, the order of the opening indices and the
      first cluster's opening index. */
  lemma MergePairShape(cls: seq<Cluster>, i: nat, j: nat, n: nat)
    requires i < j < |cls| && Populated(cls)
    ensures var r := MergePair(cls, i, j);
      && TotalCount(r) == TotalCount(cls)
      && (IncreasingFirst(cls) ==> IncreasingFirst(r) && r[0].firstIdx == cls[0].firstIdx)
      && (IncreasingFirst(cls) && FirstBelow(cls, n) ==> FirstBelow(r, n))
  {
    MergePairCount(cls, i, j);
    if IncreasingFirst(cls) {
      MergePairFirst(cls, i, j, n);
    }
  }

  /** After the merge loop there are at most maxClusters clusters and never more than before;
      none are left only when there were none; the other facts of the first pass carry over. */
  lemma {:induction false} CapShape(cls: seq<Cluster>, maxClusters: nat, n: nat)
    requires maxClusters >= 1 && Populated(cls)
    ensures var r := Cap(cls, maxClusters);
      && |r| <= maxClusters && |r| <= |cls| && (r == [] <==> cls == [])
      && (|cls| <= maxClusters ==> r == cls)
      && TotalCount(r) == TotalCount(cls)
      && (IncreasingFirst(cls) ==> IncreasingFirst(r) && (r != [] ==> r[0].firstIdx == cls[0].firstIdx))
      && (IncreasingFirst(cls) && FirstBelow(cls, n) ==> FirstBelow(r, n))
    decreases |cls|
  {
    if |cls| > maxClusters {
      var pr := ClosestPair(cls);
      MergePairShape(cls, pr.0, pr.1, n);
      CapShape(MergePair(cls, pr.0, pr.1), maxClusters, n);
    }
  }

  lemma {:induction false} CapRange(cls: seq<Cluster>, maxClusters: nat, lo: Rgb, hi: Rgb)
    requires maxClusters >= 1 && Populated(cls) && CentroidsIn(cls, lo, hi)
    ensures CentroidsIn(Cap(cls, maxClusters), lo, hi)
    decreases |cls|
  {
    if |cls| > maxClusters {
      var pr := ClosestPair(cls);
      MergePairRange(cls, pr.0, pr.1, lo, hi);
      CapRange(MergePair(cls, pr.0, pr.1), maxClusters, lo, hi);
    }
  }

  // ---------------------------------------------------------------- the whole clustering

  lemma IncreasingIsSorted(cls: seq<Cluster>)
    requires IncreasingFirst(cls)
    ensures SortedBy(cls, FirstIdx)
  {
    forall i, j | 0 <= i < j < |cls|
      ensures FirstIdx(cls[i]) <= FirstIdx(cls[j])
    {
    }
  }

  /** The clusters `cluster_colors` returns: at most maxClusters of them, and no more than the
      colours; none only for no colours; together they hold every colour exactly once; the
      final sort by first appearance changes nothing, because the opening indices are already
      increasing; the first cluster is the one colour 0 opened. */
  lemma ClusteringShape(colors: seq<Rgb>, thr: int, maxClusters: nat)
    requires maxClusters >= 1
    ensures var r := Clustering(colors, thr, maxClusters);
      && r == Cap(Online(colors, thr), maxClusters)
      && |r| <= maxClusters && |r| <= |colors| && (r == [] <==> colors == [])
      && TotalCount(r) == |colors|
      && IncreasingFirst(r) && FirstBelow(r, |colors|)
      && (colors != [] ==> r[0].firstIdx == 0)
  {
    var o := Online(colors, thr);
    OnlineCount(colors, thr);
    OnlineFirst(colors, thr);
    CapShape(o, maxClusters, |colors|);
    var c := Cap(o, maxClusters);
    IncreasingIsSorted(c);
    SortBySortedIsIdentity(c, FirstIdx);
  }

  /** Each centroid channel stays within the range of that channel over the input colours. */
  lemma ClusteringRange(colors: seq<Rgb>, thr: int, maxClusters: nat, lo: Rgb, hi: Rgb)
    requires maxClusters >= 1 && ColorsIn(colors, lo, hi)
    ensures CentroidsIn(Clustering(colors, thr, maxClusters), lo, hi)
  {
    ClusteringShape(colors, thr, maxClusters);
    OnlineRange(colors, thr, lo, hi);
    CapRange(Online(colors, thr), maxClusters, lo, hi);
  }

  /** With at most maxClusters colours nothing is merged: the clusters are those of the first
      pass. */
  lemma ClusteringWithoutMerge(colors: seq<Rgb>, thr: int, maxClusters: nat)
    requires maxClusters >= 1 && |colors| <= maxClusters
    ensures Clustering(colors, thr, maxClusters) == Online(colors, thr)
  {
    OnlineCount(colors, thr);
    ClusteringShape(colors, thr, maxClusters);
    CapShape(Online(colors, thr), maxClusters, |colors|);
  }

  // ---------------------------------------------------------------- letters

  /** No clusters gives 'A'; a nearest cluster at index 26 or beyond gives 'Z'; otherwise the
      letter at the nearest cluster's index; either way an upper-case letter. */
  lemma LetterForCases(x: Rgb, cls: seq<Cluster>)
    ensures cls == [] ==> LetterFor(x, cls) == 'A'
    ensures cls != [] && Nearest(x, cls) >= |Letters| ==> LetterFor(x, cls) == 'Z'
    ensures cls != [] && Nearest(x, cls) < |Letters| ==> LetterFor(x, cls) == Letters[Nearest(x, cls)]
    ensures 'A' <= LetterFor(x, cls) <= 'Z'
  {
  }

  /** Distinct clusters among the first 26 get distinct letters. */
  lemma LettersDistinct(i: nat, j: nat)
    requires i < j < |Letters|
    ensures Letter(i) != Letter(j)
  {
  }

  // ---------------------------------------------------------------- the loops

  /** The inner loop of src/imageloader.py:211-218: the index of the nearest cluster, -1 for
      none. */
  method NearestCluster(x: Rgb, cls: seq<Cluster>) returns (bestI: int)
    ensures bestI == Nearest(x, cls)
  {
    bestI := -1;
    var bestD := 0;
    for i := 0 to |cls|
      invariant bestI == NearestIn(x, cls, i)
      invariant bestI != -1 ==> bestD == CentroidDist(x, cls, bestI)
    {
      var d := Dist2(x, cls[i].centroid);
      if bestI == -1 || d < bestD {
        bestD := d;
        bestI := i;
      }
    }
  }

  /** The inner loop of src/imageloader.py:239-243 for one i: compares (i, j) for every
      j > i. */
  method ScanPartners(cls: seq<Cluster>, i: nat, best: Option<(nat, nat)>, bestD: nat)
    returns (best': Option<(nat, nat)>, bestD': nat)
    requires i < |cls| && best == PairsBefore(cls, i, i + 1)
    requires best.Some? ==> bestD == PairDist(cls, best.value.0, best.value.1)
    ensures best' == PairsBefore(cls, i, |cls|)
    ensures best'.Some? ==> bestD' == PairDist(cls, best'.value.0, best'.value.1)
  {
    best', bestD' := best, bestD;
    for j := i + 1 to |cls|
      invariant best' == PairsBefore(cls, i, j)
      invariant best'.Some? ==> bestD' == PairDist(cls, best'.value.0, best'.value.1)
    {
      ghost var prev := best';
      var d := Dist2(cls[i].centroid, cls[j].centroid);
      if best'.None? || d < bestD' {
        bestD' := d;
        best' := Some((i, j));
      }
      assert best' == Closer(cls, prev, i, j);
      assert PairsBefore(cls, i, j + 1) == Closer(cls, PairsBefore(cls, i, j), i, j);
    }
  }

  /** The nested loops of src/imageloader.py:235-245: the closest pair. */
  method FindClosestPair(cls: seq<Cluster>) returns (i: nat, j: nat)
    requires |cls| >= 2
    ensures (i, j) == ClosestPair(cls)
  {
    var best: Option<(nat, nat)> := None;
    var bestD := 0;
    for k := 0 to |cls|
      invariant k == 0 ==> best.None?
      invariant k > 0 ==> best == PairsBefore(cls, k - 1, |cls|)
      invariant best.Some? ==> bestD == PairDist(cls, best.value.0, best.value.1)
    {
      best, bestD := ScanPartners(cls, k, best, bestD);
    }
    i, j := best.value.0, best.value.1;
  }

  /** The first pass, src/imageloader.py:210-231. */
  method FirstPass(colors: seq<Rgb>, mergeThr: int) returns (clusters: seq<Cluster>)
    ensures clusters == Online(colors, mergeThr)
  {
    clusters := [];
    for idx := 0 to |colors|
      invariant clusters == Online(colors[..idx], mergeThr)
    {
      assert colors[..idx + 1][..idx] == colors[..idx];
      var rgb := colors[idx];
      var b := NearestCluster(rgb, clusters);
      if b != -1 && WithinDist(rgb, clusters[b].centroid, mergeThr) {
        var cl := clusters[b];
        var c := cl.count;
        var nr := TruncDiv(cl.centroid.r * c + rgb.r, c + 1);
        var ng := TruncDiv(cl.centroid.g * c + rgb.g, c + 1);
        var nb := TruncDiv(cl.centroid.b * c + rgb.b, c + 1);
        clusters := clusters[b := Cluster(Rgb(nr, ng, nb), c + 1, cl.firstIdx)];
      } else {
        clusters := clusters + [Cluster(rgb, 1, idx)];
      }
    }
    assert colors[..|colors|] == colors;
  }

  /** One round of the merge loop, src/imageloader.py:235-261. */
  method MergeClosest(cls: seq<Cluster>) returns (merged: seq<Cluster>)
    requires |cls| >= 2 && Populated(cls)
    ensures var pr := ClosestPair(cls); merged == MergePair(cls, pr.0, pr.1)
  {
    var i, j := FindClosestPair(cls);
    var a, b := cls[i], cls[j];
    var ca, cb := a.count, b.count;
    var nr := TruncDiv(a.centroid.r * ca + b.centroid.r * cb, ca + cb);
    var ng := TruncDiv(a.centroid.g * ca + b.centroid.g * cb, ca + cb);
    var nb := TruncDiv(a.centroid.b * ca + b.centroid.b * cb, ca + cb);
    merged := cls[i := Cluster(Rgb(nr, ng, nb), ca + cb, Min(a.firstIdx, b.firstIdx))];
    merged := merged[..j] + merged[j + 1..];
  }

  /** `cluster_colors(colors, merge_thr, max_clusters)` (src/imageloader.py:201-265). */
  method ClusterColors(colors: seq<Rgb>, mergeThr: int, maxClusters: nat) returns (clusters: seq<Cluster>)
    requires maxClusters >= 1
    ensures clusters == Clustering(colors, mergeThr, maxClusters)
    ensures |clusters| <= maxClusters && TotalCount(clusters) == |colors|
  {
    ClusteringShape(colors, mergeThr, maxClusters);
    clusters := FirstPass(colors, mergeThr);
    while |clusters| > maxClusters
      invariant Populated(clusters)
      invariant Cap(clusters, maxClusters) == Cap(Online(colors, mergeThr), maxClusters)
      decreases |clusters|
    {
      clusters := MergeClosest(clusters);
    }
    clusters := SortBy(clusters, FirstIdx);
  }

  /** `assign_letter(rgb, clusters)` (src/imageloader.py:268-277). */
  method AssignLetter(x: Rgb, cls: seq<Cluster>) returns (ch: char)
    ensures ch == LetterFor(x, cls)
  {
    var bestI := 0;
    var bestD := 0;
    for i := 0 to |cls|
      invariant i > 0 ==> bestI == NearestIn(x, cls, i) && bestD == CentroidDist(x, cls, bestI)
      invariant i == 0 ==> bestI == 0
    {
      var d := Dist2(x, cls[i].centroid);
      if i == 0 || d < bestD {
        bestD := d;
        bestI := i;
      }
    }
    ch := if bestI < |Letters| then Letters[bestI] else 'Z';
  }
}
