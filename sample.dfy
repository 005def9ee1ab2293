/** `sample_cell_color` (src/imageloader.py:171-198): the colour of one board cell, as the
    channel-wise median of the middle of the cell, with gridline pixels and highlights left out. */
module CellSample {
  import opened Common
  import opened Sorting
  import opened Picture

  /** Where a Python slice bound i lands in a sequence of length n: a negative bound counts
      from the end, and the result is clamped to 0..n. */
  function SliceBound(i: int, n: nat): (b: nat)
    ensures b <= n
    ensures 0 <= i <= n ==> b == i
  {
    if i < 0 then (if i + n < 0 then 0 else i + n)
    else if i > n then n
    else i
  }

  /** Python's `s[a:b]`. */
  function PySlice<T>(s: seq<T>, a: int, b: int): (r: seq<T>)
    ensures |r| <= |s|
    ensures forall x :: x in r ==> x in s
  {
    var lo, hi := SliceBound(a, |s|), SliceBound(b, |s|);
    if lo < hi then s[lo..hi] else []
  }

  function Flatten(rows: seq<seq<Rgb>>): (ps: seq<Rgb>)
  {
    if rows == [] then [] else Flatten(rows[..|rows| - 1]) + rows[|rows| - 1]
  }

  /** Rows y1..y2 and columns x1..x2 of the picture, flattened row by row:
      `img_arr[y1:y2, x1:x2, :].reshape(-1, 3)`. */
  function Patch(img: Image, x1: int, x2: int, y1: int, y2: int): seq<Rgb>
  {
    var rows := PySlice(img, y1, y2);
    Flatten(seq(|rows|, i requires 0 <= i < |rows| => PySlice(rows[i], x1, x2)))
  }

  /** Gridline and crown pixels: all three channels below 80. */
  const PatchDarkThr := 80

  /** Highlights: all three channels above 245. */
  predicate NearWhite(p: Rgb)
  {
    p.r > 245 && p.g > 245 && p.b > 245
  }

  /** `patch[keep]` with `keep = ~dark`. */
  function DropDark(ps: seq<Rgb>): (r: seq<Rgb>)
    ensures forall p :: p in r <==> p in ps && !IsDark(p, PatchDarkThr)
  {
    if ps == [] then []
    else
      var n := |ps| - 1;
      assert ps == ps[..n] + [ps[n]];
      DropDark(ps[..n]) + (if IsDark(ps[n], PatchDarkThr) then [] else [ps[n]])
  }

  /** `patch2[keep2]` with `keep2 = ~near_white`. */
  function DropWhite(ps: seq<Rgb>): (r: seq<Rgb>)
    ensures forall p :: p in r <==> p in ps && !NearWhite(p)
  {
    if ps == [] then []
    else
      var n := |ps| - 1;
      assert ps == ps[..n] + [ps[n]];
      DropWhite(ps[..n]) + (if NearWhite(ps[n]) then [] else [ps[n]])
  }

  /** The pixels left after both filters (src/imageloader.py:186-192); the highlight filter
      runs only on a non-empty list. */
  function Survivors(patch: seq<Rgb>): seq<Rgb>
  {
    var light := DropDark(patch);
    if |light| > 0 then DropWhite(light) else light
  }

  /** The pixels the median is taken over: the survivors when there are at least ten of them,
      otherwise the whole patch (src/imageloader.py:194-195). */
  function Chosen(patch: seq<Rgb>): seq<Rgb>
  {
    if |Survivors(patch)| < 10 then patch else Survivors(patch)
  }

  function Reds(ps: seq<Rgb>): (r: seq<int>)
    ensures |r| == |ps| && forall i :: 0 <= i < |ps| ==> r[i] == ps[i].r
  {
    seq(|ps|, i requires 0 <= i < |ps| => ps[i].r)
  }

  function Greens(ps: seq<Rgb>): (r: seq<int>)
    ensures |r| == |ps| && forall i :: 0 <= i < |ps| ==> r[i] == ps[i].g
  {
    seq(|ps|, i requires 0 <= i < |ps| => ps[i].g)
  }

  function Blues(ps: seq<Rgb>): (r: seq<int>)
    ensures |r| == |ps| && forall i :: 0 <= i < |ps| ==> r[i] == ps[i].b
  {
    seq(|ps|, i requires 0 <= i < |ps| => ps[i].b)
  }

  /** `np.median(patch2, axis=0)` followed by `int(...)` on each channel. */
  function MedianColor(ps: seq<Rgb>): Rgb
    requires |ps| > 0
  {
    Rgb(Median(Reds(ps)), Median(Greens(ps)), Median(Blues(ps)))
  }

  /** The colour of a patch: light grey (200, 200, 200) for an empty one. */
  function PatchColor(patch: seq<Rgb>): Rgb
  {
    if patch == [] then Rgb(200, 200, 200) else MedianColor(Chosen(patch))
  }

  /** The value `sample_cell_color(img_arr, x1, x2, y1, y2)` returns: the middle 35%..65% of
      the cell on each axis, as `Scaling.inset` computes it. */
  function SampleCellColor(img: Image, x1: int, x2: int, y1: int, y2: int, sc: Scaling): Rgb
  {
    var (cx1, cx2) := sc.inset(x1, x2);
    var (cy1, cy2) := sc.inset(y1, y2);
    PatchColor(Patch(img, cx1, cx2, cy1, cy2))
  }

  /** A survivor is exactly a patch pixel that is neither dark nor a highlight, kept as often
      as the patch holds it. */
  lemma SurvivorsAreFiltered(patch: seq<Rgb>)
    ensures forall p :: p in Survivors(patch) <==> p in patch && !IsDark(p, PatchDarkThr) && !NearWhite(p)
    ensures forall p :: multiset(Survivors(patch))[p] == (if IsDark(p, PatchDarkThr) || NearWhite(p) then 0 else multiset(patch)[p])
  {
    DropDarkCounts(patch);
    DropWhiteCounts(DropDark(patch));
  }

  /** `patch[keep]` keeps every pixel that is not dark as often as the patch holds it, and
      no dark pixel. */
  lemma {:induction false} DropDarkCounts(ps: seq<Rgb>)
    ensures forall p :: multiset(DropDark(ps))[p] == (if IsDark(p, PatchDarkThr) then 0 else multiset(ps)[p])
  {
    if ps != [] {
      var n := |ps| - 1;
      DropDarkCounts(ps[..n]);
      assert ps == ps[..n] + [ps[n]];
    }
  }

  lemma {:induction false} DropWhiteCounts(ps: seq<Rgb>)
    ensures forall p :: multiset(DropWhite(ps))[p] == (if NearWhite(p) then 0 else multiset(ps)[p])
  {
    if ps != [] {
      var n := |ps| - 1;
      DropWhiteCounts(ps[..n]);
      assert ps == ps[..n] + [ps[n]];
    }
  }

  /** Each filter keeps the order of the patch: filtering a concatenation filters each part.
      With the one-pixel case this fixes the filtered list completely. */
  lemma {:induction false} DropDarkConcat(a: seq<Rgb>, b: seq<Rgb>)
    ensures DropDark(a + b) == DropDark(a) + DropDark(b)
    decreases |b|
  {
    if b == [] {
      assert a + b == a;
    } else {
      var n := |b| - 1;
      var c, x := b[..n], b[n];
      assert b == c + [x];
      assert a + b == (a + c) + [x];
      DropDarkConcat(a, c);
      DropDarkSnoc(a + c, x);
      DropDarkSnoc(c, x);
    }
  }

  lemma DropDarkSnoc(ps: seq<Rgb>, x: Rgb)
    ensures DropDark(ps + [x]) == DropDark(ps) + (if IsDark(x, PatchDarkThr) then [] else [x])
  {
    assert (ps + [x])[..|ps|] == ps;
  }

  lemma {:induction false} DropWhiteConcat(a: seq<Rgb>, b: seq<Rgb>)
    ensures DropWhite(a + b) == DropWhite(a) + DropWhite(b)
    decreases |b|
  {
    if b == [] {
      assert a + b == a;
    } else {
      var n := |b| - 1;
      var c, x := b[..n], b[n];
      assert b == c + [x];
      assert a + b == (a + c) + [x];
      DropWhiteConcat(a, c);
      DropWhiteSnoc(a + c, x);
      DropWhiteSnoc(c, x);
    }
  }

  lemma DropWhiteSnoc(ps: seq<Rgb>, x: Rgb)
    ensures DropWhite(ps + [x]) == DropWhite(ps) + (if NearWhite(x) then [] else [x])
  {
    assert (ps + [x])[..|ps|] == ps;
  }

  /** Skipping the highlight filter on an empty list changes nothing. */
  lemma SurvivorsBothFilters(patch: seq<Rgb>)
    ensures Survivors(patch) == DropWhite(DropDark(patch))
  {
  }

  /** The survivors of a concatenation are the survivors of each part, in order; a single
      pixel survives alone exactly when it is neither dark nor a highlight. */
  lemma SurvivorsConcat(a: seq<Rgb>, b: seq<Rgb>)
    ensures Survivors(a + b) == Survivors(a) + Survivors(b)
    ensures forall p :: Survivors([p]) == if IsDark(p, PatchDarkThr) || NearWhite(p) then [] else [p]
  {
    SurvivorsBothFilters(a + b);
    SurvivorsBothFilters(a);
    SurvivorsBothFilters(b);
    DropDarkConcat(a, b);
    DropWhiteConcat(DropDark(a), DropDark(b));
    forall p
      ensures Survivors([p]) == if IsDark(p, PatchDarkThr) || NearWhite(p) then [] else [p]
    {
      SurvivorsBothFilters([p]);
      DropDarkSnoc([], p);
      assert [] + [p] == [p];
      var d := DropDark([p]);
      if d != [] {
        DropWhiteSnoc([], p);
      }
    }
  }

  /** The median runs over the survivors when at least ten are left, over the whole patch
      otherwise; the chosen pixels all come from the patch. */
  lemma ChosenPixels(patch: seq<Rgb>)
    ensures |Survivors(patch)| >= 10 ==> Chosen(patch) == Survivors(patch)
    ensures |Survivors(patch)| < 10 ==> Chosen(patch) == patch
    ensures forall p :: p in Chosen(patch) ==> p in patch
    ensures patch != [] ==> |Chosen(patch)| > 0
  {
  }

  /** Each channel of the colour is the middle of that channel's sorted values over the chosen
      pixels (the truncated mean of the two middle values for an even count): at least half of
      them lie at or below it, and at least half at or above it. */
  lemma PatchColorIsMedian(patch: seq<Rgb>)
    requires patch != []
    ensures var c, ch := PatchColor(patch), Chosen(patch);
      && c.r == Middle(Sort(Reds(ch))) && c.g == Middle(Sort(Greens(ch))) && c.b == Middle(Sort(Blues(ch)))
    ensures var c, ch := PatchColor(patch), Chosen(patch);
      && CountAtMost(Reds(ch), c.r) >= (|ch| + 1) / 2 && CountAtLeast(Reds(ch), c.r) >= (|ch| + 1) / 2
      && CountAtMost(Greens(ch), c.g) >= (|ch| + 1) / 2 && CountAtLeast(Greens(ch), c.g) >= (|ch| + 1) / 2
      && CountAtMost(Blues(ch), c.b) >= (|ch| + 1) / 2 && CountAtLeast(Blues(ch), c.b) >= (|ch| + 1) / 2
  {
    ChosenPixels(patch);
  }

  lemma {:induction false} FlattenMembers(rows: seq<seq<Rgb>>)
    ensures forall p :: p in Flatten(rows) ==> exists i :: 0 <= i < |rows| && p in rows[i]
  {
    if rows != [] {
      var n := |rows| - 1;
      FlattenMembers(rows[..n]);
      forall p | p in Flatten(rows)
        ensures exists i :: 0 <= i < |rows| && p in rows[i]
      {
        if p in Flatten(rows[..n]) {
          var i :| 0 <= i < n && p in rows[..n][i];
          assert p in rows[i];
        } else {
          assert p in rows[n];
        }
      }
    }
  }

  /** Every pixel of a patch is a pixel of the picture. */
  lemma PatchMembers(img: Image, x1: int, x2: int, y1: int, y2: int)
    ensures forall p :: p in Patch(img, x1, x2, y1, y2) ==>
      exists i, j :: 0 <= i < |img| && 0 <= j < |img[i]| && img[i][j] == p
  {
    var rows := PySlice(img, y1, y2);
    var cut := seq(|rows|, i requires 0 <= i < |rows| => PySlice(rows[i], x1, x2));
    FlattenMembers(cut);
    forall p | p in Patch(img, x1, x2, y1, y2)
      ensures exists i, j :: 0 <= i < |img| && 0 <= j < |img[i]| && img[i][j] == p
    {
      var k :| 0 <= k < |cut| && p in cut[k];
      assert p in rows[k];
      assert rows[k] in img;
      var i :| 0 <= i < |img| && img[i] == rows[k];
      var j :| 0 <= j < |img[i]| && img[i][j] == p;
    }
  }

  lemma ChannelsInByte(ps: seq<Rgb>)
    requires |ps| > 0 && forall p :: p in ps ==> IsByteColor(p)
    ensures IsByteColor(MedianColor(ps))
  {
    assert forall i :: 0 <= i < |ps| ==> IsByteColor(ps[i]) by {
      forall i | 0 <= i < |ps|
        ensures IsByteColor(ps[i])
      {
        assert ps[i] in ps;
      }
    }
    MedianInRange(Reds(ps), 0, 255);
    MedianInRange(Greens(ps), 0, 255);
    MedianInRange(Blues(ps), 0, 255);
  }

  /** On a byte image the sampled colour is again a byte colour. */
  lemma SampleIsByteColor(img: Image, x1: int, x2: int, y1: int, y2: int, sc: Scaling)
    requires IsImage(img)
    ensures IsByteColor(SampleCellColor(img, x1, x2, y1, y2, sc))
  {
    var (cx1, cx2) := sc.inset(x1, x2);
    var (cy1, cy2) := sc.inset(y1, y2);
    var patch := Patch(img, cx1, cx2, cy1, cy2);
    if patch != [] {
      PatchMembers(img, cx1, cx2, cy1, cy2);
      ChosenPixels(patch);
      ChannelsInByte(Chosen(patch));
    }
  }
}
