/** `detect_grid_lines` (src/imageloader.py:121-167): tries four darkness thresholds and four
    minimum line lengths, and keeps the pair of gridline lists with the best score. */
module GridDetect {
  import opened Common
  import opened Sorting
  import opened Picture
  import opened LineMerge
  import opened Periodic

  /** `dark_thrs`; the four `ratios` are applied through `Scaling.lengthThr`. */
  const DarkThrs: seq<int> := [120, 140, 170, 200]

  /** One try of the loops: a darkness threshold and the number of a length ratio. */
  datatype Config = Config(darkThr: int, ratio: nat)

  /** `dark.sum(axis=0)`: dark pixels per column. */
  function ColSums(img: Image, thr: int): (sums: seq<int>)
    ensures |sums| == Width(img)
    ensures forall c :: 0 <= c < |sums| ==> sums[c] == ColDark(img, c, thr)
    ensures forall c :: 0 <= c < |sums| ==> 0 <= sums[c] <= |img|
  {
    seq(Width(img), c requires 0 <= c < Width(img) => ColDark(img, c, thr))
  }

  /** `dark.sum(axis=1)`: dark pixels per row. */
  function RowSums(img: Image, thr: int): (sums: seq<int>)
    ensures |sums| == |img|
    ensures forall r :: 0 <= r < |sums| ==> sums[r] == RowDark(img, r, thr)
    ensures forall r :: 0 <= r < |sums| ==> 0 <= sums[r] <= |img[r]|
    ensures IsImage(img) ==> forall r :: 0 <= r < |sums| ==> sums[r] <= Width(img)
  {
    seq(|img|, r requires 0 <= r < |img| => RowDark(img, r, thr))
  }

  /** `np.where(sums >= thr)[0].tolist()`: the indices reaching the threshold, in order. */
  function Candidates(sums: seq<int>, thr: int): (idx: seq<int>)
    ensures forall i :: i in idx <==> 0 <= i < |sums| && sums[i] >= thr
    ensures StrictlyIncreasing(idx)
  {
    if sums == [] then []
    else
      var n := |sums| - 1;
      var prefix := Candidates(sums[..n], thr);
      assert forall i :: i in prefix ==> i < n;
      assert forall i :: 0 <= i < n ==> sums[..n][i] == sums[i];
      var idx := prefix + (if sums[n] >= thr then [n] else []);
      assert forall i, j :: 0 <= i < j < |idx| ==> idx[i] < idx[j] by {
        forall i, j | 0 <= i < j < |idx|
          ensures idx[i] < idx[j]
        {
          if j >= |prefix| {
            assert idx[i] in prefix;
          }
        }
      }
      idx
  }

  /** `min(len(xs), len(ys)) * 10 - abs(len(xs) - len(ys)) * 3`: more lines and a better
      balance between the two axes score higher. */
  function Score(xs: seq<int>, ys: seq<int>): int
  {
    Min(|xs|, |ys|) * 10 - Abs(|xs| - |ys|) * 3
  }

  /** The merged candidate lines of one configuration, before the periodic filter. */
  function MergedCandidates(img: Image, sc: Scaling, cfg: Config): (seq<int>, seq<int>)
  {
    var h, w := |img|, Width(img);
    var colThr := Max(4, sc.lengthThr(h, cfg.ratio));
    var rowThr := Max(4, sc.lengthThr(w, cfg.ratio));
    (MergedPositions(Candidates(ColSums(img, cfg.darkThr), colThr), Max(2, w / 300)),
     MergedPositions(Candidates(RowSums(img, cfg.darkThr), rowThr), Max(2, h / 300)))
  }

  /** The lines a configuration offers, or None when it finds fewer than four lines on
      either axis (the `continue` at src/imageloader.py:153-154). */
  function ConfigLines(img: Image, sc: Scaling, cfg: Config): Option<(seq<int>, seq<int>)>
  {
    var m := MergedCandidates(img, sc, cfg);
    if |m.0| < 4 || |m.1| < 4 then None
    else Some((PeriodicLines(m.0, sc), PeriodicLines(m.1, sc)))
  }

  /** What the configurations before (ti, ri) offer, in the order the loops try them:
      dark threshold number ti outer, ratio number ri inner; `offer` is what one
      configuration yields. */
  function OffersBefore(offer: Config -> Option<(seq<int>, seq<int>)>, ti: nat, ri: nat): (offers: seq<Option<(seq<int>, seq<int>)>>)
    requires ri <= 4 && (ti < |DarkThrs| || (ti == |DarkThrs| && ri == 0))
    ensures |offers| == 4 * ti + ri
    decreases ti, ri
  {
    if ri > 0 then OffersBefore(offer, ti, ri - 1) + [offer(Config(DarkThrs[ti], ri - 1))]
    else if ti > 0 then OffersBefore(offer, ti - 1, 4)
    else []
  }

  /** Entry 4 * t + r is what dark threshold number t with ratio number r yields. */
  lemma {:induction false} OfferAt(offer: Config -> Option<(seq<int>, seq<int>)>, ti: nat, ri: nat, t: nat, r: nat)
    requires ri <= 4 && (ti < |DarkThrs| || (ti == |DarkThrs| && ri == 0))
    requires t < |DarkThrs| && r < 4 && 4 * t + r < 4 * ti + ri
    ensures OffersBefore(offer, ti, ri)[4 * t + r] == offer(Config(DarkThrs[t], r))
    decreases ti, ri
  {
    if ri > 0 {
      if 4 * t + r < 4 * ti + ri - 1 {
        OfferAt(offer, ti, ri - 1, t, r);
      }
    } else if ti > 0 {
      OfferAt(offer, ti - 1, 4, t, r);
    }
  }

  /** What all sixteen configurations offer on this picture. */
  function AllOffers(img: Image, sc: Scaling): (offers: seq<Option<(seq<int>, seq<int>)>>)
    ensures |offers| == 16
  {
    OffersBefore(cfg => ConfigLines(img, sc, cfg), |DarkThrs|, 0)
  }

  /** The pair the loops keep after trying the given offers: an offer replaces the pair kept
      so far only with a strictly higher score. */
  function ChooseAmong(offers: seq<Option<(seq<int>, seq<int>)>>): (seq<int>, seq<int>)
  {
    if offers == [] then ([], [])
    else
      var best := ChooseAmong(offers[..|offers| - 1]);
      match offers[|offers| - 1]
      case None => best
      case Some(p) => if Score(p.0, p.1) > Score(best.0, best.1) then p else best
  }

  /** The value `detect_grid_lines(img_arr)` returns. */
  function GridLines(img: Image, sc: Scaling): (seq<int>, seq<int>)
    requires IsImage(img)
  {
    ChooseAmong(AllOffers(img, sc))
  }

  function OfferScore(o: Option<(seq<int>, seq<int>)>): int
  {
    if o.Some? then Score(o.value.0, o.value.1) else 0
  }

  /** r is what offer b holds (b = -1: nothing, r = ([], [])); no offer scores higher, and
      every offer before b scores strictly lower. */
  predicate IsChosen(offers: seq<Option<(seq<int>, seq<int>)>>, r: (seq<int>, seq<int>), b: int)
  {
    && ((b == -1 && r == ([], [])) || (0 <= b < |offers| && offers[b] == Some(r) && Score(r.0, r.1) > 0))
    && (forall k :: 0 <= k < |offers| ==> OfferScore(offers[k]) <= Score(r.0, r.1))
    && (forall k :: 0 <= k < b && offers[k].Some? ==> OfferScore(offers[k]) < Score(r.0, r.1))
  }

  lemma {:induction false} ChooseFindsBest(offers: seq<Option<(seq<int>, seq<int>)>>) returns (b: int)
    ensures IsChosen(offers, ChooseAmong(offers), b)
  {
    if offers == [] {
      b := -1;
    } else {
      var n := |offers|;
      var front := offers[..n - 1];
      var b' := ChooseFindsBest(front);
      var best := ChooseAmong(front);
      assert forall k :: 0 <= k < n - 1 ==> offers[k] == front[k];
      match offers[n - 1]
      case None =>
        b := b';
        assert ChooseAmong(offers) == best;
      case Some(p) =>
        if Score(p.0, p.1) > Score(best.0, best.1) {
          b := n - 1;
          assert ChooseAmong(offers) == p;
        } else {
          b := b';
          assert ChooseAmong(offers) == best;
        }
    }
  }

  /** The detected pair is either ([], []), when no configuration scores above zero, or the
      lines of the first configuration reaching the highest score. */
  lemma GridLinesChosen(img: Image, sc: Scaling) returns (b: int)
    requires IsImage(img)
    ensures IsChosen(AllOffers(img, sc), GridLines(img, sc), b)
  {
    b := ChooseFindsBest(AllOffers(img, sc));
  }

  /** ([], []) comes back exactly when no configuration scores above zero. */
  lemma GridLinesEmpty(img: Image, sc: Scaling)
    requires IsImage(img)
    ensures GridLines(img, sc) == ([], []) <==>
      forall k :: 0 <= k < |AllOffers(img, sc)| ==> OfferScore(AllOffers(img, sc)[k]) <= 0
  {
    var b := GridLinesChosen(img, sc);
  }

  /** Offer 4 * t + r is the one of dark threshold number t with ratio number r. */
  lemma AllOffersAt(img: Image, sc: Scaling, t: nat, r: nat)
    requires t < |DarkThrs| && r < 4
    ensures AllOffers(img, sc)[4 * t + r] == ConfigLines(img, sc, Config(DarkThrs[t], r))
  {
    OfferAt(cfg => ConfigLines(img, sc, cfg), |DarkThrs|, 0, t, r);
  }

  lemma ChooseAmongStep(offers: seq<Option<(seq<int>, seq<int>)>>, o: Option<(seq<int>, seq<int>)>)
    ensures ChooseAmong(offers + [o]) ==
      var best := ChooseAmong(offers);
      if o.Some? && Score(o.value.0, o.value.1) > Score(best.0, best.1) then o.value else best
  {
    assert (offers + [o])[..|offers|] == offers;
  }

  /** One pass of the inner loop (src/imageloader.py:143-158): the lines a configuration
      offers, from the dark sums of its threshold. */
  method TryConfig(img: Image, sc: Scaling, cfg: Config, colSum: seq<int>, rowSum: seq<int>)
    returns (offer: Option<(seq<int>, seq<int>)>)
    requires IsImage(img)
    requires colSum == ColSums(img, cfg.darkThr) && rowSum == RowSums(img, cfg.darkThr)
    ensures offer == ConfigLines(img, sc, cfg)
  {
    var h, w := |img|, Width(img);
    var colThr := Max(4, sc.lengthThr(h, cfg.ratio));
    var rowThr := Max(4, sc.lengthThr(w, cfg.ratio));
    var xs := MergePositions(Candidates(colSum, colThr), Max(2, w / 300));
    var ys := MergePositions(Candidates(rowSum, rowThr), Max(2, h / 300));
    assert (xs, ys) == MergedCandidates(img, sc, cfg);
    if |xs| < 4 || |ys| < 4 {
      return None;
    }
    var xs2 := PickBestPeriodicLines(xs, sc);
    var ys2 := PickBestPeriodicLines(ys, sc);
    offer := Some((xs2, ys2));
  }

  /** One pass of the outer loop (src/imageloader.py:137-165): the four length ratios for
      dark threshold number ti. */
  method TryThreshold(img: Image, sc: Scaling, ti: nat, xs: seq<int>, ys: seq<int>)
    returns (bestXs: seq<int>, bestYs: seq<int>)
    requires IsImage(img) && ti < |DarkThrs|
    requires (xs, ys) == ChooseAmong(OffersBefore(cfg => ConfigLines(img, sc, cfg), ti, 0))
    ensures (bestXs, bestYs) == ChooseAmong(OffersBefore(cfg => ConfigLines(img, sc, cfg), ti + 1, 0))
  {
    ghost var offerOf := cfg => ConfigLines(img, sc, cfg);
    bestXs, bestYs := xs, ys;
    var darkThr := DarkThrs[ti];
    var colSum := ColSums(img, darkThr);
    var rowSum := RowSums(img, darkThr);
    var ri := 0;
    while ri < 4
      invariant 0 <= ri <= 4
      invariant (bestXs, bestYs) == ChooseAmong(OffersBefore(offerOf, ti, ri))
    {
      var offer := TryConfig(img, sc, Config(darkThr, ri), colSum, rowSum);
      ChooseAmongStep(OffersBefore(offerOf, ti, ri), offer);
      if offer.Some? {
        var (xs2, ys2) := offer.value;
        if Score(xs2, ys2) > Score(bestXs, bestYs) {
          bestXs, bestYs := xs2, ys2;
        }
      }
      ri := ri + 1;
    }
  }

  /** The loops of src/imageloader.py:127-167. */
  method DetectGridLines(img: Image, sc: Scaling) returns (bestXs: seq<int>, bestYs: seq<int>)
    requires IsImage(img)
    ensures (bestXs, bestYs) == GridLines(img, sc)
  {
    bestXs, bestYs := [], [];
    var ti := 0;
    while ti < |DarkThrs|
      invariant 0 <= ti <= |DarkThrs|
      invariant (bestXs, bestYs) == ChooseAmong(OffersBefore(cfg => ConfigLines(img, sc, cfg), ti, 0))
    {
      bestXs, bestYs := TryThreshold(img, sc, ti, bestXs, bestYs);
      ti := ti + 1;
    }
  }
}
