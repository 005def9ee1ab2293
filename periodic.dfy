/** `pick_best_periodic_lines` with `target_count=None` (src/imageloader.py:34-62, 78):
    among the candidate gridlines of one axis, keep the longest run spaced at the median gap. */
module Periodic {
  import opened Common
  import opened Sorting
  import opened Picture
  import LineMerge

  /** `[lines[i+1] - lines[i] for i in range(len(lines)-1)]`. */
  function Diffs(s: seq<int>): (d: seq<int>)
    requires |s| > 0
    ensures |d| == |s| - 1
    ensures forall i :: 0 <= i < |d| ==> d[i] == s[i + 1] - s[i]
    ensures Sorted(s) ==> forall i :: 0 <= i < |d| ==> d[i] >= 0
    ensures StrictlyIncreasing(s) ==> forall i :: 0 <= i < |d| ==> d[i] > 0
  {
    seq(|s| - 1, i requires 0 <= i < |s| - 1 => s[i + 1] - s[i])
  }

  /** The gaps determine the lines: line k is the first line plus the first k gaps. */
  lemma {:induction false} DiffsRebuild(s: seq<int>, k: nat)
    requires k < |s|
    ensures s[k] == s[0] + LineMerge.Sum(Diffs(s)[..k])
  {
    if k > 0 {
      DiffsRebuild(s, k - 1);
      var d := Diffs(s);
      assert d[..k][..k - 1] == d[..k - 1];
    }
  }

  /** What the inner loop (src/imageloader.py:57-60) accepts from `rest`, starting from the
      last accepted line `last`: each line whose distance from the last accepted one is
      within `tol` of `step`. */
  function Follow(last: int, rest: seq<int>, step: int, tol: int): seq<int>
    decreases |rest|
  {
    if rest == [] then []
    else if Abs((rest[0] - last) - step) <= tol then [rest[0]] + Follow(rest[0], rest[1..], step, tol)
    else Follow(last, rest[1..], step, tol)
  }

  /** The sequence `seq` built for one `start`. */
  function GreedyRun(s: seq<int>, start: nat, step: int, tol: int): seq<int>
    requires start < |s|
  {
    [s[start]] + Follow(s[start], s[start + 1..], step, tol)
  }

  /** The outer loop from `start` on, with `best` found so far: a run replaces `best` only
      when it is strictly longer. */
  function PickFrom(s: seq<int>, start: nat, best: seq<int>, step: int, tol: int): seq<int>
    decreases |s| - start
  {
    if start >= |s| then best
    else
      var run := GreedyRun(s, start, step, tol);
      PickFrom(s, start + 1, if |run| > |best| then run else best, step, tol)
  }

  /** The median gap, `int(np.median(diffs))`. */
  function Step(s: seq<int>): int
    requires |s| >= 2
  {
    Median(Diffs(s))
  }

  /** `max(2, int(step * 0.35))`. */
  function Tolerance(step: int, sc: Scaling): int
  {
    Max(2, sc.tolerance(step))
  }

  /** The value `pick_best_periodic_lines(lines)` returns. */
  function PeriodicLines(lines: seq<int>, sc: Scaling): seq<int>
  {
    var s := Sort(lines);
    if |s| < 4 then s
    else if Step(s) <= 0 then s
    else PickFrom(s, 0, [], Step(s), Tolerance(Step(s), sc))
  }

  /** a is a subsequence of b: b with some elements left out. */
  predicate IsSubsequence(a: seq<int>, b: seq<int>)
    decreases |b|
  {
    if a == [] then true
    else if b == [] then false
    else (a[0] == b[0] && IsSubsequence(a[1..], b[1..])) || IsSubsequence(a, b[1..])
  }

  /** Every neighbour gap of r is within tol of step. */
  predicate EvenlySpaced(r: seq<int>, step: int, tol: int)
  {
    forall k :: 0 <= k < |r| - 1 ==> Abs((r[k + 1] - r[k]) - step) <= tol
  }

  lemma {:induction false} FollowIsSubsequence(last: int, rest: seq<int>, step: int, tol: int)
    ensures IsSubsequence(Follow(last, rest, step, tol), rest)
    decreases |rest|
  {
    if rest != [] {
      var f := Follow(last, rest, step, tol);
      if Abs((rest[0] - last) - step) <= tol {
        FollowIsSubsequence(rest[0], rest[1..], step, tol);
        assert f[1..] == Follow(rest[0], rest[1..], step, tol);
      } else {
        FollowIsSubsequence(last, rest[1..], step, tol);
      }
    }
  }

  lemma {:induction false} FollowIsEvenlySpaced(last: int, rest: seq<int>, step: int, tol: int)
    ensures EvenlySpaced([last] + Follow(last, rest, step, tol), step, tol)
    decreases |rest|
  {
    if rest != [] {
      if Abs((rest[0] - last) - step) <= tol {
        FollowIsEvenlySpaced(rest[0], rest[1..], step, tol);
        var tail := [rest[0]] + Follow(rest[0], rest[1..], step, tol);
        assert [last] + Follow(last, rest, step, tol) == [last] + tail;
      } else {
        FollowIsEvenlySpaced(last, rest[1..], step, tol);
      }
    }
  }

  lemma {:induction false} SubsequenceOfSuffix(a: seq<int>, b: seq<int>, k: nat)
    requires k <= |b| && IsSubsequence(a, b[k..])
    ensures IsSubsequence(a, b)
    decreases k
  {
    if k > 0 {
      assert b[k - 1..][1..] == b[k..];
      assert IsSubsequence(a, b[k - 1..]);
      SubsequenceOfSuffix(a, b, k - 1);
    }
  }

  /** A greedy run is a subsequence of the sorted lines, evenly spaced around step. */
  lemma GreedyRunShape(s: seq<int>, start: nat, step: int, tol: int)
    requires start < |s|
    ensures IsSubsequence(GreedyRun(s, start, step, tol), s)
    ensures EvenlySpaced(GreedyRun(s, start, step, tol), step, tol)
  {
    var run := GreedyRun(s, start, step, tol);
    FollowIsSubsequence(s[start], s[start + 1..], step, tol);
    FollowIsEvenlySpaced(s[start], s[start + 1..], step, tol);
    assert s[start..][1..] == s[start + 1..];
    assert run[1..] == Follow(s[start], s[start + 1..], step, tol);
    assert IsSubsequence(run, s[start..]);
    SubsequenceOfSuffix(run, s, start);
  }

  /** r is the run for start b; no start gives a longer run, and every earlier start gives
      a strictly shorter one (the comparison is a strict `>`, so the earliest start wins). */
  ghost predicate IsBestRun(s: seq<int>, r: seq<int>, b: nat, step: int, tol: int)
  {
    && b < |s|
    && r == GreedyRun(s, b, step, tol)
    && (forall k :: 0 <= k < |s| ==> |GreedyRun(s, k, step, tol)| <= |r|)
    && (forall k :: 0 <= k < b ==> |GreedyRun(s, k, step, tol)| < |r|)
  }

  lemma {:induction false} PickFromFindsBest(s: seq<int>, start: nat, best: seq<int>, bestStart: nat, step: int, tol: int)
    returns (b: nat)
    requires 0 < start <= |s|
    requires bestStart < start && best == GreedyRun(s, bestStart, step, tol)
    requires forall k :: 0 <= k < start ==> |GreedyRun(s, k, step, tol)| <= |best|
    requires forall k :: 0 <= k < bestStart ==> |GreedyRun(s, k, step, tol)| < |best|
    ensures IsBestRun(s, PickFrom(s, start, best, step, tol), b, step, tol)
    decreases |s| - start
  {
    if start == |s| {
      b := bestStart;
    } else {
      var run := GreedyRun(s, start, step, tol);
      if |run| > |best| {
        b := PickFromFindsBest(s, start + 1, run, start, step, tol);
      } else {
        b := PickFromFindsBest(s, start + 1, best, bestStart, step, tol);
      }
    }
  }

  /** Fewer than four lines, or a median gap that is not positive: the sorted input comes
      back unchanged. */
  lemma PeriodicLinesUnfiltered(lines: seq<int>, sc: Scaling)
    requires |lines| < 4 || Step(Sort(lines)) <= 0
    ensures PeriodicLines(lines, sc) == Sort(lines)
  {
  }

  /** Otherwise the result is the longest greedy run, the earliest start winning ties; it is
      a subsequence of the sorted input whose gaps are all within the tolerance of the step. */
  lemma PeriodicLinesBestRun(lines: seq<int>, sc: Scaling) returns (b: nat)
    requires |lines| >= 4 && Step(Sort(lines)) > 0
    ensures var s := Sort(lines);
      IsBestRun(s, PeriodicLines(lines, sc), b, Step(s), Tolerance(Step(s), sc))
    ensures var s := Sort(lines);
      && IsSubsequence(PeriodicLines(lines, sc), s)
      && EvenlySpaced(PeriodicLines(lines, sc), Step(s), Tolerance(Step(s), sc))
  {
    var s := Sort(lines);
    var step, tol := Step(s), Tolerance(Step(s), sc);
    assert PeriodicLines(lines, sc) == PickFrom(s, 0, [], step, tol);
    var run := GreedyRun(s, 0, step, tol);
    assert |run| > 0;
    assert PickFrom(s, 0, [], step, tol) == PickFrom(s, 1, run, step, tol);
    b := PickFromFindsBest(s, 1, run, 0, step, tol);
    GreedyRunShape(s, b, step, tol);
  }

  /** Whatever the input, the result is a subsequence of the sorted input. */
  lemma PeriodicLinesSubsequence(lines: seq<int>, sc: Scaling)
    ensures IsSubsequence(PeriodicLines(lines, sc), Sort(lines))
  {
    var s := Sort(lines);
    if |s| >= 4 && Step(s) > 0 {
      var b := PeriodicLinesBestRun(lines, sc);
    } else {
      SubsequenceReflexive(s);
    }
  }

  lemma {:induction false} SubsequenceReflexive(s: seq<int>)
    ensures IsSubsequence(s, s)
    decreases |s|
  {
    if s != [] {
      SubsequenceReflexive(s[1..]);
    }
  }

  /** The inner loop of src/imageloader.py:54-60: the run built for one `start`. */
  method RunFrom(s: seq<int>, start: nat, step: int, tol: int) returns (run: seq<int>)
    requires start < |s|
    ensures run == GreedyRun(s, start, step, tol)
  {
    run := [s[start]];
    var last := s[start];
    var j := start + 1;
    while j < |s|
      invariant start + 1 <= j <= |s|
      invariant run + Follow(last, s[j..], step, tol) == GreedyRun(s, start, step, tol)
    {
      var p := s[j];
      assert s[j..] == [p] + s[j + 1..];
      if Abs((p - last) - step) <= tol {
        run := run + [p];
        last := p;
      }
      j := j + 1;
    }
    assert s[j..] == [];
  }

  /** The outer loop of src/imageloader.py:52-62: keeps the first longest run. */
  method LongestRun(s: seq<int>, step: int, tol: int) returns (best: seq<int>)
    ensures best == PickFrom(s, 0, [], step, tol)
  {
    best := [];
    var start := 0;
    while start < |s|
      invariant 0 <= start <= |s|
      invariant PickFrom(s, 0, [], step, tol) == PickFrom(s, start, best, step, tol)
    {
      var run := RunFrom(s, start, step, tol);
      if |run| > |best| {
        best := run;
      }
      start := start + 1;
    }
  }

  /** src/imageloader.py:39-62 and 78. */
  method PickBestPeriodicLines(lines: seq<int>, sc: Scaling) returns (best: seq<int>)
    ensures best == PeriodicLines(lines, sc)
    ensures IsSubsequence(best, Sort(lines))
  {
    PeriodicLinesSubsequence(lines, sc);
    var s := Sort(lines);
    if |s| < 4 {
      return s;
    }
    var step := Median(Diffs(s));
    if step <= 0 {
      return s;
    }
    best := LongestRun(s, step, Max(2, sc.tolerance(step)));
  }
}
