/** `_merge_positions` (src/imageloader.py:18-32): a thick gridline shows up as several
    adjacent candidate positions; runs of close positions collapse into their mean. */
module LineMerge {
  import opened Common
  import opened Sorting

  function Last<T>(s: seq<T>): T
    requires |s| > 0
  {
    s[|s| - 1]
  }

  function Sum(s: seq<int>): int
  {
    if s == [] then 0 else Sum(s[..|s| - 1]) + s[|s| - 1]
  }

  /** `int(sum(g) / len(g))`. */
  function Mean(g: seq<int>): int
    requires |g| > 0
  {
    TruncDiv(Sum(g), |g|)
  }

  function Concat(gs: seq<seq<int>>): seq<int>
  {
    if gs == [] then [] else Concat(gs[..|gs| - 1]) + gs[|gs| - 1]
  }

  /** One step of the loop at src/imageloader.py:25-29: position p joins the last group when
      it is within `gap` of that group's last element, and opens a new group otherwise. */
  function AddPosition(g: seq<seq<int>>, p: int, gap: int): (g': seq<seq<int>>)
    requires forall k :: 0 <= k < |g| ==> |g[k]| > 0
    ensures forall k :: 0 <= k < |g'| ==> |g'[k]| > 0
    ensures Concat(g') == Concat(g) + [p]
    ensures |g| <= |g'| <= |g| + 1 && |g'| > 0
  {
    if |g| > 0 && p - Last(Last(g)) <= gap then
      var g' := g[..|g| - 1] + [Last(g) + [p]];
      assert g'[..|g'| - 1] == g[..|g| - 1];
      g'
    else
      var g' := g + [[p]];
      assert g'[..|g'| - 1] == g;
      g'
  }

  /** The groups the loop builds from s; none of them is empty. */
  function Groups(s: seq<int>, gap: int): (gs: seq<seq<int>>)
    ensures forall k :: 0 <= k < |gs| ==> |gs[k]| > 0
  {
    if s == [] then [] else AddPosition(Groups(s[..|s| - 1], gap), s[|s| - 1], gap)
  }

  /** Laid end to end, the groups give back s; there is at most one group per position. */
  lemma GroupsConcat(s: seq<int>, gap: int)
    ensures Concat(Groups(s, gap)) == s
    ensures |Groups(s, gap)| <= |s| && (|s| > 0 ==> |Groups(s, gap)| > 0)
  {
    GroupsJoin(s, gap);
    GroupsCount(s, gap);
  }

  lemma {:induction false} GroupsJoin(s: seq<int>, gap: int)
    ensures Concat(Groups(s, gap)) == s
  {
    if s != [] {
      var init, p := s[..|s| - 1], s[|s| - 1];
      GroupsJoin(init, gap);
      assert Concat(Groups(s, gap)) == Concat(Groups(init, gap)) + [p];
      assert s == init + [p];
    }
  }

  lemma {:induction false} GroupsCount(s: seq<int>, gap: int)
    ensures |Groups(s, gap)| <= |s| && (|s| > 0 ==> |Groups(s, gap)| > 0)
  {
    if s != [] {
      GroupsCount(s[..|s| - 1], gap);
    }
  }

  /** Within a group neighbours are at most `gap` apart; the first element of a group is
      more than `gap` past the last element of the group before it. */
  ghost predicate MaximalRuns(gs: seq<seq<int>>, gap: int)
    requires forall k :: 0 <= k < |gs| ==> |gs[k]| > 0
  {
    && (forall k, i :: 0 <= k < |gs| && 0 <= i < |gs[k]| - 1 ==> gs[k][i + 1] - gs[k][i] <= gap)
    && (forall k :: 0 <= k < |gs| - 1 ==> gs[k + 1][0] - Last(gs[k]) > gap)
  }

  ghost predicate SortedGroups(gs: seq<seq<int>>)
  {
    forall k :: 0 <= k < |gs| ==> Sorted(gs[k])
  }

  lemma AddPositionKeepsRuns(g: seq<seq<int>>, p: int, gap: int)
    requires forall k :: 0 <= k < |g| ==> |g[k]| > 0
    requires MaximalRuns(g, gap)
    ensures MaximalRuns(AddPosition(g, p, gap), gap)
  {
    if |g| > 0 && p - Last(Last(g)) <= gap {
      ExtendLastKeepsRuns(g, p, gap);
    } else {
      var g' := AddPosition(g, p, gap);
      assert g' == g + [[p]];
      forall k | 0 <= k < |g'| - 1
        ensures g'[k + 1][0] - Last(g'[k]) > gap
      {
        assert g'[k] == g[k];
      }
      forall k, i | 0 <= k < |g'| && 0 <= i < |g'[k]| - 1
        ensures g'[k][i + 1] - g'[k][i] <= gap
      {
        assert g'[k] == g[k];
      }
    }
  }

  /** p joins the last group. */
  lemma ExtendLastKeepsRuns(g: seq<seq<int>>, p: int, gap: int)
    requires forall k :: 0 <= k < |g| ==> |g[k]| > 0
    requires MaximalRuns(g, gap)
    requires |g| > 0 && p - Last(Last(g)) <= gap
    ensures MaximalRuns(AddPosition(g, p, gap), gap)
  {
    var g' := AddPosition(g, p, gap);
    var m := |g|;
    var lastGroup := g[m - 1];
    assert g' == g[..m - 1] + [lastGroup + [p]];
    assert |g'| == m;
    forall k, i | 0 <= k < m && 0 <= i < |g'[k]| - 1
      ensures g'[k][i + 1] - g'[k][i] <= gap
    {
      if k < m - 1 {
        assert g'[k] == g[k];
      } else if i < |lastGroup| - 1 {
        assert g'[k][i] == lastGroup[i] && g'[k][i + 1] == lastGroup[i + 1];
      } else {
        assert g'[k][i] == Last(lastGroup) && g'[k][i + 1] == p;
      }
    }
    forall k | 0 <= k < m - 1
      ensures g'[k + 1][0] - Last(g'[k]) > gap
    {
      assert g'[k] == g[k];
      assert g'[k + 1][0] == g[k + 1][0];
    }
  }

  lemma LastOfConcat(gs: seq<seq<int>>)
    requires |gs| > 0 && |Last(gs)| > 0
    ensures |Concat(gs)| > 0 && Last(Concat(gs)) == Last(Last(gs))
  {
  }

  lemma AddPositionKeepsSorted(g: seq<seq<int>>, p: int, gap: int)
    requires forall k :: 0 <= k < |g| ==> |g[k]| > 0
    requires SortedGroups(g)
    requires |g| > 0 ==> Last(Last(g)) <= p
    ensures SortedGroups(AddPosition(g, p, gap))
  {
    var g' := AddPosition(g, p, gap);
    if |g| > 0 && p - Last(Last(g)) <= gap {
      var m := |g|;
      assert g'[m - 1] == g[m - 1] + [p];
      var lastGroup := g[m - 1];
      assert forall i :: 0 <= i < |lastGroup| ==> lastGroup[i] <= p;
      forall k | 0 <= k < m - 1
        ensures Sorted(g'[k])
      {
        assert g'[k] == g[k];
      }
    } else {
      forall k | 0 <= k < |g|
        ensures Sorted(g'[k])
      {
        assert g'[k] == g[k];
      }
    }
  }

  /** The groups are exactly the maximal runs of s whose neighbour gaps are at most `gap`. */
  lemma {:induction false} GroupsAreMaximalRuns(s: seq<int>, gap: int)
    ensures MaximalRuns(Groups(s, gap), gap)
  {
    if s != [] {
      GroupsAreMaximalRuns(s[..|s| - 1], gap);
      AddPositionKeepsRuns(Groups(s[..|s| - 1], gap), s[|s| - 1], gap);
    }
  }

  /** When s is sorted every group is sorted too. */
  lemma {:induction false} GroupsOfSortedAreSorted(s: seq<int>, gap: int)
    requires Sorted(s)
    ensures SortedGroups(Groups(s, gap))
  {
    if s != [] {
      var m := |s| - 1;
      var s' := s[..m];
      var g := Groups(s', gap);
      assert Sorted(s') by {
        forall i, j | 0 <= i < j < m
          ensures s'[i] <= s'[j]
        {
          assert s'[i] == s[i] && s'[j] == s[j];
        }
      }
      GroupsOfSortedAreSorted(s', gap);
      GroupsConcat(s', gap);
      if |g| > 0 {
        LastOfConcat(g);
        assert Last(Last(g)) == s[m - 1] <= s[m];
      }
      AddPositionKeepsSorted(g, s[m], gap);
      assert Groups(s, gap) == AddPosition(g, s[m], gap);
    }
  }

  /** `[int(sum(g) / len(g)) for g in groups]`. */
  function Means(gs: seq<seq<int>>): (r: seq<int>)
    requires forall k :: 0 <= k < |gs| ==> |gs[k]| > 0
    ensures |r| == |gs|
    ensures forall k :: 0 <= k < |gs| ==> r[k] == Mean(gs[k])
  {
    if gs == [] then [] else Means(gs[..|gs| - 1]) + [Mean(gs[|gs| - 1])]
  }

  /** The value `_merge_positions` returns. */
  function MergedPositions(pos: seq<int>, gap: int): seq<int>
  {
    if |pos| == 0 then [] else Means(Groups(Sort(pos), gap))
  }

  lemma SumBounds(g: seq<int>, lo: int, hi: int)
    requires forall i :: 0 <= i < |g| ==> lo <= g[i] <= hi
    ensures lo * |g| <= Sum(g) <= hi * |g|
  {
    if g != [] {
      var m := |g| - 1;
      SumBounds(g[..m], lo, hi);
      assert Sum(g) == Sum(g[..m]) + g[m];
      assert lo <= g[m] <= hi;
      MulSucc(lo, m);
      MulSucc(hi, m);
    }
  }

  lemma MulSucc(a: int, m: nat)
    ensures a * (m + 1) == a * m + a
  {
  }

  /** The mean of a sorted group lies between its first and last element. */
  lemma MeanOfSorted(g: seq<int>)
    requires |g| > 0 && Sorted(g)
    ensures g[0] <= Mean(g) <= Last(g)
  {
    SumBounds(g, g[0], Last(g));
    TruncDivBetween(Sum(g), |g|, g[0], Last(g));
  }

  lemma StrictFromNeighbours(r: seq<int>)
    requires forall k :: 0 <= k < |r| - 1 ==> r[k] < r[k + 1]
    ensures StrictlyIncreasing(r)
  {
    if |r| > 1 {
      var r' := r[..|r| - 1];
      StrictFromNeighbours(r');
      forall i, j | 0 <= i < j < |r|
        ensures r[i] < r[j]
      {
        if j < |r| - 1 {
          assert r[i] == r'[i] && r[j] == r'[j];
        } else if i < j - 1 {
          assert r[i] == r'[i] && r[j - 1] == r'[j - 1];
        }
      }
    }
  }

  /** No more positions come out than went in, and none exactly when none went in. */
  lemma MergedPositionsLength(pos: seq<int>, gap: int)
    ensures |MergedPositions(pos, gap)| <= |pos|
    ensures pos == [] <==> MergedPositions(pos, gap) == []
  {
    if pos != [] {
      GroupsConcat(Sort(pos), gap);
    }
  }

  /** Each output is the mean of one maximal run of the sorted input and lies between that
      run's first and last position. */
  lemma MergedPositionsWithinRuns(pos: seq<int>, gap: int)
    requires pos != []
    ensures var gs := Groups(Sort(pos), gap);
      && MaximalRuns(gs, gap)
      && |MergedPositions(pos, gap)| == |gs|
      && forall k :: 0 <= k < |gs| ==> gs[k][0] <= MergedPositions(pos, gap)[k] <= Last(gs[k])
  {
    var gs := Groups(Sort(pos), gap);
    GroupsAreMaximalRuns(Sort(pos), gap);
    GroupsOfSortedAreSorted(Sort(pos), gap);
    forall k | 0 <= k < |gs|
      ensures gs[k][0] <= Mean(gs[k]) <= Last(gs[k])
    {
      MeanOfSorted(gs[k]);
    }
  }

  /** For a non-negative gap the merged positions are strictly increasing. */
  lemma MergedPositionsIncreasing(pos: seq<int>, gap: int)
    requires gap >= 0
    ensures StrictlyIncreasing(MergedPositions(pos, gap))
  {
    var r := MergedPositions(pos, gap);
    if pos != [] {
      var gs := Groups(Sort(pos), gap);
      MergedPositionsWithinRuns(pos, gap);
      forall k | 0 <= k < |r| - 1
        ensures r[k] < r[k + 1]
      {
        assert gs[k + 1][0] - Last(gs[k]) > gap;
      }
      StrictFromNeighbours(r);
    }
  }

  lemma GroupsStep(s: seq<int>, i: nat, gap: int)
    requires i < |s|
    ensures Groups(s[..i + 1], gap) == AddPosition(Groups(s[..i], gap), s[i], gap)
  {
    assert s[..i + 1][..i] == s[..i];
  }

  /** The loop of src/imageloader.py:20-32, building the groups of the sorted positions. */
  method MergePositions(pos: seq<int>, mergeGap: int) returns (merged: seq<int>)
    ensures merged == MergedPositions(pos, mergeGap)
    ensures |merged| <= |pos|
    ensures mergeGap >= 0 ==> StrictlyIncreasing(merged)
  {
    if |pos| == 0 {
      return [];
    }
    var s := Sort(pos);
    var groups := [[s[0]]];
    GroupsStep(s, 0, mergeGap);
    var i := 1;
    while i < |s|
      invariant 1 <= i <= |s|
      invariant groups == Groups(s[..i], mergeGap)
    {
      var p := s[i];
      GroupsStep(s, i, mergeGap);
      if p - Last(Last(groups)) <= mergeGap {
        groups := groups[..|groups| - 1] + [Last(groups) + [p]];
      } else {
        groups := groups + [[p]];
      }
      i := i + 1;
    }
    assert s[..i] == s;
    merged := Means(groups);
    assert merged == MergedPositions(pos, mergeGap);
    MergedPositionsLength(pos, mergeGap);
    if mergeGap >= 0 {
      MergedPositionsIncreasing(pos, mergeGap);
    }
  }
}
