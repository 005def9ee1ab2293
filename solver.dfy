/** `solve_queens` (src/solver.py:22-104): exhaustive search for one queen per row, column
    and colour region, with no two queens in neighbouring rows touching. */
module Solver {
  import opened Common

  type Grid = seq<seq<char>>

  /** An N×N board of region letters. */
  predicate IsBoard(grid: Grid, n: nat)
  {
    |grid| == n && forall r :: 0 <= r < n ==> |grid[r]| == n
  }

  predicate InRange(p: seq<int>, n: nat)
  {
    forall i :: 0 <= i < |p| ==> 0 <= p[i] < n
  }

  /** A full placement: entry r is the column of the queen in row r. */
  predicate IsPlacement(p: seq<int>, n: nat)
  {
    |p| == n && InRange(p, n)
  }

  predicate DistinctColumns(p: seq<int>)
  {
    forall i, j :: 0 <= i < j < |p| ==> p[i] != p[j]
  }

  /** The region letter under the queen of row r. */
  function RegionAt(grid: Grid, p: seq<int>, r: nat): char
    requires r < |p| && r < |grid| && 0 <= p[r] < |grid[r]|
  {
    grid[r][p[r]]
  }

  predicate DistinctRegions(grid: Grid, n: nat, p: seq<int>)
    requires IsBoard(grid, n) && IsPlacement(p, n)
  {
    forall i, j :: 0 <= i < j < n ==> RegionAt(grid, p, i) != RegionAt(grid, p, j)
  }

  /** Queens of neighbouring rows are at least two columns apart. */
  predicate NotTouching(p: seq<int>)
  {
    forall r :: 1 <= r < |p| ==> Abs(p[r] - p[r - 1]) >= 2
  }

  /** What `check_entire_board` accepts. */
  predicate Valid(grid: Grid, n: nat, p: seq<int>)
    requires IsBoard(grid, n) && IsPlacement(p, n)
  {
    DistinctColumns(p) && DistinctRegions(grid, n, p) && NotTouching(p)
  }

  /** The columns used: `set(placement)`. */
  function Columns(p: seq<int>): set<int>
  {
    set i | 0 <= i < |p| :: p[i]
  }

  /** The outcome of a search: the placement found, if any, and the number of full placements
      visited, which is what the source counts in `iterations`. */
  datatype Search = Search(solution: Option<seq<int>>, visited: nat)

  /** `generate(row)` with rows 0..row-1 fixed to prefix, accept standing for the check it
      applies to each full placement. */
  function GenFrom(accept: seq<int> -> bool, n: nat, prefix: seq<int>): Search
    requires |prefix| <= n && InRange(prefix, n)
    decreases n - |prefix|, 1, 0
  {
    if |prefix| == n then Search(if accept(prefix) then Some(prefix) else None, 1)
    else ColsFrom(accept, n, prefix, 0)
  }

  /** The loop of src/solver.py:85-96 from column col on. */
  function ColsFrom(accept: seq<int> -> bool, n: nat, prefix: seq<int>, col: nat): Search
    requires |prefix| < n && InRange(prefix, n) && col <= n
    decreases n - |prefix|, 0, n - col
  {
    if col == n then Search(None, 0)
    else
      var s := GenFrom(accept, n, prefix + [col]);
      if s.solution.Some? then s
      else
        var t := ColsFrom(accept, n, prefix, col + 1);
        Search(t.solution, s.visited + t.visited)
  }

  /** The search `solve_queens` runs. */
  function Solve(grid: Grid, n: nat): Search
    requires IsBoard(grid, n)
  {
    GenFrom(Checker(grid, n), n, [])
  }

  /** `check_entire_board` as the test the search applies to each full placement. */
  function Checker(grid: Grid, n: nat): seq<int> -> bool
    requires IsBoard(grid, n)
  {
    p => IsPlacement(p, n) && Valid(grid, n, p)
  }

  /** `[(r, current_placement[r]) for r in range(N)]`. */
  function Pairs(p: seq<int>): (cells: seq<(int, int)>)
    ensures |cells| == |p| && forall r :: 0 <= r < |p| ==> cells[r] == (r, p[r])
    ensures forall r, c :: (r, c) in cells <==> 0 <= r < |p| && p[r] == c
  {
    seq(|p|, r requires 0 <= r < |p| => (r, p[r]))
  }

  function Pow(b: nat, e: nat): nat
  {
    if e == 0 then 1 else b * Pow(b, e - 1)
  }

  /** Rows j.. of p read as a number in base n: the position of p among the placements that
      agree with it on rows 0..j-1, in the order the search visits them. */
  function SuffixRank(p: seq<int>, j: nat, n: nat): int
    requires j <= |p|
    decreases |p| - j
  {
    if j == |p| then 0 else p[j] * Pow(n, |p| - j - 1) + SuffixRank(p, j + 1, n)
  }

  /** q extends the partial placement prefix to a full placement. */
  predicate Extends(q: seq<int>, prefix: seq<int>, n: nat)
  {
    IsPlacement(q, n) && |prefix| <= n && q[..|prefix|] == prefix
  }

  /** q comes before p in lexicographic order: they agree up to some row, where q's column is
      smaller. */
  predicate LexLess(q: seq<int>, p: seq<int>)
  {
    exists i :: 0 <= i < |q| && i < |p| && q[..i] == p[..i] && q[i] < p[i]
  }

  // ---------------------------------------------------------------- the checker

  /** `len(set(placement)) == N` exactly when the columns are distinct. */
  lemma {:induction false} ColumnsCount(p: seq<int>)
    ensures |Columns(p)| <= |p|
    ensures |Columns(p)| == |p| <==> DistinctColumns(p)
  {
    if p != [] {
      var m := |p| - 1;
      var front := p[..m];
      ColumnsCount(front);
      assert Columns(p) == Columns(front) + {p[m]} by {
        forall x | x in Columns(p)
          ensures x in Columns(front) + {p[m]}
        {
          var i :| 0 <= i < |p| && p[i] == x;
          if i < m {
            assert front[i] == x;
          }
        }
      }
      if p[m] in Columns(front) {
        var i :| 0 <= i < m && front[i] == p[m];
        assert p[i] == p[m];
      } else {
        if DistinctColumns(front) {
          forall i, j | 0 <= i < j < |p|
            ensures p[i] != p[j]
          {
            if j == m {
              assert p[i] == front[i];
            } else {
              assert p[i] == front[i] && p[j] == front[j];
            }
          }
        } else {
          var i, j :| 0 <= i < j < m && front[i] == front[j];
          assert p[i] == p[j];
        }
      }
    }
  }

  /** The region letters under the queens of rows 0..r-1: `used_colors` after r rows. */
  function UsedRegions(grid: Grid, n: nat, p: seq<int>, r: nat): (used: set<char>)
    requires IsBoard(grid, n) && IsPlacement(p, n) && r <= n
    ensures forall i :: 0 <= i < r ==> RegionAt(grid, p, i) in used
    ensures forall x :: x in used ==> exists i :: 0 <= i < r && RegionAt(grid, p, i) == x
  {
    if r == 0 then {} else UsedRegions(grid, n, p, r - 1) + {RegionAt(grid, p, r - 1)}
  }

  /** `check_entire_board(placement)` (src/solver.py:29-54): true exactly when the columns are
      distinct, the regions under the queens are distinct and no queens of neighbouring rows
      touch. */
  method CheckEntireBoard(grid: Grid, n: nat, placement: seq<int>) returns (ok: bool)
    requires IsBoard(grid, n) && IsPlacement(placement, n)
    ensures ok == Valid(grid, n, placement)
  {
    ColumnsCount(placement);
    if |Columns(placement)| != n {
      return false;
    }
    ok := CheckRegions(grid, n, placement);
    if !ok {
      return false;
    }
    ok := CheckNeighbours(placement);
  }

  /** The `used_colors` pass of `check_entire_board` (src/solver.py:35-43): true exactly when
      no two queens sit in the same region. */
  method CheckRegions(grid: Grid, n: nat, placement: seq<int>) returns (ok: bool)
    requires IsBoard(grid, n) && IsPlacement(placement, n)
    ensures ok == DistinctRegions(grid, n, placement)
  {
    var usedColors: set<char> := {};
    for r := 0 to n
      invariant usedColors == UsedRegions(grid, n, placement, r)
      invariant forall i, j :: 0 <= i < j < r ==> RegionAt(grid, placement, i) != RegionAt(grid, placement, j)
    {
      var c := placement[r];
      var colorChar := grid[r][c];
      if colorChar in usedColors {
        var i :| 0 <= i < r && RegionAt(grid, placement, i) == colorChar;
        assert RegionAt(grid, placement, i) == RegionAt(grid, placement, r);
        return false;
      }
      usedColors := usedColors + {colorChar};
    }
    return true;
  }

  /** The neighbour pass of `check_entire_board` (src/solver.py:45-52): true exactly when no
      two queens in consecutive rows are in the same or adjacent columns. */
  method CheckNeighbours(placement: seq<int>) returns (ok: bool)
    ensures ok == NotTouching(placement)
  {
    var r := 1;
    while r < |placement|
      invariant 1 <= r
      invariant forall k :: 1 <= k < r && k < |placement| ==> Abs(placement[k] - placement[k - 1]) >= 2
    {
      var currCol := placement[r];
      var prevCol := placement[r - 1];
      if Abs(currCol - prevCol) <= 1 {
        return false;
      }
      r := r + 1;
    }
    return true;
  }

  // ---------------------------------------------------------------- the search

  lemma LexLessIrreflexive(p: seq<int>)
    ensures !LexLess(p, p)
  {
  }

  /** A placement that agrees with p before row k and has a larger column in row k comes
      after p. */
  lemma NotLexLessAfter(q: seq<int>, p: seq<int>, k: nat)
    requires k < |q| && k < |p| && q[..k] == p[..k] && q[k] > p[k]
    ensures !LexLess(q, p)
  {
  }

  lemma ExtendsOneMore(q: seq<int>, prefix: seq<int>, n: nat, col: int)
    requires Extends(q, prefix, n) && |prefix| < n && q[|prefix|] == col
    ensures Extends(q, prefix + [col], n)
  {
    assert q[..|prefix| + 1] == q[..|prefix|] + [q[|prefix|]];
  }

  lemma ExtendsShorter(q: seq<int>, prefix: seq<int>, n: nat, col: int)
    requires Extends(q, prefix + [col], n)
    ensures Extends(q, prefix, n) && q[|prefix|] == col
  {
    assert q[..|prefix|] == q[..|prefix| + 1][..|prefix|];
  }

  lemma ExtendsFull(q: seq<int>, prefix: seq<int>, n: nat)
    requires Extends(q, prefix, n) && |prefix| == n
    ensures q == prefix
  {
    assert q[..n] == q;
  }

  /** What `generate(row)` finds below a fixed prefix: when it finds p, p extends the prefix,
      is valid, every extension before p is invalid, and it visited rank-of-p + 1 full
      placements; when it finds nothing, every extension is invalid and it visited all
      N^(N-row) of them. */
  lemma {:induction false} GenFromSpec(accept: seq<int> -> bool, n: nat, prefix: seq<int>)
    requires |prefix| <= n && InRange(prefix, n)
    ensures var s := GenFrom(accept, n, prefix);
      s.solution.Some? ==>
        var p := s.solution.value;
        && Extends(p, prefix, n) && accept(p)
        && s.visited == SuffixRank(p, |prefix|, n) + 1
        && forall q :: Extends(q, prefix, n) && LexLess(q, p) ==> !accept(q)
    ensures var s := GenFrom(accept, n, prefix);
      s.solution.None? ==>
        && s.visited == Pow(n, n - |prefix|)
        && forall q :: Extends(q, prefix, n) ==> !accept(q)
    decreases n - |prefix|, 1, 0
  {
    var k := |prefix|;
    if k == n {
      assert prefix[..k] == prefix;
      forall q | Extends(q, prefix, n)
        ensures q == prefix
      {
        ExtendsFull(q, prefix, n);
      }
      LexLessIrreflexive(prefix);
    } else {
      ColsFromSpec(accept, n, prefix, 0);
      var s := GenFrom(accept, n, prefix);
      if s.solution.Some? {
        var p := s.solution.value;
        assert SuffixRank(p, k, n) == p[k] * Pow(n, n - k - 1) + SuffixRank(p, k + 1, n);
      }
    }
  }

  /** The same for the loop over the columns of row |prefix| from col on. */
  lemma {:induction false} ColsFromSpec(accept: seq<int> -> bool, n: nat, prefix: seq<int>, col: nat)
    requires |prefix| < n && InRange(prefix, n) && col <= n
    ensures var s, k := ColsFrom(accept, n, prefix, col), |prefix|;
      s.solution.Some? ==>
        var p := s.solution.value;
        && Extends(p, prefix, n) && p[k] >= col && accept(p)
        && s.visited == (p[k] - col) * Pow(n, n - k - 1) + SuffixRank(p, k + 1, n) + 1
        && forall q :: Extends(q, prefix, n) && q[k] >= col && LexLess(q, p) ==> !accept(q)
    ensures var s, k := ColsFrom(accept, n, prefix, col), |prefix|;
      s.solution.None? ==>
        && s.visited == (n - col) * Pow(n, n - k - 1)
        && forall q :: Extends(q, prefix, n) && q[k] >= col ==> !accept(q)
    decreases n - |prefix|, 0, n - col
  {
    var k := |prefix|;
    if col < n {
      var ext := prefix + [col];
      GenFromSpec(accept, n, ext);
      var s := GenFrom(accept, n, ext);
      var P := Pow(n, n - k - 1);
      if s.solution.Some? {
        assert ColsFrom(accept, n, prefix, col) == s;
        ColsFromHit(accept, n, prefix, col, s.solution.value);
      } else {
        ColsFromSpec(accept, n, prefix, col + 1);
        var t := ColsFrom(accept, n, prefix, col + 1);
        assert ColsFrom(accept, n, prefix, col) == Search(t.solution, s.visited + t.visited);
        ColsFromMiss(accept, n, prefix, col);
        if t.solution.Some? {
          OneMoreBlock(t.solution.value[k] - col, P);
        } else {
          OneMoreBlock(n - col, P);
        }
      }
    }
  }

  /** The solution found in column col precedes, among the extensions from col on, every
      other valid one. */
  lemma ColsFromHit(accept: seq<int> -> bool, n: nat, prefix: seq<int>, col: nat, p: seq<int>)
    requires |prefix| < n && InRange(prefix, n) && col < n
    requires Extends(p, prefix + [col], n)
    requires forall q :: Extends(q, prefix + [col], n) && LexLess(q, p) ==> !accept(q)
    ensures Extends(p, prefix, n) && p[|prefix|] == col
    ensures forall q :: Extends(q, prefix, n) && q[|prefix|] >= col && LexLess(q, p) ==> !accept(q)
  {
    var k := |prefix|;
    ExtendsShorter(p, prefix, n, col);
    forall q | Extends(q, prefix, n) && q[k] >= col && LexLess(q, p)
      ensures !accept(q)
    {
      if q[k] == col {
        ExtendsOneMore(q, prefix, n, col);
      } else {
        NotLexLessAfter(q, p, k);
      }
    }
  }

  /** No valid extension in column col: no valid extension of prefix has col in its row. */
  lemma ColsFromMiss(accept: seq<int> -> bool, n: nat, prefix: seq<int>, col: nat)
    requires |prefix| < n && InRange(prefix, n) && col < n
    requires forall q :: Extends(q, prefix + [col], n) ==> !accept(q)
    ensures forall q :: Extends(q, prefix, n) && q[|prefix|] == col ==> !accept(q)
  {
    forall q | Extends(q, prefix, n) && q[|prefix|] == col
      ensures !accept(q)
    {
      ExtendsOneMore(q, prefix, n, col);
    }
  }

  lemma OneMoreBlock(a: int, P: int)
    ensures a * P == P + (a - 1) * P
  {
  }

  lemma ExtendsEmpty(q: seq<int>, n: nat)
    ensures Extends(q, [], n) <==> IsPlacement(q, n)
  {
  }

  /** What `solve_queens` returns without a stop request: a placement found is a valid full
      placement, no placement before it in lexicographic order is valid, and the search
      visited exactly rank + 1 placements; nothing found means no placement at all is valid,
      after visiting all N^N of them. */
  lemma SolveSpec(grid: Grid, n: nat)
    requires IsBoard(grid, n)
    ensures var s := Solve(grid, n);
      s.solution.Some? ==>
        var p := s.solution.value;
        && IsPlacement(p, n) && Valid(grid, n, p)
        && s.visited == SuffixRank(p, 0, n) + 1
        && forall q :: IsPlacement(q, n) && LexLess(q, p) ==> !Valid(grid, n, q)
    ensures var s := Solve(grid, n);
      s.solution.None? ==> s.visited == Pow(n, n)
    ensures Solve(grid, n).solution.None? <==> forall q :: IsPlacement(q, n) ==> !Valid(grid, n, q)
  {
    GenFromSpec(Checker(grid, n), n, []);
    forall q | IsPlacement(q, n)
      ensures Extends(q, [], n)
    {
      ExtendsEmpty(q, n);
    }
  }

  /** A placement's rank lies below N^(rows left), so the search never counts more than N^N. */
  lemma {:induction false} SuffixRankBound(p: seq<int>, j: nat, n: nat)
    requires j <= |p| && InRange(p, n)
    ensures 0 <= SuffixRank(p, j, n) < Pow(n, |p| - j)
    decreases |p| - j
  {
    if j < |p| {
      SuffixRankBound(p, j + 1, n);
      var P := Pow(n, |p| - j - 1);
      var rest := SuffixRank(p, j + 1, n);
      assert SuffixRank(p, j, n) == p[j] * P + rest;
      DigitBound(p[j], n, P, rest);
    }
  }

  lemma DigitBound(d: int, n: nat, P: nat, rest: int)
    requires 0 <= d < n && 0 <= rest < P
    ensures 0 <= d * P + rest < n * P
  {
    assert d * P <= (n - 1) * P by {
      assert (n - 1) * P - d * P == (n - 1 - d) * P;
    }
    assert (n - 1) * P + P == n * P;
  }

  // ---------------------------------------------------------------- the imperative search

  /** The state `solve_queens` shares with its nested functions. */
  class QueensSearch {
    const grid: Grid
    const n: nat
    const placement: array<int>
    var iterations: nat
    var solution: seq<(int, int)>

    /** src/solver.py:24-26. */
    constructor (grid: Grid, n: nat)
      requires IsBoard(grid, n)
      ensures this.grid == grid && this.n == n
      ensures fresh(placement) && placement.Length == n && forall i :: 0 <= i < n ==> placement[i] == 0
      ensures iterations == 0 && solution == []
    {
      this.grid := grid;
      this.n := n;
      placement := new int[n](_ => 0);
      iterations := 0;
      solution := [];
    }

    /** `generate(row)` (src/solver.py:57-96), without the stop and progress hooks: searches
        below the columns already placed in rows 0..row-1, which it leaves untouched. */
    method Generate(row: nat) returns (found: bool)
      requires IsBoard(grid, n) && placement.Length == n
      requires row <= n && InRange(placement[..row], n)
      modifies this, placement
      ensures placement[..row] == old(placement[..row])
      ensures var s := GenFrom(Checker(grid, n), n, old(placement[..row]));
        && found == s.solution.Some?
        && iterations == old(iterations) + s.visited
        && (found ==> solution == Pairs(s.solution.value) && placement[..] == s.solution.value)
        && (!found ==> solution == old(solution))
      decreases n - row
    {
      ghost var prefix := placement[..row];
      if row == n {
        iterations := iterations + 1;
        assert placement[..] == prefix;
        var ok := CheckEntireBoard(grid, n, placement[..]);
        if ok {
          solution := seq(n, r requires 0 <= r < n reads placement => (r, placement[r]));
          return true;
        }
        return false;
      }
      ghost var start := iterations;
      for col := 0 to n
        invariant placement[..row] == prefix
        invariant ColsFrom(Checker(grid, n), n, prefix, col).solution == ColsFrom(Checker(grid, n), n, prefix, 0).solution
        invariant iterations + ColsFrom(Checker(grid, n), n, prefix, col).visited == start + ColsFrom(Checker(grid, n), n, prefix, 0).visited
        invariant solution == old(solution)
      {
        placement[row] := col;
        assert placement[..row + 1] == prefix + [col];
        found := Generate(row + 1);
        assert placement[..row] == placement[..row + 1][..row];
        if found {
          return true;
        }
      }
      return false;
    }
  }

  /** `solve_queens(grid, N)` (src/solver.py:22-104) without its hooks: the solution as
      (row, column) pairs, or nothing, and the number of full placements checked. */
  method SolveQueens(grid: Grid, n: nat) returns (solution: Option<seq<(int, int)>>, iterations: nat)
    requires IsBoard(grid, n)
    ensures var s := Solve(grid, n);
      && iterations == s.visited
      && (s.solution.Some? ==> solution == Some(Pairs(s.solution.value)))
      && (s.solution.None? ==> solution.None?)
  {
    var search := new QueensSearch(grid, n);
    assert search.placement[..0] == [];
    var found := search.Generate(0);
    iterations := search.iterations;
    if found {
      solution := Some(search.solution);
    } else {
      solution := None;
    }
  }
}
