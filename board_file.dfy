/** The text file format of a board (src/parser.py): one row of region letters per line,
    read by `parser` and written back, with the queens marked `#`, by `save_solution`. The
    file itself is left out; the text stands for its contents. */
module BoardFile {
  import opened Common
  import opened Solver

  /** Python's `str.isspace()` for one character: the characters `str.rstrip()` removes. */
  predicate IsPySpace(ch: char)
  {
    var c := ch as int;
    || c == 0x20 || (0x09 <= c <= 0x0D) || (0x1C <= c <= 0x1F) || c == 0x85 || c == 0xA0
    || c == 0x1680 || (0x2000 <= c <= 0x200A) || c == 0x2028 || c == 0x2029 || c == 0x202F
    || c == 0x205F || c == 0x3000
  }

  /** `s.rstrip()`. */
  function RStrip(s: string): string
  {
    if s == [] then []
    else if IsPySpace(s[|s| - 1]) then RStrip(s[..|s| - 1])
    else s
  }

  /** Where the line starting at or before position i ends: just after the next newline, or at
      the end of the text. */
  function LineEnd(text: string, i: nat): (e: nat)
    requires i <= |text|
    ensures i <= e <= |text| && (i < |text| ==> i < e)
    decreases |text| - i
  {
    if i == |text| then i
    else if text[i] == '\n' then i + 1
    else LineEnd(text, i + 1)
  }

  /** `f.readlines()`: the text cut after every newline, each line keeping its newline. */
  function ReadLines(text: string): seq<string>
    decreases |text|
  {
    if text == [] then []
    else
      var k := LineEnd(text, 0);
      [text[..k]] + ReadLines(text[k..])
  }

  /** `[line.rstrip() for line in lines]`. */
  function Stripped(lines: seq<string>): (r: seq<string>)
    ensures |r| == |lines| && forall i :: 0 <= i < |lines| ==> r[i] == RStrip(lines[i])
  {
    seq(|lines|, i requires 0 <= i < |lines| => RStrip(lines[i]))
  }

  /** `[line for line in lines if line]`. */
  function NonEmpty(lines: seq<string>): (r: seq<string>)
    ensures |r| <= |lines|
  {
    if lines == [] then []
    else (if lines[0] == [] then [] else [lines[0]]) + NonEmpty(lines[1..])
  }

  /** `[line for line in lines if line]` keeps exactly the lines that are not empty. */
  lemma {:induction false} NonEmptyMembers(lines: seq<string>)
    ensures forall s :: s in NonEmpty(lines) <==> s in lines && s != []
  {
    if lines != [] {
      NonEmptyMembers(lines[1..]);
      assert lines == [lines[0]] + lines[1..];
    }
  }

  /** Each non-empty line is kept as often as it occurs, and no empty one. */
  lemma {:induction false} NonEmptyCounts(lines: seq<string>)
    ensures forall s :: multiset(NonEmpty(lines))[s] == (if s == [] then 0 else multiset(lines)[s])
  {
    if lines != [] {
      NonEmptyCounts(lines[1..]);
      assert lines == [lines[0]] + lines[1..];
    }
  }

  /** The kept lines stay in file order: filtering a concatenation filters each part. With
      NonEmptySingle this fixes the kept list completely. */
  lemma {:induction false} NonEmptyConcat(a: seq<string>, b: seq<string>)
    ensures NonEmpty(a + b) == NonEmpty(a) + NonEmpty(b)
    decreases |a|
  {
    if a == [] {
      assert a + b == b;
    } else {
      var ab := a + b;
      assert ab[0] == a[0] && ab[1..] == a[1..] + b;
      var head: seq<string> := if a[0] == [] then [] else [a[0]];
      assert NonEmpty(ab) == head + NonEmpty(a[1..] + b);
      assert NonEmpty(a) == head + NonEmpty(a[1..]);
      NonEmptyConcat(a[1..], b);
    }
  }

  lemma NonEmptySingle(line: string)
    ensures NonEmpty([line]) == if line == [] then [] else [line]
  {
    assert [line][1..] == [];
  }

  /** What `parser` returns for a file with this text: `(grid, N)` when the non-blank lines,
      right-stripped, are N lines of length N, and `(None, None)` otherwise. */
  function ParseText(text: string): Option<(Grid, nat)>
  {
    SquareBoard(NonEmpty(Stripped(ReadLines(text))))
  }

  /** The kept lines as an N×N board, N being their count, or nothing. */
  function SquareBoard(lines: seq<string>): Option<(Grid, nat)>
  {
    if lines == [] then None
    else if forall i :: 0 <= i < |lines| ==> |lines[i]| == |lines| then Some((lines, |lines|))
    else None
  }

  /** `parser(filepath)` (src/parser.py:10-51) on the contents of the file: strips and drops
      blank lines, then checks every kept line against their count N. */
  method Parser(text: string) returns (result: Option<(Grid, nat)>)
    ensures result == ParseText(text)
  {
    var lines := Stripped(ReadLines(text));
    lines := NonEmpty(lines);
    result := CheckSquare(lines);
  }

  /** The validation of src/parser.py:31-49: no lines, or a line whose length is not the
      number of lines, gives nothing; otherwise the lines are the board. */
  method CheckSquare(lines: seq<string>) returns (result: Option<(Grid, nat)>)
    ensures result.None? <==> lines == [] || exists i :: 0 <= i < |lines| && |lines[i]| != |lines|
    ensures result.Some? ==> result.value == (lines, |lines|)
  {
    if |lines| == 0 {
      return None;
    }
    var n := |lines|;
    var grid: Grid := [];
    for i := 0 to |lines|
      invariant grid == lines[..i]
      invariant forall k :: 0 <= k < i ==> |lines[k]| == n
    {
      var line := lines[i];
      if |line| != n {
        return None;
      }
      grid := grid + [line];
    }
    assert grid == lines;
    return Some((grid, n));
  }

  /** Python's index normalisation: a negative index counts from the end. */
  function PyIndex(i: int, n: nat): int
  {
    if i < 0 then i + n else i
  }

  /** `output_grid[r][c]` names a cell rather than raising an IndexError. */
  predicate InBounds(grid: Grid, cell: (int, int))
  {
    && -|grid| <= cell.0 < |grid|
    && var r := PyIndex(cell.0, |grid|);
    -|grid[r]| <= cell.1 < |grid[r]|
  }

  predicate AllInBounds(grid: Grid, cells: seq<(int, int)>)
  {
    forall k :: 0 <= k < |cells| ==> InBounds(grid, cells[k])
  }

  /** Cell (i, j) is one of the queen cells. */
  predicate Marked(grid: Grid, cells: seq<(int, int)>, i: nat, j: nat)
    requires i < |grid|
  {
    exists k :: 0 <= k < |cells| && InBounds(grid, cells[k])
      && PyIndex(cells[k].0, |grid|) == i && PyIndex(cells[k].1, |grid[i]|) == j
  }

  /** The board with `#` on every queen cell and every other cell as it was. */
  function Overlaid(grid: Grid, cells: seq<(int, int)>): (out: Grid)
    ensures |out| == |grid| && forall i :: 0 <= i < |grid| ==> |out[i]| == |grid[i]|
  {
    seq(|grid|, i requires 0 <= i < |grid| =>
      seq(|grid[i]|, j requires 0 <= j < |grid[i]| => if Marked(grid, cells, i, j) then '#' else grid[i][j]))
  }

  /** `"\n".join(rows)`. */
  function JoinLines(rows: seq<string>): string
  {
    if |rows| == 0 then []
    else if |rows| == 1 then rows[0]
    else rows[0] + "\n" + JoinLines(rows[1..])
  }

  /** The text `save_solution` writes, or nothing when a queen cell is out of range. */
  function SavedText(grid: Grid, cells: seq<(int, int)>): Option<string>
  {
    if AllInBounds(grid, cells) then Some(JoinLines(Overlaid(grid, cells))) else None
  }

  /** The overlay loop of src/parser.py:56-60 on a copy of the caller's grid: the copy's shape
      is the grid's, every queen cell is `#` and every other cell is unchanged; a cell out of
      range stops it with an IndexError. */
  method MarkQueens(grid: Grid, cells: seq<(int, int)>) returns (ok: bool, out: Grid)
    ensures ok == AllInBounds(grid, cells)
    ensures ok ==> out == Overlaid(grid, cells)
  {
    out := grid;
    for k := 0 to |cells|
      invariant |out| == |grid| && forall i :: 0 <= i < |grid| ==> |out[i]| == |grid[i]|
      invariant AllInBounds(grid, cells[..k])
      invariant forall i, j :: 0 <= i < |grid| && 0 <= j < |grid[i]| ==>
        out[i][j] == if Marked(grid, cells[..k], i, j) then '#' else grid[i][j]
    {
      var (r, c) := cells[k];
      if !(-|out| <= r < |out|) {
        return false, out;
      }
      var ri := PyIndex(r, |out|);
      if !(-|out[ri]| <= c < |out[ri]|) {
        return false, out;
      }
      var ci := PyIndex(c, |out[ri]|);
      out := out[ri := out[ri][ci := '#']];
      forall i, j | 0 <= i < |grid| && 0 <= j < |grid[i]|
        ensures Marked(grid, cells[..k + 1], i, j) <==> Marked(grid, cells[..k], i, j) || (i == ri && j == ci)
      {
        if Marked(grid, cells[..k + 1], i, j) {
          var m :| 0 <= m < k + 1 && InBounds(grid, cells[..k + 1][m])
            && PyIndex(cells[..k + 1][m].0, |grid|) == i && PyIndex(cells[..k + 1][m].1, |grid[i]|) == j;
          if m < k {
            assert cells[..k + 1][m] == cells[..k][m];
          }
        }
        if Marked(grid, cells[..k], i, j) {
          var m :| 0 <= m < k && InBounds(grid, cells[..k][m])
            && PyIndex(cells[..k][m].0, |grid|) == i && PyIndex(cells[..k][m].1, |grid[i]|) == j;
          assert cells[..k + 1][m] == cells[..k][m];
        }
        if i == ri && j == ci {
          assert cells[..k + 1][k] == cells[k];
        }
      }
    }
    assert cells[..|cells|] == cells;
    var marked := Overlaid(grid, cells);
    forall i | 0 <= i < |grid|
      ensures out[i] == marked[i]
    {
      assert forall j :: 0 <= j < |grid[i]| ==> out[i][j] == marked[i][j];
    }
    ok := true;
  }

  /** `save_solution(filepath, grid, solution)` (src/parser.py:54-71) without the file: true
      and the text to write when every queen cell is in range, false otherwise. */
  method SaveSolution(grid: Grid, solution: seq<(int, int)>) returns (ok: bool, text: string)
    ensures SavedText(grid, solution) == if ok then Some(text) else None
  {
    var outputGrid;
    ok, outputGrid := MarkQueens(grid, solution);
    if !ok {
      return false, [];
    }
    text := JoinLines(outputGrid);
  }

  // ---------------------------------------------------------------- properties

  /** What `rstrip` keeps: a prefix of the line whose removed tail is all whitespace and which
      is empty or ends in a non-space. */
  lemma {:induction false} RStripShape(s: string)
    ensures var r := RStrip(s);
      && |r| <= |s| && r == s[..|r|]
      && (forall k :: |r| <= k < |s| ==> IsPySpace(s[k]))
      && (r == [] || !IsPySpace(r[|r| - 1]))
  {
    if s != [] && IsPySpace(s[|s| - 1]) {
      var front := s[..|s| - 1];
      RStripShape(front);
      var r := RStrip(front);
      assert r == s[..|r|];
    }
  }

  /** Each stripped line is a prefix of its line, the part cut off is whitespace, and the
      stripped line is empty or ends in a non-space. */
  lemma StrippedLines(lines: seq<string>)
    ensures var r := Stripped(lines);
      forall i :: 0 <= i < |lines| ==>
        && |r[i]| <= |lines[i]| && r[i] == lines[i][..|r[i]|]
        && (forall k :: |r[i]| <= k < |lines[i]| ==> IsPySpace(lines[i][k]))
        && (r[i] == [] || !IsPySpace(r[i][|r[i]| - 1]))
  {
    forall i | 0 <= i < |lines|
    {
      RStripShape(lines[i]);
    }
  }

  /** The lines `readlines` gives are non-empty, have a newline only as their last character,
      and put together give back the text. */
  lemma ReadLinesShape(text: string)
    ensures JoinAll(ReadLines(text)) == text
    ensures forall m :: 0 <= m < |ReadLines(text)| ==> ReadLines(text)[m] != []
    ensures forall m, j :: 0 <= m < |ReadLines(text)| && 0 <= j < |ReadLines(text)[m]| - 1 ==>
      ReadLines(text)[m][j] != '\n'
  {
    ReadLinesJoin(text);
    ReadLinesBreaks(text);
  }

  lemma {:induction false} ReadLinesJoin(text: string)
    ensures JoinAll(ReadLines(text)) == text
    decreases |text|
  {
    if text != [] {
      var k := LineEnd(text, 0);
      var rest := text[k..];
      ReadLinesJoin(rest);
      var ls := ReadLines(text);
      assert ls[0] == text[..k] && ls[1..] == ReadLines(rest);
      assert text == text[..k] + rest;
    }
  }

  lemma {:induction false} ReadLinesBreaks(text: string)
    ensures forall m :: 0 <= m < |ReadLines(text)| ==> ReadLines(text)[m] != []
    ensures forall m, j :: 0 <= m < |ReadLines(text)| && 0 <= j < |ReadLines(text)[m]| - 1 ==>
      ReadLines(text)[m][j] != '\n'
    decreases |text|
  {
    if text != [] {
      var k := LineEnd(text, 0);
      LineEndShape(text, 0);
      var rest := text[k..];
      ReadLinesBreaks(rest);
      var ls := ReadLines(text);
      assert ls == [text[..k]] + ReadLines(rest);
      forall m, j | 0 <= m < |ls| && 0 <= j < |ls[m]| - 1
        ensures ls[m][j] != '\n'
      {
        if m > 0 {
          assert ls[m] == ReadLines(rest)[m - 1];
        }
      }
    }
  }

  /** The text cut by `readlines`, put back together. */
  function JoinAll(lines: seq<string>): string
  {
    if lines == [] then [] else lines[0] + JoinAll(lines[1..])
  }

  /** LineEnd stops at the first newline from i on, or at the end of the text. */
  lemma {:induction false} LineEndShape(text: string, i: nat)
    requires i <= |text|
    ensures forall j :: i <= j < LineEnd(text, i) - 1 ==> text[j] != '\n'
    ensures LineEnd(text, i) < |text| ==> text[LineEnd(text, i) - 1] == '\n'
    decreases |text| - i
  {
    if i < |text| && text[i] != '\n' {
      LineEndShape(text, i + 1);
    }
  }

  lemma {:induction false} LineEndAt(text: string, i: nat, j: nat)
    requires i <= j < |text| && text[j] == '\n'
    requires forall k :: i <= k < j ==> text[k] != '\n'
    ensures LineEnd(text, i) == j + 1
    decreases j - i
  {
    if i < j {
      LineEndAt(text, i + 1, j);
    }
  }

  lemma {:induction false} LineEndNone(text: string, i: nat)
    requires i <= |text|
    requires forall k :: i <= k < |text| ==> text[k] != '\n'
    ensures LineEnd(text, i) == |text|
    decreases |text| - i
  {
    if i < |text| {
      LineEndNone(text, i + 1);
    }
  }

  /** A row the parser keeps unchanged: not empty and with no whitespace in it. */
  predicate PlainRow(row: string)
  {
    row != [] && forall j :: 0 <= j < |row| ==> !IsPySpace(row[j])
  }

  /** Reading back rows joined by newlines gives the rows, when every row is plain. */
  lemma {:induction false} ReadBackRows(rows: seq<string>)
    requires |rows| >= 1 && forall i :: 0 <= i < |rows| ==> PlainRow(rows[i])
    ensures NonEmpty(Stripped(ReadLines(JoinLines(rows)))) == rows
  {
    var row := rows[0];
    assert PlainRow(row);
    StripNewline(row);
    if |rows| == 1 {
      ReadSingleRow(row);
      assert Stripped([row]) == [row];
      NonEmptyCons(row, []);
    } else {
      var rest := rows[1..];
      assert JoinLines(rows) == row + "\n" + JoinLines(rest);
      ReadBackStep(row, JoinLines(rest));
      assert forall i :: 0 <= i < |rest| ==> rest[i] == rows[i + 1];
      ReadBackRows(rest);
      assert rows == [row] + rest;
    }
  }

  /** A plain row followed by a newline reads back as that row in front of what the rest
      of the text reads back as. */
  lemma ReadBackStep(row: string, rest: string)
    requires PlainRow(row)
    ensures NonEmpty(Stripped(ReadLines(row + "\n" + rest))) == [row] + NonEmpty(Stripped(ReadLines(rest)))
  {
    ReadFirstLine(row, rest);
    var tail := ReadLines(rest);
    StrippedCons(row + "\n", tail);
    StripNewline(row);
    NonEmptyCons(row, Stripped(tail));
  }

  /** A plain row, with or without its newline, strips back to itself. */
  lemma StripNewline(row: string)
    requires PlainRow(row)
    ensures RStrip(row + "\n") == row && RStrip(row) == row
  {
    assert (row + "\n")[..|row|] == row;
  }

  lemma ReadSingleRow(row: string)
    requires PlainRow(row)
    ensures ReadLines(row) == [row]
  {
    LineEndNone(row, 0);
    assert row[..|row|] == row && row[|row|..] == [];
  }

  lemma ReadFirstLine(row: string, rest: string)
    requires PlainRow(row)
    ensures ReadLines(row + "\n" + rest) == [row + "\n"] + ReadLines(rest)
  {
    var x := row + "\n";
    var text := x + rest;
    LineEndAt(text, 0, |row|);
    assert text[..|x|] == x && text[|x|..] == rest;
  }

  lemma StrippedCons(x: string, t: seq<string>)
    ensures Stripped([x] + t) == [RStrip(x)] + Stripped(t)
  {
  }

  lemma NonEmptyCons(row: string, t: seq<string>)
    requires row != []
    ensures NonEmpty([row] + t) == [row] + NonEmpty(t)
  {
    assert ([row] + t)[1..] == t;
  }

  /** The board `save_solution` writes parses back as the same board with the queens marked:
      for an N×N board of letters that are not whitespace and queen cells in range. */
  lemma SaveThenParse(grid: Grid, n: nat, solution: seq<(int, int)>)
    requires IsBoard(grid, n) && n >= 1
    requires forall i, j :: 0 <= i < n && 0 <= j < n ==> !IsPySpace(grid[i][j])
    requires AllInBounds(grid, solution)
    ensures SavedText(grid, solution).Some?
    ensures ParseText(SavedText(grid, solution).value) == Some((Overlaid(grid, solution), n))
  {
    var out := Overlaid(grid, solution);
    forall i | 0 <= i < n
      ensures PlainRow(out[i])
    {
      assert out[i][0] == if Marked(grid, solution, i, 0) then '#' else grid[i][0];
    }
    ReadBackRows(out);
  }

  /** Saving a board without queens and parsing it again gives back the board and its size. */
  lemma SaveEmptyThenParse(grid: Grid, n: nat)
    requires IsBoard(grid, n) && n >= 1
    requires forall i, j :: 0 <= i < n && 0 <= j < n ==> !IsPySpace(grid[i][j])
    ensures SavedText(grid, []).Some?
    ensures ParseText(SavedText(grid, []).value) == Some((grid, n))
  {
    SaveThenParse(grid, n, []);
    var out := Overlaid(grid, []);
    forall i | 0 <= i < n
      ensures out[i] == grid[i]
    {
      assert forall j :: 0 <= j < n ==> out[i][j] == grid[i][j];
    }
    assert out == grid;
  }

  /** What `parser` accepts: the kept lines are the non-blank lines of the file, right-stripped
      and in order; there is at least one, every one is N characters long for N their count,
      and none ends in whitespace. Anything else is rejected. */
  lemma ParseResult(text: string)
    ensures var kept := NonEmpty(Stripped(ReadLines(text)));
      ParseText(text).Some? <==> kept != [] && forall i :: 0 <= i < |kept| ==> |kept[i]| == |kept|
    ensures ParseText(text).Some? ==>
      var (grid, n) := ParseText(text).value;
      && n >= 1 && IsBoard(grid, n)
      && grid == NonEmpty(Stripped(ReadLines(text)))
      && forall i :: 0 <= i < n ==> !IsPySpace(grid[i][n - 1])
  {
    KeptLinesEnd(ReadLines(text));
  }

  /** Every line kept after stripping and dropping blanks ends in a non-space character. */
  lemma KeptLinesEnd(ls: seq<string>)
    ensures var kept := NonEmpty(Stripped(ls));
      forall i :: 0 <= i < |kept| ==> kept[i] != [] && !IsPySpace(kept[i][|kept[i]| - 1])
  {
    var kept := NonEmpty(Stripped(ls));
    NonEmptyMembers(Stripped(ls));
    forall i | 0 <= i < |kept|
      ensures kept[i] != [] && !IsPySpace(kept[i][|kept[i]| - 1])
    {
      assert kept[i] in Stripped(ls);
      var m :| 0 <= m < |ls| && Stripped(ls)[m] == kept[i];
      RStripShape(ls[m]);
    }
  }
}
