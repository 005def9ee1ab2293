/** `process_image` from src/imageloader.py:284 on: picks the raw or the cropped picture by
    the score of its gridlines, samples every cell, clusters the colours and spells the board. */
module ImageLoader {
  import opened Common
  import opened Picture
  import opened Crop
  import opened GridDetect
  import opened CellSample
  import opened ColorCluster

  /** The picture the board is read from, with its gridline positions. */
  datatype Detection = Detection(img: Image, xs: seq<int>, ys: seq<int>)

  /** src/imageloader.py:284-298: the cropped picture is used only when its gridlines score
      strictly higher than those of the raw picture. */
  function Chosen(img: Image, sc: Scaling): (d: Detection)
    requires IsImage(img)
    ensures IsImage(d.img)
  {
    var raw := Detection(img, GridLines(img, sc).0, GridLines(img, sc).1);
    var cropped := CroppedDetection(img, sc);
    if Score(cropped.xs, cropped.ys) > Score(raw.xs, raw.ys) then cropped else raw
  }

  /** The cropped picture with its gridlines. */
  function CroppedDetection(img: Image, sc: Scaling): (d: Detection)
    requires IsImage(img)
    ensures d.img == Cropped(img) && IsImage(d.img)
  {
    CroppedIsImage(img);
    var cropped := Cropped(img);
    Detection(cropped, GridLines(cropped, sc).0, GridLines(cropped, sc).1)
  }

  /** `N = min(len(xs), len(ys)) - 1`. */
  function BoardSize(d: Detection): int
  {
    Min(|d.xs|, |d.ys|) - 1
  }

  /** The sampled colours of row r, cell c between `xs[c]` and `xs[c + 1]`. */
  function SampleRow(d: Detection, n: nat, r: nat, sc: Scaling): (row: seq<Rgb>)
    requires n < |d.xs| && r < n < |d.ys|
    ensures |row| == n
  {
    seq(n, c requires 0 <= c < n => SampleCellColor(d.img, d.xs[c], d.xs[c + 1], d.ys[r], d.ys[r + 1], sc))
  }

  /** The sampled colours, row by row. */
  function Samples(d: Detection, n: nat, sc: Scaling): (rows: seq<seq<Rgb>>)
    requires n < |d.xs| && n < |d.ys|
    ensures |rows| == n && forall r :: 0 <= r < n ==> rows[r] == SampleRow(d, n, r, sc)
  {
    seq(n, r requires 0 <= r < n => SampleRow(d, n, r, sc))
  }

  /** On a byte image the samples form an N×N grid of byte colours. */
  lemma SamplesAreByteColors(d: Detection, n: nat, sc: Scaling)
    requires IsImage(d.img) && n < |d.xs| && n < |d.ys|
    ensures var rows := Samples(d, n, sc);
      forall r :: 0 <= r < n ==> |rows[r]| == n && forall c :: 0 <= c < n ==> IsByteColor(rows[r][c])
  {
    forall r | 0 <= r < n
      ensures forall c :: 0 <= c < n ==> IsByteColor(Samples(d, n, sc)[r][c])
    {
      SampleRowBytes(d, n, r, sc);
    }
  }

  lemma SampleRowBytes(d: Detection, n: nat, r: nat, sc: Scaling)
    requires IsImage(d.img) && n < |d.xs| && r < n < |d.ys|
    ensures forall c :: 0 <= c < n ==> IsByteColor(SampleRow(d, n, r, sc)[c])
  {
    forall c | 0 <= c < n
      ensures IsByteColor(SampleRow(d, n, r, sc)[c])
    {
      SampleIsByteColor(d.img, d.xs[c], d.xs[c + 1], d.ys[r], d.ys[r + 1], sc);
    }
  }

  /** The letters of the board: the cell in row r and column c gets the letter of the cluster
      nearest to its colour. */
  function Letters(rows: seq<seq<Rgb>>, cls: seq<Cluster>): (board: seq<seq<char>>)
    ensures |board| == |rows|
    ensures forall r :: 0 <= r < |rows| ==> |board[r]| == |rows[r]|
    ensures forall r, c :: 0 <= r < |rows| && 0 <= c < |rows[r]| ==> board[r][c] == LetterFor(rows[r][c], cls)
  {
    seq(|rows|, r requires 0 <= r < |rows| => seq(|rows[r]|, c requires 0 <= c < |rows[r]| => LetterFor(rows[r][c], cls)))
  }

  /** The value `process_image` returns once the picture is decoded. */
  function Processed(img: Image, sc: Scaling): (Option<seq<seq<char>>>, int)
    requires IsImage(img)
  {
    Spelled(Chosen(img, sc), sc)
  }

  /** src/imageloader.py:300-330 for the chosen picture and gridlines: no board and 0 when
      fewer than two lines were found on an axis, otherwise the N×N letter board and N. */
  function Spelled(d: Detection, sc: Scaling): (Option<seq<seq<char>>>, int)
  {
    var n := BoardSize(d);
    if n <= 0 then (None, 0)
    else
      var rows := Samples(d, n, sc);
      var cls := Clustering(Flatten(rows), ColorMergeThr, MaxClusters);
      (Some(Letters(rows, cls)), n)
  }

  lemma {:induction false} FlattenLength(rows: seq<seq<Rgb>>, n: nat)
    requires forall r :: 0 <= r < |rows| ==> |rows[r]| == n
    ensures |Flatten(rows)| == |rows| * n
  {
    if rows != [] {
      FlattenLength(rows[..|rows| - 1], n);
    }
  }

  /** Laid out row by row, the cell in row r and column c sits at index r * n + c. */
  lemma {:induction false} FlattenIndex(rows: seq<seq<Rgb>>, n: nat, r: nat, c: nat)
    requires forall k :: 0 <= k < |rows| ==> |rows[k]| == n
    requires r < |rows| && c < n
    ensures r * n + c < |rows| * n && r * n + c < |Flatten(rows)| && Flatten(rows)[r * n + c] == rows[r][c]
  {
    var m := |rows| - 1;
    var front := rows[..m];
    assert forall k :: 0 <= k < |front| ==> |front[k]| == n;
    FlattenLength(front, n);
    assert Flatten(rows) == Flatten(front) + rows[m];
    if r < m {
      FlattenIndex(front, n, r, c);
      MulStep(r, m, n);
      assert front[r] == rows[r];
    } else {
      assert r * n + c == |Flatten(front)| + c;
    }
    FlattenLength(rows, n);
  }

  lemma MulStep(r: nat, m: nat, n: nat)
    requires r < m
    ensures r * n + n <= m * n
  {
    var k := m - r - 1;
    assert m * n == r * n + k * n + n;
  }

  /** Each cell of the board carries the letter of the sample at r * n + c of the samples
      laid out row by row. */
  lemma LettersByIndex(rows: seq<seq<Rgb>>, n: nat, cls: seq<Cluster>)
    requires |rows| == n && forall k :: 0 <= k < n ==> |rows[k]| == n
    ensures |Flatten(rows)| == n * n
    ensures forall r, c :: 0 <= r < n && 0 <= c < n ==>
      CellIndex(n, r, c) < |Flatten(rows)| && Letters(rows, cls)[r][c] == LetterFor(Flatten(rows)[CellIndex(n, r, c)], cls)
  {
    FlattenLength(rows, n);
    forall r, c | 0 <= r < n && 0 <= c < n
      ensures CellIndex(n, r, c) < |Flatten(rows)| && Letters(rows, cls)[r][c] == LetterFor(Flatten(rows)[CellIndex(n, r, c)], cls)
    {
      LetterAt(rows, n, cls, r, c);
    }
  }

  /** Where the cell in row r and column c sits among the samples laid out row by row. */
  function CellIndex(n: nat, r: nat, c: nat): nat
  {
    r * n + c
  }

  lemma LetterAt(rows: seq<seq<Rgb>>, n: nat, cls: seq<Cluster>, r: nat, c: nat)
    requires |rows| == n && forall k :: 0 <= k < n ==> |rows[k]| == n
    requires r < n && c < n
    ensures r * n + c < |Flatten(rows)| && Letters(rows, cls)[r][c] == LetterFor(Flatten(rows)[r * n + c], cls)
  {
    FlattenIndex(rows, n, r, c);
  }

  /** The cropped picture is chosen only on a strictly higher score; on a tie the raw picture
      and its gridlines are kept. */
  lemma ChosenPrefersRaw(img: Image, sc: Scaling)
    requires IsImage(img)
    ensures var d, c := Chosen(img, sc), CroppedDetection(img, sc);
      var (xs0, ys0) := GridLines(img, sc);
      && (Score(c.xs, c.ys) > Score(xs0, ys0) ==> d == c)
      && (Score(c.xs, c.ys) <= Score(xs0, ys0) ==> d == Detection(img, xs0, ys0))
      && (d.xs, d.ys) == GridLines(d.img, sc)
  {
  }

  /** With fewer than two lines on an axis there is no board and N is 0; otherwise the board
      has N rows of N letters, spelled from the N×N samples with at most 26 clusters of all
      samples laid out row by row (LettersByIndex places cell (r, c) at r * N + c). */
  lemma SpelledShape(d: Detection, sc: Scaling)
    ensures var n := BoardSize(d);
      var (board, size) := Spelled(d, sc);
      && (n <= 0 ==> board.None? && size == 0)
      && (n > 0 ==>
        var rows := Samples(d, n, sc);
        var cls := Clustering(Flatten(rows), ColorMergeThr, MaxClusters);
        && size == n && board == Some(Letters(rows, cls))
        && |board.value| == n && (forall r :: 0 <= r < n ==> |board.value[r]| == n)
        && |Flatten(rows)| == n * n && |cls| <= MaxClusters)
  {
    var n := BoardSize(d);
    if n > 0 {
      var rows := Samples(d, n, sc);
      FlattenLength(rows, n);
      ClusteringShape(Flatten(rows), ColorMergeThr, MaxClusters);
    }
  }

  /** Every letter on the board is an upper-case letter. */
  lemma SpelledLetters(d: Detection, sc: Scaling)
    ensures var (board, _) := Spelled(d, sc);
      board.Some? ==> forall r, c :: 0 <= r < |board.value| && 0 <= c < |board.value[r]| ==>
        'A' <= board.value[r][c] <= 'Z'
  {
    var n := BoardSize(d);
    if n > 0 {
      var rows := Samples(d, n, sc);
      var cls := Clustering(Flatten(rows), ColorMergeThr, MaxClusters);
      var board := Letters(rows, cls);
      forall r, c | 0 <= r < |board| && 0 <= c < |board[r]|
        ensures 'A' <= board[r][c] <= 'Z'
      {
        LetterForCases(rows[r][c], cls);
      }
    }
  }

  /** The inner sampling loop of src/imageloader.py:309-313: appends the colours of row r. */
  method SampleRowInto(d: Detection, n: nat, r: nat, sc: Scaling, acc: seq<Rgb>) returns (cellColors: seq<Rgb>)
    requires n < |d.xs| && r < n < |d.ys|
    ensures cellColors == acc + SampleRow(d, n, r, sc)
  {
    ghost var row := SampleRow(d, n, r, sc);
    cellColors := acc;
    var y1, y2 := d.ys[r], d.ys[r + 1];
    for c := 0 to n
      invariant cellColors == acc + row[..c]
    {
      var x1, x2 := d.xs[c], d.xs[c + 1];
      var rgb := SampleCellColor(d.img, x1, x2, y1, y2, sc);
      assert rgb == row[c];
      cellColors := cellColors + [rgb];
      assert row[..c + 1] == row[..c] + [row[c]];
    }
    assert row[..n] == row;
  }

  /** The sampling loops of src/imageloader.py:307-313. */
  method SampleCells(d: Detection, n: nat, sc: Scaling) returns (cellColors: seq<Rgb>)
    requires n < |d.xs| && n < |d.ys|
    ensures cellColors == Flatten(Samples(d, n, sc))
  {
    ghost var rows := Samples(d, n, sc);
    cellColors := [];
    for r := 0 to n
      invariant cellColors == Flatten(rows[..r])
    {
      cellColors := SampleRowInto(d, n, r, sc, cellColors);
      assert rows[..r + 1][..r] == rows[..r];
    }
    assert rows[..n] == rows;
  }

  /** The board loops of src/imageloader.py:320-328. */
  method SpellBoard(rows: seq<seq<Rgb>>, n: nat, cellColors: seq<Rgb>, clusters: seq<Cluster>)
    returns (grid: seq<seq<char>>)
    requires |rows| == n && forall r :: 0 <= r < n ==> |rows[r]| == n
    requires cellColors == Flatten(rows)
    ensures grid == Letters(rows, clusters)
  {
    var board := Letters(rows, clusters);
    grid := [];
    var idx := 0;
    for r := 0 to n
      invariant grid == board[..r]
      invariant idx == r * n
    {
      var rowChars := SpellRow(rows, n, cellColors, clusters, r, idx);
      assert rowChars == board[r];
      assert board[..r + 1] == board[..r] + [board[r]];
      grid := grid + [rowChars];
      idx := idx + n;
    }
  }

  /** The inner loop of src/imageloader.py:322-326: the letters of row r, read from the flat
      list of cell colours starting at `idx == r * n`. */
  method SpellRow(rows: seq<seq<Rgb>>, n: nat, cellColors: seq<Rgb>, clusters: seq<Cluster>, r: nat, idx0: nat)
    returns (rowChars: seq<char>)
    requires |rows| == n && forall k :: 0 <= k < n ==> |rows[k]| == n
    requires cellColors == Flatten(rows)
    requires r < n && idx0 == r * n
    ensures |rowChars| == n
    ensures forall c :: 0 <= c < n ==> rowChars[c] == LetterFor(rows[r][c], clusters)
  {
    rowChars := [];
    var idx := idx0;
    for c := 0 to n
      invariant |rowChars| == c
      invariant forall k :: 0 <= k < c ==> rowChars[k] == LetterFor(rows[r][k], clusters)
      invariant idx == r * n + c
    {
      FlattenIndex(rows, n, r, c);
      var ch := AssignLetter(cellColors[idx], clusters);
      rowChars := rowChars + [ch];
      idx := idx + 1;
    }
  }

  /** src/imageloader.py:284-298. */
  method ChooseDetection(img: Image, sc: Scaling) returns (d: Detection)
    requires IsImage(img)
    ensures d == Chosen(img, sc)
  {
    var img1 := CropInnerBoard(img);
    var xs0, ys0 := DetectGridLines(img, sc);
    var xs1, ys1 := DetectGridLines(img1, sc);
    if Score(xs1, ys1) > Score(xs0, ys0) {
      d := Detection(img1, xs1, ys1);
    } else {
      d := Detection(img, xs0, ys0);
    }
  }

  /** src/imageloader.py:300-330. */
  method BuildBoard(d: Detection, sc: Scaling) returns (grid: Option<seq<seq<char>>>, n: int)
    ensures (grid, n) == Spelled(d, sc)
  {
    n := Min(|d.xs|, |d.ys|) - 1;
    if n <= 0 {
      return None, 0;
    }
    var cellColors := SampleCells(d, n, sc);
    var clusters := ClusterColors(cellColors, ColorMergeThr, MaxClusters);
    var board := SpellBoard(Samples(d, n, sc), n, cellColors, clusters);
    grid := Some(board);
  }

  /** src/imageloader.py:284-330. */
  method ProcessImage(img: Image, sc: Scaling) returns (grid: Option<seq<seq<char>>>, n: int)
    requires IsImage(img)
    ensures (grid, n) == Processed(img, sc)
  {
    var d := ChooseDetection(img, sc);
    grid, n := BuildBoard(d, sc);
  }
}
