/** `crop_inner_board` (src/imageloader.py:82-118): strips the thick dark frame around a
    board picture, unless that would leave less than half the picture on either axis. */
module Crop {
  import opened Common
  import opened Picture

  /** Channels below this count as dark for the frame. */
  const FrameDarkThr := 80

  /** `row_ratio[r] > 0.25`: more than a quarter of the row is dark. For an empty row the
      source divides by zero, gets nan and the comparison fails; so does this one. */
  predicate ThickRow(img: Image, r: nat)
    requires r < |img|
  {
    4 * RowDark(img, r, FrameDarkThr) > Width(img)
  }

  /** `col_ratio[c] > 0.25`. */
  predicate ThickCol(img: Image, c: nat)
    requires IsImage(img) && c < Width(img)
  {
    4 * ColDark(img, c, FrameDarkThr) > |img|
  }

  /** The first row at or after r that is not thick (|img| when there is none). */
  function TopFrom(img: Image, r: nat): (t: nat)
    requires r <= |img|
    ensures r <= t <= |img|
    ensures forall k :: r <= k < t ==> ThickRow(img, k)
    ensures t < |img| ==> !ThickRow(img, t)
    decreases |img| - r
  {
    if r < |img| && ThickRow(img, r) then TopFrom(img, r + 1) else r
  }

  /** The last row at or before r that is not thick (-1 when there is none). */
  function BottomFrom(img: Image, r: int): (b: int)
    requires -1 <= r < |img|
    ensures -1 <= b <= r
    ensures forall k :: b < k <= r ==> ThickRow(img, k)
    ensures b >= 0 ==> !ThickRow(img, b)
    decreases r + 1
  {
    if r >= 0 && ThickRow(img, r) then BottomFrom(img, r - 1) else r
  }

  function LeftFrom(img: Image, c: nat): (l: nat)
    requires IsImage(img) && c <= Width(img)
    ensures c <= l <= Width(img)
    ensures forall k :: c <= k < l ==> ThickCol(img, k)
    ensures l < Width(img) ==> !ThickCol(img, l)
    decreases Width(img) - c
  {
    if c < Width(img) && ThickCol(img, c) then LeftFrom(img, c + 1) else c
  }

  function RightFrom(img: Image, c: int): (rt: int)
    requires IsImage(img) && -1 <= c < Width(img)
    ensures -1 <= rt <= c
    ensures forall k :: rt < k <= c ==> ThickCol(img, k)
    ensures rt >= 0 ==> !ThickCol(img, rt)
    decreases c + 1
  {
    if c >= 0 && ThickCol(img, c) then RightFrom(img, c - 1) else c
  }

  /** `img_arr[t:b, l:r, :]` for in-range bounds. */
  function SubImage(img: Image, t: nat, b: nat, l: nat, r: nat): (sub: Image)
    requires IsImage(img) && t <= b <= |img| && l <= r <= Width(img)
    ensures |sub| == b - t
    ensures forall i :: 0 <= i < |sub| ==> sub[i] == img[t + i][l..r]
  {
    seq(b - t, i requires 0 <= i < b - t => img[t + i][l..r])
  }

  /** The clamped, padded frame edges: top row, bottom row, left and right column. */
  datatype Frame = Frame(top: int, bottom: int, left: int, right: int)

  function Edges(img: Image): Frame
    requires IsImage(img)
  {
    var h, w := |img|, Width(img);
    Frame(Max(0, TopFrom(img, 0) - 2), Min(h - 1, BottomFrom(img, h - 1) + 2),
          Max(0, LeftFrom(img, 0) - 2), Min(w - 1, RightFrom(img, w - 1) + 2))
  }

  /** `r_bot - r_top < h * 0.5 or c_right - c_left < w * 0.5`. */
  predicate TooSmall(img: Image, f: Frame)
  {
    2 * (f.bottom - f.top) < |img| || 2 * (f.right - f.left) < Width(img)
  }

  /** The frame edges lie inside the picture, top above bottom and left before right. */
  predicate Fits(img: Image, f: Frame)
  {
    0 <= f.top <= f.bottom < |img| && 0 <= f.left <= f.right < Width(img)
  }

  /** The picture cut to the frame f, or left whole when f is too small. */
  function CropTo(img: Image, f: Frame): Image
    requires IsImage(img) && (!TooSmall(img, f) ==> Fits(img, f))
  {
    if TooSmall(img, f) then img else SubImage(img, f.top, f.bottom + 1, f.left, f.right + 1)
  }

  /** The value `crop_inner_board(img_arr)` returns. */
  function Cropped(img: Image): Image
    requires IsImage(img)
  {
    EdgesInRange(img);
    CropTo(img, Edges(img))
  }

  /** When the guard lets the crop through, its bounds are inside the picture. */
  lemma EdgesInRange(img: Image)
    requires IsImage(img)
    ensures !TooSmall(img, Edges(img)) ==> Fits(img, Edges(img))
  {
  }

  /** Either the picture comes back whole, because the crop would keep less than half of an
      axis, or it is the sub-rectangle between the padded edges, which spans at least half of
      each axis; every row and column cut away belongs to the thick frame. */
  lemma CroppedShape(img: Image)
    requires IsImage(img)
    ensures TooSmall(img, Edges(img)) ==> Cropped(img) == img
    ensures var f := Edges(img);
      !TooSmall(img, f) ==>
        && 0 <= f.top <= f.bottom < |img| && 0 <= f.left <= f.right < Width(img)
        && 2 * (f.bottom - f.top) >= |img| && 2 * (f.right - f.left) >= Width(img)
        && Cropped(img) == SubImage(img, f.top, f.bottom + 1, f.left, f.right + 1)
        && (forall k :: 0 <= k < f.top ==> ThickRow(img, k))
        && (forall k :: f.bottom < k < |img| ==> ThickRow(img, k))
        && (forall k :: 0 <= k < f.left ==> ThickCol(img, k))
        && (forall k :: f.right < k < Width(img) ==> ThickCol(img, k))
  {
    EdgesInRange(img);
  }

  /** The slice of a byte image is a byte image of b - t rows and r - l columns. */
  lemma SubImageIsImage(img: Image, t: nat, b: nat, l: nat, r: nat)
    requires IsImage(img) && t <= b <= |img| && l <= r <= Width(img)
    ensures IsImage(SubImage(img, t, b, l, r))
    ensures Width(SubImage(img, t, b, l, r)) <= Width(img) && |SubImage(img, t, b, l, r)| <= |img|
    ensures t < b ==> Width(SubImage(img, t, b, l, r)) == r - l
  {
    var sub := SubImage(img, t, b, l, r);
    forall i, j | 0 <= i < |sub| && 0 <= j < |sub[i]|
      ensures IsByteColor(sub[i][j])
    {
      assert sub[i][j] == img[t + i][l + j];
    }
  }

  /** The cropped picture is again a rectangular byte image, no larger than the original. */
  lemma CroppedIsImage(img: Image)
    requires IsImage(img)
    ensures IsImage(Cropped(img))
    ensures Width(Cropped(img)) <= Width(img) && |Cropped(img)| <= |img|
  {
    EdgesInRange(img);
    CropToIsImage(img, Edges(img));
  }

  lemma CropToIsImage(img: Image, f: Frame)
    requires IsImage(img) && (!TooSmall(img, f) ==> Fits(img, f))
    ensures IsImage(CropTo(img, f))
    ensures Width(CropTo(img, f)) <= Width(img) && |CropTo(img, f)| <= |img|
  {
    if !TooSmall(img, f) {
      SubImageIsImage(img, f.top, f.bottom + 1, f.left, f.right + 1);
    }
  }

  /** The row scans of src/imageloader.py:93-99: the first and the last row that is not thick. */
  method ScanRows(img: Image) returns (top: int, bottom: int)
    requires IsImage(img)
    ensures top == TopFrom(img, 0) && bottom == BottomFrom(img, |img| - 1)
  {
    var h: int, w: int := |img|, Width(img);
    top := 0;
    while top < h && 4 * RowDark(img, top, FrameDarkThr) > w
      invariant 0 <= top <= h
      invariant TopFrom(img, top) == TopFrom(img, 0)
    {
      top := top + 1;
    }
    bottom := h - 1;
    while bottom >= 0 && 4 * RowDark(img, bottom, FrameDarkThr) > w
      invariant -1 <= bottom < h
      invariant BottomFrom(img, bottom) == BottomFrom(img, h - 1)
    {
      bottom := bottom - 1;
    }
  }

  /** The column scans of src/imageloader.py:101-107. */
  method ScanColumns(img: Image) returns (left: int, right: int)
    requires IsImage(img)
    ensures left == LeftFrom(img, 0) && right == RightFrom(img, Width(img) - 1)
  {
    var h: int, w: int := |img|, Width(img);
    left := 0;
    while left < w && 4 * ColDark(img, left, FrameDarkThr) > h
      invariant 0 <= left <= w
      invariant LeftFrom(img, left) == LeftFrom(img, 0)
    {
      left := left + 1;
    }
    right := w - 1;
    while right >= 0 && 4 * ColDark(img, right, FrameDarkThr) > h
      invariant -1 <= right < w
      invariant RightFrom(img, right) == RightFrom(img, w - 1)
    {
      right := right - 1;
    }
  }

  /** The scans and the padding of src/imageloader.py:93-114: the frame edges, each moved
      two pixels outward and clamped to the picture. */
  method PaddedEdges(img: Image) returns (f: Frame)
    requires IsImage(img)
    ensures f == Edges(img)
  {
    var h: int, w: int := |img|, Width(img);
    var top, bottom := ScanRows(img);
    var left, right := ScanColumns(img);
    f := Frame(Max(0, top - 2), Min(h - 1, bottom + 2), Max(0, left - 2), Min(w - 1, right + 2));
  }

  /** src/imageloader.py:82-118. */
  method CropInnerBoard(img: Image) returns (res: Image)
    requires IsImage(img)
    ensures res == Cropped(img)
    ensures IsImage(res)
  {
    var f := PaddedEdges(img);
    if TooSmall(img, f) {
      res := img;
    } else {
      EdgesInRange(img);
      res := SubImage(img, f.top, f.bottom + 1, f.left, f.right + 1);
    }
    CroppedIsImage(img);
  }
}
