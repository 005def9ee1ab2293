/** The decoded picture every image stage reads: rows of RGB pixels, as the numpy array
    `img_arr` of shape (h, w, 3) holds them (src/imageloader.py:282-283 is not modelled). */
module Picture {

  datatype Rgb = Rgb(r: int, g: int, b: int)

  type Image = seq<seq<Rgb>>

  predicate InByte(x: int) { 0 <= x <= 255 }

  predicate IsByteColor(p: Rgb) { InByte(p.r) && InByte(p.g) && InByte(p.b) }

  /** A numpy uint8 image: rectangular, every channel a byte. */
  predicate IsImage(img: Image)
  {
    && (forall i, j :: 0 <= i < j < |img| ==> |img[i]| == |img[j]|)
    && (forall i, j :: 0 <= i < |img| && 0 <= j < |img[i]| ==> IsByteColor(img[i][j]))
  }

  function Width(img: Image): nat
  {
    if |img| == 0 then 0 else |img[0]|
  }

  /** `(a[0] < thr) & (a[1] < thr) & (a[2] < thr)`. */
  predicate IsDark(p: Rgb, thr: int)
  {
    p.r < thr && p.g < thr && p.b < thr
  }

  /** Squared Euclidean RGB distance. The source's `rgb_dist` takes the square root, but every
      use only compares distances, and the root is monotone. */
  function Dist2(a: Rgb, b: Rgb): nat
  {
    (a.r - b.r) * (a.r - b.r) + (a.g - b.g) * (a.g - b.g) + (a.b - b.b) * (a.b - b.b)
  }

  /** `rgb_dist(a, b) <= thr`, for an integer threshold. */
  predicate WithinDist(a: Rgb, b: Rgb, thr: int)
  {
    thr >= 0 && Dist2(a, b) <= thr * thr
  }

  /** Number of dark pixels in a row: `dark.sum(axis=1)[r]`. */
  function CountDark(row: seq<Rgb>, thr: int): (n: nat)
    ensures n <= |row|
  {
    if row == [] then 0
    else CountDark(row[..|row| - 1], thr) + (if IsDark(row[|row| - 1], thr) then 1 else 0)
  }

  /** Number of dark pixels in column c among the first k rows: `dark.sum(axis=0)[c]` for k = h
      (a row too short to reach column c, which a numpy array never has, counts nothing). */
  function CountDarkColumn(img: Image, c: nat, thr: int, k: nat): (n: nat)
    requires k <= |img|
    ensures n <= k
  {
    if k == 0 then 0
    else CountDarkColumn(img, c, thr, k - 1) + (if c < |img[k - 1]| && IsDark(img[k - 1][c], thr) then 1 else 0)
  }

  function RowDark(img: Image, r: nat, thr: int): nat
    requires r < |img|
  {
    CountDark(img[r], thr)
  }

  function ColDark(img: Image, c: nat, thr: int): nat
  {
    CountDarkColumn(img, c, thr, |img|)
  }

  /** The three places where the source computes with floats whose rounding the model
      does not reproduce; each is supplied from outside:
      - lengthThr(dim, k) is `int(dim * ratios[k])` for ratios 0.08, 0.06, 0.04, 0.025;
      - tolerance(step) is `int(step * 0.35)`;
      - inset(a, b) is `(int(a + (b - a) * 0.35), int(a + (b - a) * 0.65))`. */
  datatype Scaling = Scaling(
    lengthThr: (nat, nat) -> int,
    tolerance: int -> int,
    inset: (int, int) -> (int, int))
}
