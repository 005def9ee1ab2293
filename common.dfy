/** Small shared vocabulary: an optional value and Python's integer arithmetic. */
module Common {

  datatype Option<T> = None | Some(value: T)

  function Abs(x: int): nat { if x < 0 then -x else x }

  function Min(a: int, b: int): int { if a <= b then a else b }

  function Max(a: int, b: int): int { if a >= b then a else b }

  /** Python's `int(a / b)` for a positive divisor: the quotient truncated toward zero
      (exact while |a| stays below 2^53, where the float quotient is exact enough). */
  function TruncDiv(a: int, b: int): int
    requires b > 0
  {
    if a >= 0 then a / b else -((-a) / b)
  }

  /** Cancelling a positive factor from both sides of an inequality. */
  lemma CancelLe(x: int, y: int, k: int)
    requires k > 0 && x * k <= y * k
    ensures x <= y
  {
  }

  lemma CancelLt(x: int, y: int, k: int)
    requires k > 0 && x * k < y * k
    ensures x < y
  {
  }

  lemma DivBetween(a: nat, b: int, lo: int, hi: int)
    requires b > 0 && lo * b <= a <= hi * b
    ensures lo <= a / b <= hi
  {
    var q, r := a / b, a % b;
    assert a == q * b + r && 0 <= r < b;
    assert (q + 1) * b == q * b + b;
    CancelLt(lo, q + 1, b);
    CancelLe(q, hi, b);
  }

  /** A truncated quotient of a value lying between lo*b and hi*b lies between lo and hi:
      this is what keeps every running mean of the source inside the range of its inputs. */
  lemma TruncDivBetween(a: int, b: int, lo: int, hi: int)
    requires b > 0 && lo * b <= a <= hi * b
    ensures lo <= TruncDiv(a, b) <= hi
  {
    if a >= 0 {
      DivBetween(a, b, lo, hi);
    } else {
      assert (-hi) * b <= -a <= (-lo) * b;
      DivBetween(-a, b, -hi, -lo);
    }
  }
}
