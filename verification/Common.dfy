/** Result types shared by every module. */
module Common {

  datatype Option<+T> = None | Some(value: T)

  /** The outcome of an operation that the program ends by raising `E` or by returning a value. */
  datatype Result<+T, +E> = Ok(value: T) | Err(error: E)

  /** The ceiling of a real, as Python's math.ceil. */
  function Ceil(x: real): (c: int)
    ensures (c - 1) as real < x <= c as real
  {
    -((-x).Floor)
  }

  function MinReal(a: real, b: real): real { if a <= b then a else b }

  function MaxReal(a: real, b: real): real { if a >= b then a else b }

  function MinInt(a: int, b: int): int { if a <= b then a else b }

  function MaxInt(a: int, b: int): int { if a >= b then a else b }

  function Pow2(k: nat): (r: nat)
    ensures r >= 1
  {
    if k == 0 then 1 else 2 * Pow2(k - 1)
  }

  /** Scaling by a non-negative factor keeps an order. */
  lemma ScaledOrder(a: real, b: real, scale: real)
    requires a <= b && scale >= 0.0
    ensures a * scale <= b * scale
  {
    assert (b - a) * scale == b * scale - a * scale;
  }

  /** Scaling by a positive factor keeps a strict order, and adds none. */
  lemma ScaledStrictly(a: real, b: real, scale: real)
    requires scale > 0.0
    ensures a < b <==> a * scale < b * scale
  {
    if a < b {
      assert (b - a) * scale == b * scale - a * scale;
      assert (b - a) * scale > 0.0;
    } else {
      ScaledOrder(b, a, scale);
    }
  }

  /** A quotient is below a bound exactly when its numerator is below the bound scaled by the divisor. */
  lemma QuotientBelow(a: real, b: real, bound: real)
    requires b > 0.0
    ensures a / b < bound <==> a < bound * b
  {
    var q := a / b;
    assert q * b == a;
    ScaledStrictly(q, bound, b);
  }

  /** Python's str.strip() leaves nothing. */
  predicate Blank(s: string) {
    forall c | c in s :: Space(c)
  }

  /** The characters that Python's str.strip removes. */
  predicate Space(c: char) {
    || '\U{0009}' <= c <= '\U{000D}' || '\U{001C}' <= c <= '\U{0020}' || c == '\U{0085}' || c == '\U{00A0}'
    || c == '\U{1680}' || '\U{2000}' <= c <= '\U{200A}' || c == '\U{2028}' || c == '\U{2029}' || c == '\U{202F}'
    || c == '\U{205F}' || c == '\U{3000}'
  }

  /** White space by code: the five controls of a line, the four separators, the blank, and the wider spaces. */
  lemma SpaceByCode(c: char)
    ensures Space(c) <==>
      || c as int in {9, 10, 11, 12, 13, 28, 29, 30, 31, 32, 133, 160, 5760, 8232, 8233, 8239, 8287, 12288}
      || c as int - 8192 in {0, 1, 2, 3, 4, 5, 6, 7, 8, 9, 10}
  {
  }

  /** The lesser and the greater of two are one of them, and on the right side of both. */
  lemma ExtremesOfTwo(a: int, b: int, x: real, y: real)
    ensures MinInt(a, b) in {a, b} && MinInt(a, b) <= a && MinInt(a, b) <= b
    ensures MaxInt(a, b) in {a, b} && MaxInt(a, b) >= a && MaxInt(a, b) >= b
    ensures MinReal(x, y) in {x, y} && MinReal(x, y) <= x && MinReal(x, y) <= y
    ensures MaxReal(x, y) in {x, y} && MaxReal(x, y) >= x && MaxReal(x, y) >= y
  {
  }
}
