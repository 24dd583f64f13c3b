/** Small facts about multiplication and division that the solver does not find
    on its own; the progress and ranking proofs lean on them. */
module Arith {

  lemma MulMonotone(a: real, b: real, k: real)
    requires a <= b && k >= 0.0
    ensures a * k <= b * k
  {
  }

  lemma MulStrict(a: real, b: real, k: real)
    requires a < b && k > 0.0
    ensures a * k < b * k
  {
  }

  lemma DivMonotone(a: real, b: real, k: real)
    requires a <= b && k > 0.0
    ensures a / k <= b / k
  {
    assert b / k - a / k == (b - a) / k;
  }

  lemma DivCancel(a: real, k: real)
    requires k > 0.0
    ensures (a / k) * k == a
  {
  }

  lemma CastMul(a: int, b: int)
    ensures (a * b) as real == a as real * b as real
  {
  }

  lemma IntMulMonotone(a: int, b: int, k: int)
    requires a <= b && k >= 0
    ensures a * k <= b * k
  {
  }

  lemma IntMulStrict(a: int, b: int, k: int)
    requires a < b && k > 0
    ensures a * k < b * k
  {
  }

  lemma IntMulAtLeast(k: int, d: int)
    requires d > 0 && k >= 1
    ensures k * d >= d
  {
  }

  lemma IntDistrib(a: int, b: int, d: int)
    ensures a * d - b * d == (a - b) * d
  {
  }

  lemma DivBounds(num: int, den: int)
    requires den > 0
    ensures (num / den) * den <= num < (num / den) * den + den
  {
  }

  /** Integer division by a positive divisor preserves order. */
  lemma DivMonotoneInt(a: int, b: int, d: int)
    requires a <= b && d > 0
    ensures a / d <= b / d
  {
    var q1, q2 := a / d, b / d;
    DivBounds(a, d);
    DivBounds(b, d);
    if q1 > q2 {
      IntMulMonotone(q2 + 1, q1, d);
      assert false;
    }
  }

  /** The quotient of `a` by `d > 0` is the `q` with `q * d <= a < q * d + d`. */
  lemma DivisionUnique(a: int, d: int, q: int)
    requires d > 0 && q * d <= a < q * d + d
    ensures a / d == q
  {
    var q' := a / d;
    var r := a % d;
    assert a == q' * d + r && 0 <= r < d;
    IntDistrib(q', q, d);
    if q' > q {
      IntMulAtLeast(q' - q, d);
    } else if q' < q {
      IntMulAtLeast(q - q', d);
      IntDistrib(q, q', d);
    }
  }
}
