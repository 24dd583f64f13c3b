/** `createProgressBar(current, total, width = 40)` (index.js:10-18): a bar of
    `round(current / total * width)` filled glyphs followed by empty glyphs, and
    the percentage printed with one decimal. Arithmetic is exact: the quotient
    is a `real`, `Math.round` rounds halves up and `toFixed` is modelled by the
    decimal value it denotes. */
module Progress {
  import opened Arith

  /** The default bar width. */
  const BarWidth: nat := 40

  /** `Math.round`: the nearest integer, halves rounded towards +infinity. */
  function RoundHalfUp(x: real): (n: int)
    ensures n as real - 0.5 <= x < n as real + 0.5
  {
    (x + 0.5).Floor
  }

  lemma RoundHalfUpMonotone(x: real, y: real)
    requires x <= y
    ensures RoundHalfUp(x) <= RoundHalfUp(y)
  {
  }

  function Pow10(d: nat): (p: nat)
    ensures p >= 1
  {
    if d == 0 then 1 else 10 * Pow10(d - 1)
  }

  /** The number that `x.toFixed(digits)` writes out: `x` rounded to `digits`
      decimals, ties going up. It is within half a unit of the last place of `x`. */
  function ToFixed(x: real, digits: nat): real {
    RoundTo(x, Pow10(digits) as real)
  }

  /** `x` rounded to the nearest multiple of `1 / p`, ties going up. */
  function RoundTo(x: real, p: real): real
    requires p > 0.0
  {
    RoundHalfUp(x * p) as real / p
  }

  /** `x.toFixed(digits)` is within half a unit in the last place of `x`. */
  lemma ToFixedClose(x: real, digits: nat)
    ensures -0.5 < (ToFixed(x, digits) - x) * Pow10(digits) as real <= 0.5
  {
    RoundToClose(x, Pow10(digits) as real);
  }

  lemma RoundToClose(x: real, p: real)
    requires p > 0.0
    ensures -0.5 < (RoundTo(x, p) - x) * p <= 0.5
  {
    var n := RoundHalfUp(x * p) as real;
    DivCancel(n, p);
    assert (n / p - x) * p == n - x * p;
  }

  /** Rounding to a fixed number of decimals never reverses an order. */
  lemma ToFixedMonotone(x: real, y: real, digits: nat)
    requires x <= y
    ensures ToFixed(x, digits) <= ToFixed(y, digits)
  {
    RoundedQuotientMonotone(x, y, Pow10(digits) as real);
  }

  lemma RoundedQuotientMonotone(x: real, y: real, p: real)
    requires x <= y && p > 0.0
    ensures RoundTo(x, p) <= RoundTo(y, p)
  {
    var xp, yp := x * p, y * p;
    assert xp <= yp;
    RoundHalfUpMonotone(xp, yp);
    DivMonotone(RoundHalfUp(xp) as real, RoundHalfUp(yp) as real, p);
  }

  /** `current / total`. */
  function Fraction(current: nat, total: nat): real
    requires 0 < total
  {
    current as real / total as real
  }

  /** `Math.round((current / total) * width)` over exact rationals: the integer
      nearest to `current * width / total`, ties going up, which is
      `(2 * current * width + total) div (2 * total)`. It never exceeds the width,
      is 0 at the start and the full width at the end. */
  function FilledCount(current: nat, total: nat, width: nat): (n: nat)
    requires 0 < total && current <= total
    ensures n <= width
    ensures -(total as int) < 2 * (n * total - current * width) <= total
    ensures current == 0 ==> n == 0
    ensures current == total ==> n == width
  {
    FilledBounds(current, total, width);
    (2 * current * width + total) / (2 * total)
  }

  lemma FilledBounds(current: nat, total: nat, width: nat)
    requires 0 < total && current <= total
    ensures var n := (2 * current * width + total) / (2 * total);
      && 0 <= n <= width
      && -(total as int) < 2 * (n * total - current * width) <= total
      && (current == 0 ==> n == 0)
      && (current == total ==> n == width)
  {
    FilledNearest(current, total, width);
    FilledWithinWidth(current, total, width);
    FilledEnds(current, total, width);
  }

  lemma FilledNearest(current: nat, total: nat, width: nat)
    requires 0 < total && current <= total
    ensures var n := (2 * current * width + total) / (2 * total);
      -(total as int) < 2 * (n * total - current * width) <= total
  {
    var num, den := 2 * current * width + total, 2 * total;
    var n := num / den;
    DivBounds(num, den);
    var nt, cw := n * total, current * width;
    assert n * den == 2 * nt;
    assert num == 2 * cw + total;
  }

  lemma FilledWithinWidth(current: nat, total: nat, width: nat)
    requires 0 < total && current <= total
    ensures 0 <= (2 * current * width + total) / (2 * total) <= width
  {
    var num, den := 2 * current * width + total, 2 * total;
    var n := num / den;
    DivBounds(num, den);
    IntMulMonotone(current, total, width);
    var cw, tw := current * width, total * width;
    assert num == 2 * cw + total;
    assert (width + 1) * den == 2 * tw + den;
    assert num < (width + 1) * den;
    if n > width {
      IntMulMonotone(width + 1, n, den);
      assert false;
    }
    if n < 0 {
      IntMulMonotone(n, -1, den);
      assert false;
    }
  }

  lemma FilledEnds(current: nat, total: nat, width: nat)
    requires 0 < total && current <= total
    ensures var n := (2 * current * width + total) / (2 * total);
      && (current == 0 ==> n == 0)
      && (current == total ==> n == width)
  {
    var num, den := 2 * current * width + total, 2 * total;
    if current == 0 {
      assert num == total;
      DivisionUnique(num, den, 0);
    }
    if current == total {
      var tw := total * width;
      assert num == 2 * tw + total;
      assert width * den == 2 * tw;
      DivisionUnique(num, den, width);
    }
  }

  /** A larger count never shows a shorter bar. */
  lemma FilledMonotone(c1: nat, c2: nat, total: nat, width: nat)
    requires 0 < total && c1 <= c2 <= total
    ensures FilledCount(c1, total, width) <= FilledCount(c2, total, width)
  {
    var d := 2 * total;
    var a, b := 2 * c1 * width + total, 2 * c2 * width + total;
    IntMulMonotone(c1, c2, width);
    assert a <= b;
    DivMonotoneInt(a, b, d);
  }

  /** `FilledCount` is `Math.round` of the exact quotient: it differs from
      `current / total * width` by at most one half, and a tie is rounded up. */
  lemma FilledIsNearest(current: nat, total: nat, width: nat)
    requires 0 < total && current <= total
    ensures var x := Fraction(current, total) * width as real;
      FilledCount(current, total, width) as real - 0.5 <= x < FilledCount(current, total, width) as real + 0.5
  {
    var n := FilledCount(current, total, width);
    var t, c, w := total as real, current as real, width as real;
    var x := Fraction(current, total) * w;
    CastBounds(n, total, current, width);
    assert x * t == c * w by {
      DivCancel(c, t);
      assert x * t == (c / t * t) * w;
    }
    RoundingFromScaled(x, n as real, t, c * w);
  }

  lemma CastBounds(n: int, t: int, c: int, w: int)
    requires t > 0
    requires -t < 2 * (n * t - c * w) <= t
    ensures -(t as real) < 2.0 * (n as real * t as real - c as real * w as real) <= t as real
  {
    var a, b := n * t, c * w;
    CastMul(n, t);
    CastMul(c, w);
    assert -(t as real) < 2.0 * (a as real - b as real) <= t as real;
  }

  /** Dividing the scaled bounds `-t < 2 (n t - v) <= t` by `t`, where `x t == v`. */
  lemma RoundingFromScaled(x: real, n: real, t: real, v: real)
    requires t > 0.0 && x * t == v
    requires -t < 2.0 * (n * t - v) <= t
    ensures n - 0.5 <= x < n + 0.5
  {
    if x < n - 0.5 {
      MulStrict(x, n - 0.5, t);
    }
    if x >= n + 0.5 {
      MulMonotone(n + 0.5, x, t);
    }
  }

  /** The percentage shown beside the bar: `((current / total) * 100).toFixed(1)`. */
  function Percentage(current: nat, total: nat): (pct: real)
    requires 0 < total
    ensures -0.05 < pct - Fraction(current, total) * 100.0 <= 0.05
  {
    var x := Fraction(current, total) * 100.0;
    ToFixedClose(x, 1);
    assert Pow10(1) == 10;
    ToFixed(x, 1)
  }

  /** The glyph counts of the bar and the percentage it prints. */
  datatype Bar = Bar(filled: nat, empty: nat, percent: real)

  /** The bar for `current` of `total` units. `total` is positive and `current`
      at most `total` at every call: with `current > total` the empty count would
      be negative and `repeat` would throw. The two counts always fill the width. */
  function CreateProgressBar(current: nat, total: nat, width: nat): (b: Bar)
    requires 0 < total && current <= total
    ensures b.filled + b.empty == width
    ensures -(total as int) < 2 * (b.filled * total - current * width) <= total
    ensures current == 0 ==> b.filled == 0
    ensures current == total ==> b.empty == 0
    ensures -0.05 < b.percent - Fraction(current, total) * 100.0 <= 0.05
  {
    var n := FilledCount(current, total, width);
    Bar(n, width - n, Percentage(current, total))
  }

  /** The bar drawn as text: the filled glyphs, then the empty ones. */
  function Render(b: Bar): (s: string)
    ensures |s| == b.filled + b.empty
    ensures forall i :: 0 <= i < |s| ==> (s[i] == '\U{2588}' <==> i < b.filled)
    ensures forall i :: 0 <= i < |s| ==> (s[i] == '\U{2591}' <==> b.filled <= i)
  {
    seq(b.filled, _ => '\U{2588}') + seq(b.empty, _ => '\U{2591}')
  }

  /** 50 of 200 units on a 40-glyph bar: 10 filled, 30 empty, "25.0%". */
  lemma BarExample()
    ensures CreateProgressBar(50, 200, 40) == Bar(10, 30, 25.0)
  {
    assert Pow10(1) == 10;
    assert FilledCount(50, 200, 40) == 10;
    assert (50.0 / 200.0 * 100.0 * 10.0 + 0.5).Floor == 250;
  }
}
