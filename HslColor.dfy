/** The HSL colour value and its linear interpolation (HslColor.cs). */
module HslColors {

  /** Hue, saturation and lightness; the source stores each as a float. */
  datatype HslColor = HslColor(hue: real, saturation: real, lightness: real)

  /** `x` lies in the closed interval spanned by `a` and `b`, in either order. */
  predicate Between(a: real, b: real, x: real) {
    (a <= x <= b) || (b <= x <= a)
  }

  /** One channel of the interior blend. */
  function Mix(a: real, b: real, t: real): real {
    a + t * (b - a)
  }

  /** Scaling by a non-negative factor keeps the order of two numbers. */
  lemma ScaleMonotone(k: real, x: real, y: real)
    requires 0.0 <= k && x <= y
    ensures x * k <= y * k
  {
    assert y * k - x * k == (y - x) * k;
  }

  lemma MixBetween(a: real, b: real, t: real)
    requires 0.0 < t < 1.0
    ensures Between(a, b, Mix(a, b, t))
  {
    var d := if a <= b then b - a else a - b;
    ScaleMonotone(d, t, 1.0);
    ScaleMonotone(d, 0.0, t);
    assert 0.0 <= t * d <= d;
    if a <= b {
      assert Mix(a, b, t) == a + t * d;
    } else {
      assert Mix(a, b, t) == a - t * d;
    }
  }

  /** Componentwise linear interpolation that holds at `col1` for t <= 0 and
      at `col2` for t >= 1; hue is blended as a plain number, with no
      wrap-around on the colour wheel. */
  function Lerp(col1: HslColor, col2: HslColor, t: real): (r: HslColor)
    ensures t <= 0.0 ==> r == col1
    ensures t >= 1.0 ==> r == col2
    ensures Between(col1.hue, col2.hue, r.hue)
    ensures Between(col1.saturation, col2.saturation, r.saturation)
    ensures Between(col1.lightness, col2.lightness, r.lightness)
  {
    if t <= 0.0 then col1
    else if t >= 1.0 then col2
    else
      MixBetween(col1.hue, col2.hue, t);
      MixBetween(col1.saturation, col2.saturation, t);
      MixBetween(col1.lightness, col2.lightness, t);
      HslColor(Mix(col1.hue, col2.hue, t),
               Mix(col1.saturation, col2.saturation, t),
               Mix(col1.lightness, col2.lightness, t))
  }

  /** Strictly inside (0, 1) every channel is `c1 + t * (c2 - c1)`. */
  lemma LerpInterior(col1: HslColor, col2: HslColor, t: real)
    requires 0.0 < t < 1.0
    ensures Lerp(col1, col2, t).hue == col1.hue + t * (col2.hue - col1.hue)
    ensures Lerp(col1, col2, t).saturation == col1.saturation + t * (col2.saturation - col1.saturation)
    ensures Lerp(col1, col2, t).lightness == col1.lightness + t * (col2.lightness - col1.lightness)
  {
  }

  /** Blending a colour with itself gives that colour, whatever `t` is. */
  lemma LerpSame(c: HslColor, t: real)
    ensures Lerp(c, c, t) == c
  {
  }

  /** Swapping the endpoints mirrors the parameter: the blend from `col1` to
      `col2` at `t` is the blend from `col2` to `col1` at `1 - t`. */
  lemma LerpReverse(col1: HslColor, col2: HslColor, t: real)
    ensures Lerp(col1, col2, t) == Lerp(col2, col1, 1.0 - t)
  {
    if 0.0 < t < 1.0 {
      MixReverse(col1.hue, col2.hue, t);
      MixReverse(col1.saturation, col2.saturation, t);
      MixReverse(col1.lightness, col2.lightness, t);
    }
  }

  lemma MixReverse(a: real, b: real, t: real)
    ensures Mix(a, b, t) == Mix(b, a, 1.0 - t)
  {
    calc {
      Mix(b, a, 1.0 - t);
      b + (1.0 - t) * (a - b);
      b + (a - b) - t * (a - b);
      a + t * (b - a);
    }
  }

  /** Along a blend whose hue rises, the hue never decreases as `t` grows. */
  lemma LerpHueMonotone(col1: HslColor, col2: HslColor, t1: real, t2: real)
    requires col1.hue <= col2.hue
    requires t1 <= t2
    ensures Lerp(col1, col2, t1).hue <= Lerp(col1, col2, t2).hue
  {
    if 0.0 < t1 < 1.0 && 0.0 < t2 < 1.0 {
      MixMonotone(col1.hue, col2.hue, t1, t2);
      assert Lerp(col1, col2, t1).hue == Mix(col1.hue, col2.hue, t1);
      assert Lerp(col1, col2, t2).hue == Mix(col1.hue, col2.hue, t2);
    }
  }

  lemma MixMonotone(a: real, b: real, t1: real, t2: real)
    requires a <= b && t1 <= t2
    ensures Mix(a, b, t1) <= Mix(a, b, t2)
  {
    ScaleMonotone(b - a, t1, t2);
  }

  /** Hue is not taken the short way round: from 0.9 to 0.1, the midpoint is
      0.5 and not 0.0. */
  lemma LerpHueDoesNotWrap(s: real, l: real)
    ensures Lerp(HslColor(0.9, s, l), HslColor(0.1, s, l), 0.5) == HslColor(0.5, s, l)
  {
  }
}
