/** From pixels to the 0..4095 axes of the chip's absolute mouse. */
module Ch9329Scale {
  import opened Wrappers

  const ABS_MAX := 4095

  function Clamp(v: int, lo: int, hi: int): int {
    if v < lo then lo else if v > hi then hi else v
  }

  /** num / den to the nearest integer, a tie to the even one. */
  function RoundHalfEven(num: nat, den: int): nat
    requires den > 0
  {
    var q, r := num / den, num % den;
    if 2 * r < den || (2 * r == den && q % 2 == 0) then q else q + 1
  }

  /** One axis of n pixels; outside pixels go to the edge. */
  function Axis(v: int, n: int): nat
    requires n >= 1
  {
    RoundHalfEven(Clamp(v, 0, n - 1) * ABS_MAX, if n > 1 then n - 1 else 1)
  }

  /** r is nearest to num / den, and even when two are. */
  predicate Nearest(num: int, den: int, r: int) {
    && -den <= 2 * (r * den - num) <= den
    && ((2 * (r * den - num) == den || 2 * (r * den - num) == -den) ==> r % 2 == 0)
  }

  lemma RoundsToNearest(num: nat, den: int)
    requires den > 0
    ensures Nearest(num, den, RoundHalfEven(num, den))
  {
    var q, r := num / den, num % den;
    assert num == q * den + r;
    assert (q + 1) * den == q * den + den;
  }

  /** There is only one such integer, and it grows with the numerator. */
  lemma NearestGrows(a: int, b: int, den: int, r: int, s: int)
    requires den > 0 && a <= b && Nearest(a, den, r) && Nearest(b, den, s)
    ensures r <= s
  {
    Spread(r, s, den);
    assert (s + 1) * den == s * den + den;
    NearestGap(a, b, den, r, s, r * den, s * den);
  }

  /** The same over the products, where it is linear. */
  lemma NearestGap(a: int, b: int, den: int, r: int, s: int, rd: int, sd: int)
    requires den > 0 && a <= b && rd == r * den && sd == s * den
    requires -den <= 2 * (rd - a) <= den && (2 * (rd - a) == den ==> r % 2 == 0)
    requires -den <= 2 * (sd - b) <= den && (2 * (sd - b) == -den ==> s % 2 == 0)
    requires r > s + 1 ==> rd - sd >= 2 * den
    requires r == s + 1 ==> rd == sd + den
    ensures r <= s
  {}

  /** Multiples of den are den apart. */
  lemma Spread(r: int, s: int, den: int)
    requires den > 0
    ensures r * den - s * den == (r - s) * den
    ensures r > s + 1 ==> r * den - s * den >= 2 * den
    ensures r >= s ==> r * den >= s * den
  {
    var d := r - s;
    assert d * den == r * den - s * den;
    if d >= 2 {
      assert d * den == 2 * den + (d - 2) * den;
      Positive(d - 2, den);
    } else if d >= 0 {
      Positive(d, den);
    }
  }

  lemma Positive(a: int, b: int)
    requires a >= 0 && b >= 0
    ensures a * b >= 0
  {}

  /** A gap of more than den always separates. */
  lemma NearestSeparates(a: int, b: int, den: int, r: int, s: int)
    requires den > 0 && b - a > den && Nearest(a, den, r) && Nearest(b, den, s)
    ensures r < s
  {
    Spread(r, s, den);
  }

  /** Every axis is monotone, in range and hits both ends, except that the only pixel
      of a one-pixel axis is at 0; inside the screen it is the nearest point, ties to
      even. */
  lemma AxisIsFaithful(n: int, v: int, w: int)
    requires n >= 1
    ensures 0 <= Axis(v, n) <= ABS_MAX
    ensures v <= w ==> Axis(v, n) <= Axis(w, n)
    ensures v <= 0 ==> Axis(v, n) == 0
    ensures v >= n - 1 ==> Axis(v, n) == if n > 1 then ABS_MAX else 0
    ensures 0 <= v < n && n > 1 ==> Nearest(v * ABS_MAX, n - 1, Axis(v, n))
  {
    var den := if n > 1 then n - 1 else 1;
    var p, q := Clamp(v, 0, n - 1) * ABS_MAX, Clamp(w, 0, n - 1) * ABS_MAX;
    RoundsToNearest(p, den);
    RoundsToNearest(q, den);
    assert Nearest(0, den, 0);
    assert Nearest(den * ABS_MAX, den, ABS_MAX) by {
      assert ABS_MAX * den == den * ABS_MAX;
    }
    NearestGrows(p, den * ABS_MAX, den, Axis(v, n), ABS_MAX);
    if v <= w {
      NearestGrows(p, q, den, Axis(v, n), Axis(w, n));
    }
    if v <= 0 {
      NearestGrows(p, 0, den, Axis(v, n), 0);
    }
    if n > 1 && v >= n - 1 {
      NearestGrows(den * ABS_MAX, p, den, ABS_MAX, Axis(v, n));
    }
  }

  /** Up to 4096 pixels no two of them are merged... */
  lemma AxisInjective(n: int, v: int, w: int)
    requires 1 <= n <= ABS_MAX + 1 && 0 <= v < w < n
    ensures Axis(v, n) < Axis(w, n)
  {
    RoundsToNearest(v * ABS_MAX, n - 1);
    RoundsToNearest(w * ABS_MAX, n - 1);
    if n - 1 == ABS_MAX {
      assert v * ABS_MAX / ABS_MAX == v && w * ABS_MAX / ABS_MAX == w;
    } else {
      NearestSeparates(v * ABS_MAX, w * ABS_MAX, n - 1, Axis(v, n), Axis(w, n));
    }
  }

  /** ...and above that some two neighbours always are. */
  lemma AxisMerges(n: int) returns (v: int)
    requires n > ABS_MAX + 1
    ensures 0 <= v < v + 1 < n && Axis(v, n) == Axis(v + 1, n)
  {
    v := 0;
    AxisIsFaithful(n, n - 1, n - 1);
    while Axis(v, n) != Axis(v + 1, n)
      invariant 0 <= v < n - 1 && Axis(v, n) >= v
      decreases n - v
    {
      AxisIsFaithful(n, v, v + 1);
      v := v + 1;
    }
  }

  datatype Screen = Screen(w: int, h: int)

  datatype Point = Point(x: nat, y: nat)

  function ToAbsCoords(x: int, y: int, screen: Screen): Option<Point> {
    if screen.w < 1 || screen.h < 1 then None else Some(Point(Axis(x, screen.w), Axis(y, screen.h)))
  }

  /** The first coordinate is scaled by the width and the second by the height: each is
      the nearest of the 4096 places to the pixel, pulled back to the screen if it is
      outside. There is no point on a screen without pixels. */
  lemma CoordsInNumbers(x: int, y: int, screen: Screen)
    ensures ToAbsCoords(x, y, screen).Some? <==> screen.w >= 1 && screen.h >= 1
    ensures screen.w >= 1 && screen.h >= 1 ==>
      var p := ToAbsCoords(x, y, screen).value;
      var onX := if x < 0 then 0 else if x >= screen.w then screen.w - 1 else x;
      var onY := if y < 0 then 0 else if y >= screen.h then screen.h - 1 else y;
      && Nearest(onX * 4095, if screen.w == 1 then 1 else screen.w - 1, p.x)
      && Nearest(onY * 4095, if screen.h == 1 then 1 else screen.h - 1, p.y)
  {
    if screen.w >= 1 && screen.h >= 1 {
      RoundsToNearest(Clamp(x, 0, screen.w - 1) * ABS_MAX, if screen.w > 1 then screen.w - 1 else 1);
      RoundsToNearest(Clamp(y, 0, screen.h - 1) * ABS_MAX, if screen.h > 1 then screen.h - 1 else 1);
    }
  }
}
