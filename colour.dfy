/**
 * Colour arithmetic of the visualiser (frontend.py): `lerp`, `mix_color`,
 * the amplitude clamp, and the inner-colour themes with their fallback.
 */
module Colour {

  /** An RGB triple as the HUD builds it. */
  datatype Rgb = Rgb(r: int, g: int, b: int)

  /** A colour pygame accepts: every channel in 0..255. */
  predicate ValidRgb(c: Rgb) {
    0 <= c.r <= 255 && 0 <= c.g <= 255 && 0 <= c.b <= 255
  }

  /** Python's `int()` of a float: truncation toward zero. */
  function Trunc(x: real): (n: int)
    ensures x >= 0.0 ==> n == x.Floor
    ensures -1.0 < x - n as real < 1.0
    ensures x >= 0.0 ==> 0 <= n && n as real <= x
    ensures x < 0.0 ==> n <= 0 && x <= n as real
  {
    if x >= 0.0 then x.Floor else -((-x).Floor)
  }

  /** An integer bound that holds of x holds of its truncation. */
  lemma TruncWithin(x: real, lo: int, hi: int)
    requires lo as real <= x <= hi as real
    ensures lo <= Trunc(x) <= hi
  {
  }

  lemma {:induction false} TruncMonotone(x: real, y: real)
    requires x <= y
    ensures Trunc(x) <= Trunc(y)
  {
    if x >= 0.0 {
      assert x.Floor <= y.Floor;
    } else if y < 0.0 {
      assert (-y).Floor <= (-x).Floor;
    }
  }

  /** `lerp(a, b, t)`. */
  function Lerp(a: int, b: int, t: real): int {
    Trunc(a as real + (b - a) as real * t)
  }

  function Min(a: int, b: int): int { if a <= b then a else b }
  function Max(a: int, b: int): int { if a <= b then b else a }

  /** For t in [0, 1] the blend lies between its ends, and meets them at 0 and 1. */
  lemma LerpBetween(a: int, b: int, t: real)
    requires 0.0 <= t <= 1.0
    ensures Min(a, b) <= Lerp(a, b, t) <= Max(a, b)
    ensures t == 0.0 ==> Lerp(a, b, t) == a
    ensures t == 1.0 ==> Lerp(a, b, t) == b
  {
    LerpRange(a, b, t);
    TruncWithin(a as real + (b - a) as real * t, Min(a, b), Max(a, b));
    if t == 0.0 {
      LerpEnds(a, b);
    } else if t == 1.0 {
      LerpEnds(a, b);
    }
  }

  lemma LerpRange(a: int, b: int, t: real)
    requires 0.0 <= t <= 1.0
    ensures Min(a, b) as real <= a as real + (b - a) as real * t <= Max(a, b) as real
  {
    var d := (b - a) as real;
    if a <= b {
      ScaleUnit(d, t);
    } else {
      ScaleUnit(-d, t);
      assert d * t == -((-d) * t);
    }
  }

  lemma LerpEnds(a: int, b: int)
    ensures Lerp(a, b, 0.0) == a && Lerp(a, b, 1.0) == b
  {
    assert (b - a) as real * 0.0 == 0.0;
    assert (b - a) as real * 1.0 == (b - a) as real;
  }

  lemma ScaleUnit(d: real, t: real)
    requires 0.0 <= d && 0.0 <= t <= 1.0
    ensures 0.0 <= d * t <= d
  {
    assert d * (1.0 - t) >= 0.0;
  }

  /** A brighter blend factor never moves a channel back toward its start. */
  lemma LerpMonotone(a: int, b: int, t1: real, t2: real)
    requires a <= b && t1 <= t2
    ensures Lerp(a, b, t1) <= Lerp(a, b, t2)
  {
    assert (b - a) as real * t1 <= (b - a) as real * t2;
    TruncMonotone(a as real + (b - a) as real * t1, a as real + (b - a) as real * t2);
  }

  /** `mix_color(c1, c2, t)`: channel by channel. */
  function MixColor(c1: Rgb, c2: Rgb, t: real): Rgb {
    Rgb(Lerp(c1.r, c2.r, t), Lerp(c1.g, c2.g, t), Lerp(c1.b, c2.b, t))
  }

  /** Blending two valid colours gives a valid colour between them, c1 at 0 and c2 at 1. */
  lemma MixBetween(c1: Rgb, c2: Rgb, t: real)
    requires ValidRgb(c1) && ValidRgb(c2) && 0.0 <= t <= 1.0
    ensures ValidRgb(MixColor(c1, c2, t))
    ensures Min(c1.r, c2.r) <= MixColor(c1, c2, t).r <= Max(c1.r, c2.r)
    ensures Min(c1.g, c2.g) <= MixColor(c1, c2, t).g <= Max(c1.g, c2.g)
    ensures Min(c1.b, c2.b) <= MixColor(c1, c2, t).b <= Max(c1.b, c2.b)
    ensures t == 0.0 ==> MixColor(c1, c2, t) == c1
    ensures t == 1.0 ==> MixColor(c1, c2, t) == c2
  {
    LerpBetween(c1.r, c2.r, t);
    LerpBetween(c1.g, c2.g, t);
    LerpBetween(c1.b, c2.b, t);
  }

  /** `min(max(amplitude, 0.0), 1.0)`. */
  function ClampUnit(a: real): (c: real)
    ensures 0.0 <= c <= 1.0
    ensures 0.0 <= a <= 1.0 ==> c == a
    ensures a < 0.0 ==> c == 0.0
    ensures a > 1.0 ==> c == 1.0
  {
    if a < 0.0 then 0.0 else if a > 1.0 then 1.0 else a
  }

  // -------------------------------------------------------------- themes

  /** One entry of THEMES: a name and the inner colours at silence and at full voice. */
  datatype Theme = Theme(name: string, quiet: Rgb, loud: Rgb)

  const THEMES: map<int, Theme> := map[
    1 := Theme("Orange / Gold", Rgb(230, 120, 20), Rgb(255, 230, 80)),
    2 := Theme("Neon Purple", Rgb(160, 80, 255), Rgb(255, 140, 255)),
    3 := Theme("Battle Red", Rgb(230, 230, 230), Rgb(255, 80, 80)),
    4 := Theme("Bio Scanner", Rgb(40, 200, 80), Rgb(220, 255, 140))
  ]

  /** `THEMES.get(current_theme, THEMES[1])`. */
  function ThemeOf(n: int): Theme {
    if n in THEMES then THEMES[n] else THEMES[1]
  }

  /** The lookup never fails: themes 1 to 4 are themselves, any other number is theme 1. */
  lemma ThemeLookup(n: int)
    ensures 1 <= n <= 4 ==> ThemeOf(n) == THEMES[n]
    ensures !(1 <= n <= 4) ==> ThemeOf(n) == THEMES[1]
    ensures ValidRgb(ThemeOf(n).quiet) && ValidRgb(ThemeOf(n).loud)
  {
    assert THEMES.Keys == {1, 2, 3, 4};
  }

  /** The inner HUD colour for an amplitude curve value. */
  function InnerColour(theme: int, ampVisual: real): Rgb {
    MixColor(ThemeOf(theme).quiet, ThemeOf(theme).loud, ampVisual)
  }

  /** The inner colour is always drawable and goes from the quiet to the loud colour. */
  lemma InnerColourValid(theme: int, ampVisual: real)
    requires 0.0 <= ampVisual <= 1.0
    ensures ValidRgb(InnerColour(theme, ampVisual))
    ensures ampVisual == 0.0 ==> InnerColour(theme, ampVisual) == ThemeOf(theme).quiet
    ensures ampVisual == 1.0 ==> InnerColour(theme, ampVisual) == ThemeOf(theme).loud
  {
    ThemeLookup(theme);
    MixBetween(ThemeOf(theme).quiet, ThemeOf(theme).loud, ampVisual);
  }
}
