/** Colours as the roulette sees them: RGBA with real channels. */
module Colors {

  /** An RGBA colour; channels are reals (the engine stores 32-bit floats). */
  datatype Color = Color(r: real, g: real, b: real, a: real)

  /** The hit colour every wheel is painted with at setup: mid grey, opaque. */
  const HitGrey: Color := Color(0.5, 0.5, 0.5, 1.0)

  /** The miss colour every wheel is painted with at setup: opaque black. */
  const MissBlack: Color := Color(0.0, 0.0, 0.0, 1.0)

  /** An opaque grey: red, green and blue agree and alpha is one. */
  predicate IsOpaqueGrey(c: Color) {
    c.r == c.g == c.b && c.a == 1.0
  }

  /** The grey of a given brightness. */
  function Grey(brightness: real): (c: Color)
    ensures IsOpaqueGrey(c) && c.r == brightness
  {
    Color(brightness, brightness, brightness, 1.0)
  }

  /** Red, green and blue all lie in [0, 1]. */
  predicate UnitChannels(c: Color) {
    0.0 <= c.r <= 1.0 && 0.0 <= c.g <= 1.0 && 0.0 <= c.b <= 1.0
  }

  /**
   * A grayscale measure maps colours with unit channels into [0, 1]. The
   * engine's own grayscale formula is not visible, so it is passed around as
   * a parameter and the properties that need a bound ask for this one.
   */
  ghost predicate UnitGrayscale(gray: Color -> real) {
    forall c :: UnitChannels(c) ==> 0.0 <= gray(c) <= 1.0
  }

  /** The hypothesis is met, for one, by the plain mean of red, green and blue. */
  lemma MeanIsUnitGrayscale()
    ensures UnitGrayscale((c: Color) => (c.r + c.g + c.b) / 3.0)
  {
  }
}

/** Injected randomness: the engine's random draws become explicit values. */
module Rand {

  /** A uniform draw in [0, 1]; a float range draw interpolates with it. */
  type Unit = x: real | 0.0 <= x <= 1.0

  /** An integer draw from the half-open range 0..4. */
  type Die = k: int | 0 <= k < 5

  /** A float draw from [lo, hi] driven by the unit draw `u`. */
  function RangeFloat(lo: real, hi: real, u: Unit): (x: real)
    ensures lo <= hi ==> lo <= x <= hi
    ensures hi <= lo ==> hi <= x <= lo
    ensures u == 0.0 ==> x == lo
    ensures u == 1.0 ==> x == hi
  {
    var p := u * (hi - lo);
    ScaleWithin(u, hi - lo);
    lo + p
  }

  /** A unit multiple of `d` lies between zero and `d`. */
  lemma ScaleWithin(u: Unit, d: real)
    ensures 0.0 <= d ==> 0.0 <= u * d <= d
    ensures d <= 0.0 ==> d <= u * d <= 0.0
  {
    var p := u * d;
    var q := (1.0 - u) * d;
    assert q == d - p;
    if 0.0 <= d {
      MulNonNegative(u, d);
      MulNonNegative(1.0 - u, d);
    } else {
      MulNonNegative(u, -d);
      MulNonNegative(1.0 - u, -d);
      assert u * -d == -p;
      assert (1.0 - u) * -d == -q;
    }
  }

  lemma MulNonNegative(x: real, y: real)
    requires 0.0 <= x && 0.0 <= y
    ensures 0.0 <= x * y
  {
  }
}
