/**
 * Angle arithmetic of the roulette. Wheel angles are unbounded reals in
 * degrees; they are wrapped into one turn only when they are read.
 */
module Angles {

  /** Degrees in one full turn, and entries in a colour table. */
  const Turn := 360

  /** The top mark (12 o'clock) sits 90 degrees from the zero direction. */
  const TopOffset := 90.0

  /**
   * The engine's `Repeat(t, 360)`: `t` minus the whole turns below it, so
   * the result lies in [0, 360). Its final clamp to [0, 360] never applies
   * over the reals.
   */
  function Wrap(t: real): (w: real)
    ensures 0.0 <= w < 360.0
  {
    t - (t / 360.0).Floor as real * 360.0
  }

  /** The colour-table index that a wheel turned by `angle` shows at the top mark. */
  function TopIndex(angle: real): (i: int)
    ensures 0 <= i < Turn
  {
    Wrap(TopOffset - angle).Floor
  }

  /** Floor is pinned down by the unit interval it falls in. */
  lemma FloorUnique(x: real, n: int)
    requires n as real <= x < n as real + 1.0
    ensures x.Floor == n
  {
  }

  /**
   * Reference reading of the top index: the whole degree below `90 - angle`,
   * reduced modulo one turn.
   */
  lemma {:induction false} TopIndexIsFloorMod(angle: real)
    ensures TopIndex(angle) == (TopOffset - angle).Floor % Turn
  {
    var x := TopOffset - angle;
    var n := x.Floor;
    var q := (x / 360.0).Floor;
    assert q as real * 360.0 <= x < q as real * 360.0 + 360.0;
    assert q * 360 <= n < q * 360 + 360;
    FloorUnique(Wrap(x), n - q * 360);
    assert n % 360 == n - q * 360;
  }

  /** Whole turns of a wheel do not change the index shown at the top mark. */
  lemma {:induction false} TopIndexFullTurns(angle: real, k: int)
    ensures TopIndex(angle + 360.0 * k as real) == TopIndex(angle)
  {
    var x := TopOffset - angle;
    var y := TopOffset - (angle + 360.0 * k as real);
    assert y == x - 360.0 * k as real;
    FloorUnique(y, x.Floor - 360 * k);
    TopIndexIsFloorMod(angle);
    TopIndexIsFloorMod(angle + 360.0 * k as real);
    var n := x.Floor;
    ModUnique(n - 360 * k, n / 360 - k, n % 360);
  }

  /** Euclidean remainder by one turn is determined by any matching split. */
  lemma ModUnique(n: int, q: int, r: int)
    requires n == q * 360 + r && 0 <= r < 360
    ensures n % 360 == r
  {
  }

  /** For a whole-degree angle the top index is `(90 - angle) mod 360`. */
  lemma {:induction false} TopIndexWholeDegrees(angle: int)
    ensures TopIndex(angle as real) == (90 - angle) % Turn
  {
    TopIndexIsFloorMod(angle as real);
    FloorUnique(TopOffset - angle as real, 90 - angle);
  }
}
