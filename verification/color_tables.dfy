/**
 * The two colour-table generators of the roulette controller. A table has
 * one colour per whole degree of the wheel's unrotated frame.
 */
module ColorTables {
  import opened Colors
  import opened Rand
  import opened Angles

  /** A table together with whether generation logged an error. */
  datatype Generated = Generated(colors: seq<Color>, loggedError: bool)

  /** A division count below one is replaced by one. */
  function EffectiveDivisions(divisionCount: int): (d: int)
    ensures 1 <= d
    ensures divisionCount <= 0 ==> d == 1
    ensures 0 < divisionCount ==> d == divisionCount
  {
    if divisionCount <= 0 then 1 else divisionCount
  }

  /**
   * Degrees per stripe: the whole part of 360 over the division count, and
   * at least one degree when there are more divisions than degrees.
   */
  function SegmentSize(divisionCount: int): (size: int)
    ensures 1 <= size <= Turn
    ensures EffectiveDivisions(divisionCount) > Turn ==> size == 1
  {
    var s := Turn / EffectiveDivisions(divisionCount);
    if s == 0 then 1 else s
  }

  /**
   * Stripe table: degree `j` lies in stripe `j / size`; even stripes take
   * `color1` and odd stripes `color2`. Degrees after the last full stripe
   * keep following that parity. A non-positive division count logs an
   * error and is treated as one division.
   */
  function StripeTable(color1: Color, color2: Color, divisionCount: int): (t: Generated)
    ensures |t.colors| == Turn
    ensures forall j :: 0 <= j < Turn ==> t.colors[j] == color1 || t.colors[j] == color2
    ensures t.loggedError <==> divisionCount <= 0
  {
    var size := SegmentSize(divisionCount);
    Generated(seq(Turn, j requires 0 <= j < Turn => if (j / size) % 2 == 0 then color1 else color2),
              divisionCount <= 0)
  }

  /** Stripe `k` of width `size` covers the degrees `k * size .. (k + 1) * size - 1`. */
  lemma StripeOf(j: int, k: int, size: int)
    requires 1 <= size && k * size <= j < (k + 1) * size
    ensures j / size == k
  {
    var q, r := j / size, j % size;
    assert j == q * size + r && 0 <= r < size;
    if q < k {
      assert q * size <= (k - 1) * size by { MulMono(q, k - 1, size); }
    }
  }

  lemma MulMono(a: int, b: int, c: int)
    requires a <= b && 0 <= c
    ensures a * c <= b * c
  {
    assert b * c - a * c == (b - a) * c;
  }

  /**
   * Band reading of a stripe table: every degree of band `k` (cut off at
   * 360) has `color1` when `k` is even and `color2` when it is odd.
   */
  lemma {:induction false} StripeBands(color1: Color, color2: Color, divisionCount: int, k: nat, j: int)
    requires k * SegmentSize(divisionCount) <= j < (k + 1) * SegmentSize(divisionCount)
    requires j < Turn
    ensures StripeTable(color1, color2, divisionCount).colors[j] == (if k % 2 == 0 then color1 else color2)
  {
    var size := SegmentSize(divisionCount);
    assert 0 <= k * size by { MulMono(0, k, size); }
    StripeOf(j, k, size);
  }

  /** One stripe further on, the colour switches to the other one. */
  lemma {:induction false} StripeAlternates(color1: Color, color2: Color, divisionCount: int, j: int)
    requires 0 <= j && j + SegmentSize(divisionCount) < Turn
    ensures var t := StripeTable(color1, color2, divisionCount).colors;
            t[j + SegmentSize(divisionCount)] == (if t[j] == color1 then color2 else color1)
  {
    var size := SegmentSize(divisionCount);
    var t := StripeTable(color1, color2, divisionCount).colors;
    NextStripe(j, size);
    var k := j / size;
    assert t[j] == (if k % 2 == 0 then color1 else color2);
    assert t[j + size] == (if (k + 1) % 2 == 0 then color1 else color2);
  }

  /** Moving one stripe width on moves to the next stripe. */
  lemma NextStripe(j: nat, size: int)
    requires 1 <= size
    ensures (j + size) / size == j / size + 1
  {
    var k := StripeIndex(j, size);
    StripeOf(j, k, size);
    StripeOf(j + size, k + 1, size);
  }

  /** The stripe holding degree `j`, with its bounds and those of the next stripe. */
  lemma StripeIndex(j: nat, size: int) returns (k: nat)
    requires 1 <= size
    ensures k * size <= j < (k + 1) * size
    ensures (k + 1) * size <= j + size < (k + 2) * size
  {
    k := j / size;
    var p := k * size;
    assert j == p + j % size;
    assert (k + 1) * size == p + size by { Distribute(k, size); }
    assert (k + 2) * size == p + size + size by { Distribute(k, size); }
  }

  lemma Distribute(k: int, size: int)
    ensures (k + 1) * size == k * size + size
    ensures (k + 2) * size == k * size + size + size
  {
  }

  /** A non-positive division count paints the same table as one division: all `color1`. */
  lemma {:induction false} StripeNonPositiveIsOneDivision(color1: Color, color2: Color, divisionCount: int)
    requires divisionCount <= 0
    ensures StripeTable(color1, color2, divisionCount).colors == StripeTable(color1, color2, 1).colors
    ensures forall j :: 0 <= j < Turn ==> StripeTable(color1, color2, divisionCount).colors[j] == color1
  {
    forall j | 0 <= j < Turn
      ensures StripeTable(color1, color2, divisionCount).colors[j] == color1
    {
      StripeOf(j, 0, Turn);
    }
  }

  /** More divisions than degrees: one-degree stripes, `color1` on even degrees. */
  lemma {:induction false} StripeFinerThanDegrees(color1: Color, color2: Color, divisionCount: int)
    requires Turn < divisionCount
    ensures forall j :: 0 <= j < Turn ==>
              StripeTable(color1, color2, divisionCount).colors[j] == (if j % 2 == 0 then color1 else color2)
  {
  }

  /**
   * Seven divisions give stripes of 51 degrees; the last three degrees form
   * an eighth, odd stripe and are not repainted with `color1`.
   */
  lemma {:induction false} StripeSevenLeftover(color1: Color, color2: Color)
    ensures SegmentSize(7) == 51
    ensures forall j :: 357 <= j < Turn ==> StripeTable(color1, color2, 7).colors[j] == color2
    ensures StripeTable(color1, color2, 7).colors[356] == color1
  {
    forall j | 357 <= j < Turn
      ensures StripeTable(color1, color2, 7).colors[j] == color2
    {
      StripeOf(j, 7, 51);
    }
    StripeOf(356, 6, 51);
  }

  /**
   * Fourteen divisions give stripes of 25 degrees; the ten degrees after
   * the fourteenth stripe form an even stripe and take `color1`, not `color2`.
   */
  lemma {:induction false} StripeFourteenLeftover(color1: Color, color2: Color)
    ensures SegmentSize(14) == 25
    ensures StripeTable(color1, color2, 14).colors[349] == color2
    ensures forall j :: 350 <= j < Turn ==> StripeTable(color1, color2, 14).colors[j] == color1
  {
    forall j | 350 <= j < Turn
      ensures StripeTable(color1, color2, 14).colors[j] == color1
    {
      StripeOf(j, 14, 25);
    }
    StripeOf(349, 13, 25);
  }

  /** One random draw per degree: a die roll and a brightness draw. */
  datatype Draw = Draw(die: Die, level: Unit)

  /** A die roll of zero gives a brightness from [0.5, 1.0]; anything else gives black. */
  function Brightness(d: Draw): (v: real)
    ensures d.die == 0 ==> 0.5 <= v <= 1.0
    ensures d.die != 0 ==> v == 0.0
  {
    if d.die == 0 then RangeFloat(0.5, 1.0, d.level) else 0.0
  }

  /** Random table: degree `j` is an opaque grey of the brightness drawn for it. */
  function RandomTable(rng: nat -> Draw): (t: seq<Color>)
    ensures |t| == Turn
    ensures forall j :: 0 <= j < Turn ==> IsOpaqueGrey(t[j]) && UnitChannels(t[j])
    ensures forall j :: 0 <= j < Turn ==> t[j].r == 0.0 || 0.5 <= t[j].r <= 1.0
    ensures forall j :: 0 <= j < Turn ==> (0.0 < t[j].r <==> rng(j).die == 0)
  {
    var t := seq(Turn, j requires 0 <= j < Turn => Grey(Brightness(rng(j))));
    assert forall j :: 0 <= j < Turn ==> t[j] == Grey(Brightness(rng(j)));
    t
  }
}
