/**
 * The roulette controller: a stack of wheels, each with a fixed colour table,
 * an angle and a speed, and one spin flag shared by all of them.
 */
module RouletteController {
  import opened Colors
  import opened Rand
  import opened Angles
  import opened ColorTables

  /** One wheel: its colour table, its angle in degrees (never normalised) and its speed in degrees per second. */
  datatype Wheel = Wheel(colors: seq<Color>, angle: real, speed: real)

  /** The wheels in stacking order and the shared spin flag. */
  datatype Controller = Controller(wheels: seq<Wheel>, spinning: bool)

  /** Every wheel carries a full 360-entry colour table. */
  predicate ValidWheels(ws: seq<Wheel>) {
    forall i :: 0 <= i < |ws| ==> |ws[i].colors| == Turn
  }

  predicate Valid(c: Controller) {
    ValidWheels(c.wheels)
  }

  /** Every table entry has red, green and blue in [0, 1]. */
  ghost predicate UnitTables(ws: seq<Wheel>) {
    forall i, j :: 0 <= i < |ws| && 0 <= j < |ws[i].colors| ==> UnitChannels(ws[i].colors[j])
  }

  /** Wheel `i` of the setup: a grey/black stripe table of `i + 2` divisions, at rest, with a drawn speed. */
  function SetupWheel(i: nat, minSpeed: real, maxSpeed: real, u: Unit): (w: Wheel)
    ensures |w.colors| == Turn && w.colors[0] == HitGrey && w.angle == 0.0
    ensures w.colors == StripeTable(HitGrey, MissBlack, i + 2).colors
    ensures forall j :: 0 <= j < Turn ==> w.colors[j] == HitGrey || w.colors[j] == MissBlack
    ensures forall j :: 0 <= j < Turn ==> UnitChannels(w.colors[j])
    ensures (minSpeed <= maxSpeed ==> minSpeed <= w.speed <= maxSpeed) &&
            (maxSpeed <= minSpeed ==> maxSpeed <= w.speed <= minSpeed)
  {
    StripeBands(HitGrey, MissBlack, i + 2, 0, 0);
    Wheel(StripeTable(HitGrey, MissBlack, i + 2).colors, 0.0, RangeFloat(minSpeed, maxSpeed, u))
  }

  /**
   * Setup: one wheel per index below the wheel count, each painted with
   * stripes (never the logged-error case, as the division count is at least
   * two); the flag starts set. A non-positive wheel count builds no wheels.
   */
  function CreateRoulettes(numberOfWheels: int, minSpeed: real, maxSpeed: real, rng: nat -> Unit): (c: Controller)
    ensures Valid(c) && c.spinning && UnitTables(c.wheels)
    ensures |c.wheels| == if numberOfWheels <= 0 then 0 else numberOfWheels
    ensures forall i :: 0 <= i < |c.wheels| ==> c.wheels[i] == SetupWheel(i, minSpeed, maxSpeed, rng(i))
    ensures forall i :: 0 <= i < |c.wheels| ==>
              c.wheels[i].colors == StripeTable(HitGrey, MissBlack, i + 2).colors
  {
    var n := if numberOfWheels <= 0 then 0 else numberOfWheels;
    var ws := seq(n, i requires 0 <= i < n => SetupWheel(i, minSpeed, maxSpeed, rng(i)));
    assert |ws| == n;
    forall i | 0 <= i < n
      ensures ws[i] == SetupWheel(i, minSpeed, maxSpeed, rng(i))
      ensures ws[i].colors == StripeTable(HitGrey, MissBlack, i + 2).colors
    {
    }
    assert UnitTables(ws);
    Controller(ws, true)
  }

  /**
   * One frame: while the flag is set every wheel turns by its speed times
   * the frame time; otherwise nothing moves. Tables and speeds never change.
   */
  function Update(c: Controller, dt: real): (c': Controller)
    ensures |c'.wheels| == |c.wheels| && c'.spinning == c.spinning
    ensures Valid(c) ==> Valid(c')
    ensures UnitTables(c.wheels) ==> UnitTables(c'.wheels)
    ensures forall i :: 0 <= i < |c.wheels| ==>
              c'.wheels[i].colors == c.wheels[i].colors && c'.wheels[i].speed == c.wheels[i].speed
    ensures forall i :: 0 <= i < |c.wheels| ==>
              c'.wheels[i].angle == if c.spinning then c.wheels[i].angle + c.wheels[i].speed * dt
                                    else c.wheels[i].angle
  {
    if c.spinning then
      c.(wheels := seq(|c.wheels|, i requires 0 <= i < |c.wheels| =>
                         c.wheels[i].(angle := c.wheels[i].angle + c.wheels[i].speed * dt)))
    else c
  }

  /** Clears the shared flag; the wheels are left as they are. */
  function Stop(c: Controller): (c': Controller)
    ensures !c'.spinning && c'.wheels == c.wheels
  {
    c.(spinning := false)
  }

  /** Sets the shared flag; the wheels are left as they are. */
  function Spin(c: Controller): (c': Controller)
    ensures c'.spinning && c'.wheels == c.wheels
  {
    c.(spinning := true)
  }

  /** Sum of the grayscale values the wheels show at the top mark, in stacking order. */
  function SumGray(ws: seq<Wheel>, gray: Color -> real): (s: real)
    requires ValidWheels(ws)
    ensures UnitGrayscale(gray) && UnitTables(ws) ==> 0.0 <= s <= |ws| as real
  {
    if |ws| == 0 then 0.0
    else
      var w := ws[|ws| - 1];
      SumGray(ws[..|ws| - 1], gray) + gray(w.colors[TopIndex(w.angle)])
  }

  /**
   * The score: one hundred times the summed grayscale at the top mark. With
   * no wheels it is zero; with grayscale in [0, 1] it lies in [0, 100 n].
   */
  function Score(c: Controller, gray: Color -> real): (score: real)
    requires Valid(c)
    ensures |c.wheels| == 0 ==> score == 0.0
    ensures UnitGrayscale(gray) && UnitTables(c.wheels) ==> 0.0 <= score <= 100.0 * |c.wheels| as real
  {
    100.0 * SumGray(c.wheels, gray)
  }

  /** The scoring loop, wheel by wheel, agrees with `Score`. */
  method GetScore(c: Controller, gray: Color -> real) returns (score: real)
    requires Valid(c)
    ensures score == Score(c, gray)
  {
    var total := 0.0;
    var i := 0;
    while i < |c.wheels|
      invariant 0 <= i <= |c.wheels|
      invariant total == SumGray(c.wheels[..i], gray)
    {
      var w := c.wheels[i];
      var index := TopIndex(w.angle);
      assert c.wheels[..i + 1][..i] == c.wheels[..i];
      total := total + gray(w.colors[index]);
      i := i + 1;
    }
    assert c.wheels[..i] == c.wheels;
    score := total * 100.0;
  }

  /** Stop and Spin only set or clear the flag, so each is idempotent and the later one wins. */
  lemma FlagOperations(c: Controller)
    ensures Stop(Stop(c)) == Stop(c) && Spin(Spin(c)) == Spin(c)
    ensures Stop(Spin(c)) == Stop(c) && Spin(Stop(c)) == Spin(c)
  {
  }

  /** A stopped controller is left exactly as it is by a frame. */
  lemma {:induction false} UpdateWhileStopped(c: Controller, dt: real)
    requires !c.spinning
    ensures Update(c, dt) == c
  {
  }

  /** Two frames equal one frame of the combined time (both change nothing while stopped). */
  lemma {:induction false} UpdateAdditive(c: Controller, dt1: real, dt2: real)
    ensures Update(Update(c, dt1), dt2) == Update(c, dt1 + dt2)
  {
    var a, b := Update(Update(c, dt1), dt2), Update(c, dt1 + dt2);
    forall i | 0 <= i < |c.wheels|
      ensures a.wheels[i] == b.wheels[i]
    {
      var s := c.wheels[i].speed;
      assert s * dt1 + s * dt2 == s * (dt1 + dt2);
    }
  }

  /** Total elapsed time of a run of frames. */
  function Elapsed(dts: seq<real>): real {
    if |dts| == 0 then 0.0 else Elapsed(dts[..|dts| - 1]) + dts[|dts| - 1]
  }

  /** A run of frames, one `Update` per frame time. */
  function Run(c: Controller, dts: seq<real>): (c': Controller)
    ensures |c'.wheels| == |c.wheels| && c'.spinning == c.spinning
    ensures Valid(c) ==> Valid(c')
    ensures UnitTables(c.wheels) ==> UnitTables(c'.wheels)
  {
    if |dts| == 0 then c else Update(Run(c, dts[..|dts| - 1]), dts[|dts| - 1])
  }

  /** Any run of frames equals one frame of the total elapsed time. */
  lemma {:induction false} RunIsOneUpdate(c: Controller, dts: seq<real>)
    ensures Run(c, dts) == Update(c, Elapsed(dts))
  {
    if |dts| == 0 {
      assert Update(c, 0.0).wheels == c.wheels;
    } else {
      var init := dts[..|dts| - 1];
      RunIsOneUpdate(c, init);
      UpdateAdditive(c, Elapsed(init), dts[|dts| - 1]);
    }
  }

  /** After Stop, any run of frames leaves every angle; Spin then resumes from those angles. */
  lemma {:induction false} StopFreezes(c: Controller, dts: seq<real>)
    ensures Run(Stop(c), dts).wheels == c.wheels
    ensures Spin(Run(Stop(c), dts)) == Spin(c)
  {
    if |dts| != 0 {
      StopFreezes(c, dts[..|dts| - 1]);
      UpdateWhileStopped(Run(Stop(c), dts[..|dts| - 1]), dts[|dts| - 1]);
    }
  }

  /** Turning any wheels by whole turns leaves the score unchanged. */
  lemma {:induction false} SumGrayFullTurns(ws: seq<Wheel>, ws': seq<Wheel>, turns: seq<int>, gray: Color -> real)
    requires ValidWheels(ws) && |ws'| == |ws| == |turns|
    requires forall i :: 0 <= i < |ws| ==>
               ws'[i].colors == ws[i].colors && ws'[i].angle == ws[i].angle + 360.0 * turns[i] as real
    ensures ValidWheels(ws') && SumGray(ws', gray) == SumGray(ws, gray)
  {
    if |ws| != 0 {
      var n := |ws| - 1;
      SumGrayFullTurns(ws[..n], ws'[..n], turns[..n], gray);
      TopIndexFullTurns(ws[n].angle, turns[n]);
    }
  }

  lemma ScoreFullTurns(c: Controller, c': Controller, turns: seq<int>, gray: Color -> real)
    requires Valid(c) && |c'.wheels| == |c.wheels| == |turns|
    requires forall i :: 0 <= i < |c.wheels| ==>
               c'.wheels[i].colors == c.wheels[i].colors &&
               c'.wheels[i].angle == c.wheels[i].angle + 360.0 * turns[i] as real
    ensures Valid(c') && Score(c', gray) == Score(c, gray)
  {
    SumGrayFullTurns(c.wheels, c'.wheels, turns, gray);
  }

  /** Wheels painted in one colour `v` score `100 * n * gray(v)` whatever their angles. */
  lemma {:induction false} SumGrayUniform(ws: seq<Wheel>, v: Color, gray: Color -> real)
    requires ValidWheels(ws)
    requires forall i, j :: 0 <= i < |ws| && 0 <= j < Turn ==> ws[i].colors[j] == v
    ensures SumGray(ws, gray) == |ws| as real * gray(v)
  {
    if |ws| != 0 {
      SumGrayUniform(ws[..|ws| - 1], v, gray);
    }
  }

  lemma ScoreUniform(c: Controller, v: Color, gray: Color -> real)
    requires Valid(c)
    requires forall i, j :: 0 <= i < |c.wheels| && 0 <= j < Turn ==> c.wheels[i].colors[j] == v
    ensures Score(c, gray) == 100.0 * |c.wheels| as real * gray(v)
  {
    SumGrayUniform(c.wheels, v, gray);
  }

  /**
   * However long the set-up wheels have turned, the score lies in
   * [0, 100 n] when grayscale maps unit-channel colours into [0, 1].
   */
  lemma {:induction false} SetupScoreBounded(numberOfWheels: int, minSpeed: real, maxSpeed: real,
                                             rng: nat -> Unit, dts: seq<real>, gray: Color -> real)
    requires UnitGrayscale(gray)
    ensures var c := Run(CreateRoulettes(numberOfWheels, minSpeed, maxSpeed, rng), dts);
            0.0 <= Score(c, gray) <= 100.0 * |c.wheels| as real
  {
    var c0 := CreateRoulettes(numberOfWheels, minSpeed, maxSpeed, rng);
    assert Valid(c0) && UnitTables(c0.wheels);
  }
}
