# Layered roulette — Dafny model

This project models the deterministic core of the layered roulette game. A
stack of wheels is each painted with a 360-entry colour table, one colour per
whole degree. All wheels turn while one shared spin flag is set. The score is
read at the 12 o'clock mark from every wheel's table and angle. The model also
covers the triangle/colour layout of the wheel mesh and the click-driven game
flow that stops the wheels, shows the score and spins again.

`ColorTables`, `RouletteController`, `RouletteGenerator` and `GameManager` follow the program's files; `Colors`, `Rand` and `Angles` hold the engine values they use:

- `Colors` (colors.dfy): the RGBA colour record and the two setup colours.
- `Rand` (colors.dfy): random draws passed in as values.
- `Angles` (angles.dfy): `Repeat(t, 360)` and the top-mark index.
- `ColorTables` (color_tables.dfy): the stripe and random table generators.
- `RouletteController` (roulette_controller.dfy): wheel setup, frame update, `Stop`, `Spin` and the score.
- `RouletteGenerator` (roulette_generator.dfy): the mesh layout.
- `GameManager` (game_manager.dfy): the game state machine.

Modelling choices:

- Colour channels, angles and speeds are Dafny `real`s.
- A wheel's angle is an unbounded real that starts at 0. It is wrapped into one turn only when the score reads it.
- The engine's grayscale of a colour is a function the score takes as a parameter (`gray: Color -> real`). Its formula belongs to the engine library.
- `Random.Range(lo, hi)` on floats becomes `lo + u * (hi - lo)` for an injected draw `u` in [0, 1].
- `Random.Range(0, 5)` on integers becomes an injected die in 0..4.
- A random source is a function from the draw's position to the draw.
- The frame time is a parameter.
- A mouse click is a boolean, or the `Click` event.
- The score text and the arrow are booleans, and the shown score is a real.
- `Debug.LogError` in the stripe generator becomes the `loggedError` flag of its result.
- In the mesh builder, the logged error becomes the `None` result (`CreateRouletteMesh` returns null).
- C#'s `/` and `%` truncate, while Dafny's are Euclidean. The two agree here because the operands are never negative: the degree is 0..359 and the stripe width is at least 1.
- Each degree of a stripe table takes its colour from the parity of `j / segmentSize`, so degrees after the last full stripe keep alternating; `StripeSevenLeftover` shows this.

## Model

| member | source | states |
|---|---|---|
| Rand.RangeFloat | Assets/Shadette/Scripts/RouletteController.cs:71 | a float range draw lies between its two ends, in either order, and hits each end at draw 0 and 1 |
| ColorTables.SegmentSize | Assets/Shadette/Scripts/RouletteController.cs:99-111 | the stripe width lies in 1..360 and is 1 when there are more divisions than degrees |
| ColorTables.StripeTable | Assets/Shadette/Scripts/RouletteController.cs:96-132 | the stripe table has exactly 360 entries, each is one of the two colours, and an error is logged exactly when the division count is not positive |
| ColorTables.StripeBands | Assets/Shadette/Scripts/RouletteController.cs:110-129 | every degree of band k (from k·width, cut off at 360) has the first colour when k is even and the second when k is odd |
| ColorTables.StripeAlternates | Assets/Shadette/Scripts/RouletteController.cs:113-129 | one stripe width further on, a degree has the other colour: `color2` after `color1` and `color1` after `color2` |
| ColorTables.StripeNonPositiveIsOneDivision | Assets/Shadette/Scripts/RouletteController.cs:99-104 | a division count of zero or less gives the same table as one division, which is the first colour everywhere |
| ColorTables.StripeFinerThanDegrees | Assets/Shadette/Scripts/RouletteController.cs:110-128 | with more than 360 divisions the colours alternate every degree, the first colour on even degrees |
| ColorTables.StripeSevenLeftover | Assets/Shadette/Scripts/RouletteController.cs:110-128 | seven divisions give 51-degree stripes; the leftover degrees 357-359 form the odd eighth stripe and take the second colour, while degree 356 takes the first |
| ColorTables.StripeFourteenLeftover | Assets/Shadette/Scripts/RouletteController.cs:110-128 | fourteen divisions give 25-degree stripes; degree 349 takes the second colour, and the leftover degrees 350-359 form an even stripe and take the first colour, so leftovers follow the stripe parity instead of being painted with the second colour |
| ColorTables.Brightness | Assets/Shadette/Scripts/RouletteController.cs:83 | a die roll of 0 gives a brightness in [0.5, 1.0]; any other roll gives 0 |
| ColorTables.RandomTable | Assets/Shadette/Scripts/RouletteController.cs:76-87 | the random table has 360 opaque greys with channels in [0, 1], each of brightness 0 or in [0.5, 1.0], and it is bright exactly where the die rolled 0 |
| Angles.Wrap | Assets/Shadette/Scripts/RouletteController.cs:167 | `Repeat(t, 360)` lies in [0, 360) for every real t |
| Angles.TopIndex | Assets/Shadette/Scripts/RouletteController.cs:165-167 | the index read at 12 o'clock is always a valid index 0..359 into a 360-entry table |
| Angles.TopIndexIsFloorMod | Assets/Shadette/Scripts/RouletteController.cs:167 | the top index equals the whole degree below 90 − angle, taken modulo 360 |
| Angles.TopIndexFullTurns | Assets/Shadette/Scripts/RouletteController.cs:163-167 | adding any whole number of turns (360k) to a wheel's angle leaves its top index unchanged |
| Angles.TopIndexWholeDegrees | Assets/Shadette/Scripts/RouletteController.cs:167 | for a whole-degree angle d, the top index is (90 − d) mod 360 |
| RouletteController.SetupWheel | Assets/Shadette/Scripts/RouletteController.cs:48-71 | wheel i is painted with the grey/black stripe table of i + 2 divisions (every entry hit grey or miss black, with unit channels, degree 0 hit grey), starts at angle 0, and has a speed within the speed range |
| RouletteController.CreateRoulettes | Assets/Shadette/Scripts/RouletteController.cs:23-73 | setup builds one wheel per index below the wheel count (none for a count ≤ 0); wheel i is the set-up wheel i, whose table is the grey/black stripe table of i + 2 divisions (a count of at least two, which the stripe generator never flags); all tables are full with unit-channel colours, and the spin flag starts set |
| RouletteController.Update | Assets/Shadette/Scripts/RouletteController.cs:30-39 | a frame keeps the wheel count, the tables, the speeds and the flag; it adds speed·dt to every angle when the flag is set and changes no angle when it is clear |
| RouletteController.Stop | Assets/Shadette/Scripts/RouletteController.cs:138-141 | Stop clears the shared flag and leaves every wheel as it was |
| RouletteController.Spin | Assets/Shadette/Scripts/RouletteController.cs:147-150 | Spin sets the shared flag and leaves every wheel as it was |
| RouletteController.FlagOperations | Assets/Shadette/Scripts/RouletteController.cs:138-150 | Stop and Spin are each idempotent, and of the two the later call decides the flag |
| RouletteController.UpdateWhileStopped | Assets/Shadette/Scripts/RouletteController.cs:32-38 | with the flag clear, a frame leaves the controller exactly as it was |
| RouletteController.UpdateAdditive | Assets/Shadette/Scripts/RouletteController.cs:30-39 | a frame of dt1 followed by one of dt2 equals one frame of dt1 + dt2, whether the flag is set or not |
| RouletteController.RunIsOneUpdate | Assets/Shadette/Scripts/RouletteController.cs:30-39 | any run of frames equals one frame of the total elapsed time, whether the flag is set or not |
| RouletteController.StopFreezes | Assets/Shadette/Scripts/RouletteController.cs:30-39 | after Stop, any run of frames leaves every wheel unchanged, and a later Spin resumes from those angles |
| RouletteController.SumGray | Assets/Shadette/Scripts/RouletteController.cs:158-171 | when grayscale maps unit-channel colours into [0, 1] and every table entry has unit channels, the grayscale summed over n wheels at the top mark lies in [0, n] |
| RouletteController.Score | Assets/Shadette/Scripts/RouletteController.cs:156-175 | the score is 0 with no wheels, and lies in [0, 100·n] for n wheels whose table entries have unit channels, when grayscale maps such colours into [0, 1] |
| RouletteController.GetScore | Assets/Shadette/Scripts/RouletteController.cs:156-175 | the wheel-by-wheel scoring loop returns 100 times the summed grayscale of each wheel's colour at its top index |
| RouletteController.ScoreFullTurns | Assets/Shadette/Scripts/RouletteController.cs:160-174 | turning any wheels by whole turns leaves the score unchanged |
| RouletteController.SetupScoreBounded | Assets/Shadette/Scripts/RouletteController.cs:41-72 | after setup and any run of frames, the score lies in [0, 100·n] whenever grayscale maps unit-channel colours into [0, 1] |
| RouletteController.ScoreUniform | Assets/Shadette/Scripts/RouletteController.cs:160-174 | n wheels painted entirely in one colour v score 100·n·gray(v) at every angle |
| RouletteGenerator.SlotVertex | Assets/Shadette/Scripts/RouletteGenerator.cs:35-42 | slot k of the vertex array is the disc centre exactly when k is a multiple of 3; otherwise it is a rim point at degree k/3 or k/3 + 1 |
| RouletteGenerator.TrianglesMeetAtCentre | Assets/Shadette/Scripts/RouletteGenerator.cs:35-42 | triangle i has vertices centre, rim at degree i and rim at degree i + 1 |
| RouletteGenerator.LayOutSlots | Assets/Shadette/Scripts/RouletteGenerator.cs:26-53 | the degree loop fills 1080 slots per array: triangle index k at slot k, the colour of degree k/3 at slot k, and the matching vertex |
| RouletteGenerator.CreateRouletteMesh | Assets/Shadette/Scripts/RouletteGenerator.cs:13-63 | a table not of length 360 gives no mesh; otherwise the arrays have 1080 entries, triangles[k] = k, the three vertex colours of degree i equal colors[i], and the triangle colours give the input table back |
| GameManager.Start | Assets/Shadette/Scripts/GameManager.cs:15-21 | the game starts in Spinning with the score text hidden and the arrow shown |
| GameManager.DisplayScore | Assets/Shadette/Scripts/GameManager.cs:46-53 | showing the score shows the text with the controller's current score, hides the arrow, and changes neither state nor wheels |
| GameManager.RestartGame | Assets/Shadette/Scripts/GameManager.cs:55-63 | restarting hides the text, shows the arrow and spins the controller |
| GameManager.Update | Assets/Shadette/Scripts/GameManager.cs:23-44 | no transition moves a wheel or enters Stopped; a click in Spinning stops the wheels, records their score, shows the text, hides the arrow and goes to ScoreView; a click in ScoreView hides the text, shows the arrow, spins and goes to Spinning |
| GameManager.StartConsistent | Assets/Shadette/Scripts/GameManager.cs:15-21 | the start state with a freshly set-up controller satisfies the lock-step invariant |
| GameManager.NoClickNoChange | Assets/Shadette/Scripts/GameManager.cs:26 | a frame without a click changes no state or flag |
| GameManager.UpdateKeepsConsistent | Assets/Shadette/Scripts/GameManager.cs:28-63 | every click keeps three things in step: the text is visible exactly in ScoreView, the arrow exactly when the text is hidden, and the wheels spin exactly in Spinning |
| GameManager.TickKeepsConsistent | Assets/Shadette/Scripts/RouletteController.cs:30-39 | a controller frame keeps the invariant; while the score is shown the wheels are frozen, so the shown score stays the current score |
| GameManager.TwoClicksRestart | Assets/Shadette/Scripts/GameManager.cs:28-42 | two clicks from Spinning return to Spinning with the same wheels and the flag set again |
| GameManager.Step | Assets/Shadette/Scripts/GameManager.cs:23-44 | any single event (click, no click, controller frame) preserves the lock-step invariant |
| GameManager.Play | Assets/Shadette/Scripts/GameManager.cs:23-44 | any run of events from a consistent game ends in a consistent game |
| GameManager.ReachableStates | Assets/Shadette/Scripts/GameManager.cs:12-42 | on every run of events from the start, the state is Spinning or ScoreView and never Stopped, and the text, arrow and spin flag match it |

## Left out

- Vertex positions are left out. The cos/sin rim coordinates, the radius, `RecalculateNormals` and `RecalculateBounds` are trigonometry and engine calls. A rim vertex is kept as the symbolic `Rim(degree)`.
- Unity object plumbing is left out because it holds no logic: GameObject, MeshFilter and MeshRenderer creation, the additive material and shader lookup, parenting, and the `i * layerGap` depth placement.
- The transform's rotation machinery is left out. Quaternions and the `eulerAngles` normalisation are replaced by an unbounded real angle. `TopIndexFullTurns` shows that whole turns do not change a wheel's top index, and `ScoreFullTurns` shows they do not change the score, so the normalisation cannot affect it.
- Float rounding is not modelled, including the edge case where `Repeat` could round up to exactly 360.
- `Color.grayscale` is the engine's own formula and is passed in as a parameter. The score bounds assume it maps colours whose red, green and blue lie in [0, 1] into [0, 1]; every table built at setup or by the random generator has such colours.
- Random distributions are left out. Only the ranges of the draws are stated.
- The order in which one frame's GameManager and controller updates run is left out. It is the engine's choice, so the model treats a click and a controller frame as separate events.
- TextMeshPro formatting of the score (`F0`) and the rendering done by `SetActive` are left out. Only the shown value and the visibility booleans are modelled.
- Mouse input polling is reduced to a click flag.
- RouletteColorDataSet.cs is not part of this model. It is a data holder with no logic, and it names a type the controller does not define.
