/**
 * The click-driven game flow: a click while spinning stops the wheels and
 * shows the score; a click while the score is shown hides it and spins again.
 */
module GameManager {
  import opened Colors
  import opened RouletteController

  /** The declared states; `Stopped` is declared but no transition enters it. */
  datatype GameState = Spinning | Stopped | ScoreView

  /** The state, the score text (shown or not, and the value it shows), the arrow, and the controller. */
  datatype Game = Game(state: GameState, textVisible: bool, shownScore: real, arrowVisible: bool,
                       controller: Controller)

  /** Start: spinning, score text hidden, arrow shown; the controller keeps its own flag. */
  function Start(c: Controller): (g: Game)
    ensures g.state == Spinning && !g.textVisible && g.arrowVisible && g.controller == c
  {
    Game(Spinning, false, 0.0, true, c)
  }

  /** Computes the current score, shows it and hides the arrow. */
  function DisplayScore(g: Game, gray: Color -> real): (g': Game)
    requires Valid(g.controller)
    ensures g'.textVisible && !g'.arrowVisible && g'.shownScore == Score(g.controller, gray)
    ensures g'.state == g.state && g'.controller == g.controller
  {
    g.(shownScore := Score(g.controller, gray), textVisible := true, arrowVisible := false)
  }

  /** Hides the score text, shows the arrow and spins the wheels again. */
  function RestartGame(g: Game): (g': Game)
    ensures !g'.textVisible && g'.arrowVisible && g'.controller == Spin(g.controller)
    ensures g'.state == g.state && g'.shownScore == g.shownScore
  {
    g.(textVisible := false, arrowVisible := true, controller := Spin(g.controller))
  }

  /** One frame of the game flow; only a click can change anything, and `Stopped` ignores clicks. */
  function Update(g: Game, clicked: bool, gray: Color -> real): (g': Game)
    requires Valid(g.controller)
    ensures Valid(g'.controller)
    ensures g'.controller.wheels == g.controller.wheels
    ensures g.state == Spinning && clicked ==>
              g'.state == ScoreView && !g'.controller.spinning &&
              g'.shownScore == Score(g.controller, gray) && g'.textVisible && !g'.arrowVisible
    ensures g.state == ScoreView && clicked ==>
              g'.state == Spinning && g'.controller.spinning && !g'.textVisible && g'.arrowVisible
    ensures g'.state == Stopped ==> g.state == Stopped
  {
    if !clicked then g
    else
      match g.state
      case Spinning =>
        var stopped := g.(controller := Stop(g.controller));
        DisplayScore(stopped, gray).(state := ScoreView)
      case ScoreView =>
        RestartGame(g).(state := Spinning)
      case Stopped => g
  }

  /** The controller's own frame, seen from the game: the wheels turn if their flag is set. */
  function Tick(g: Game, dt: real): (g': Game)
    ensures g'.controller == RouletteController.Update(g.controller, dt)
    ensures g'.state == g.state && g'.textVisible == g.textVisible && g'.arrowVisible == g.arrowVisible
  {
    g.(controller := RouletteController.Update(g.controller, dt))
  }

  /**
   * The UI flags and the spin flag move in lock-step with the state: the
   * text is shown exactly in ScoreView, the arrow exactly when the text is
   * hidden, the wheels spin exactly in Spinning, and `Stopped` is not
   * reached. While the score is shown, it is the score of the wheels as they stand.
   */
  ghost predicate Consistent(g: Game, gray: Color -> real) {
    && Valid(g.controller)
    && g.state != Stopped
    && (g.textVisible <==> g.state == ScoreView)
    && (g.arrowVisible <==> !g.textVisible)
    && (g.controller.spinning <==> g.state == Spinning)
    && (g.state == ScoreView ==> g.shownScore == Score(g.controller, gray))
  }

  /** The game starts consistent with a freshly set-up controller. */
  lemma StartConsistent(numberOfWheels: int, minSpeed: real, maxSpeed: real, rng: nat -> Rand.Unit,
                        gray: Color -> real)
    ensures Consistent(Start(CreateRoulettes(numberOfWheels, minSpeed, maxSpeed, rng)), gray)
  {
  }

  /** A frame without a click changes nothing. */
  lemma NoClickNoChange(g: Game, gray: Color -> real)
    requires Valid(g.controller)
    ensures Update(g, false, gray) == g
  {
  }

  /** Every click keeps the game consistent. */
  lemma {:induction false} UpdateKeepsConsistent(g: Game, clicked: bool, gray: Color -> real)
    requires Consistent(g, gray)
    ensures Consistent(Update(g, clicked, gray), gray)
  {
  }

  /** Every controller frame keeps the game consistent; a shown score stays the score of the frozen wheels. */
  lemma {:induction false} TickKeepsConsistent(g: Game, dt: real, gray: Color -> real)
    requires Consistent(g, gray)
    ensures Consistent(Tick(g, dt), gray)
  {
    if g.state == ScoreView {
      UpdateWhileStopped(g.controller, dt);
    }
  }

  /** Two clicks from Spinning come back to Spinning with the wheels unmoved and spinning again. */
  lemma {:induction false} TwoClicksRestart(g: Game, gray: Color -> real)
    requires Consistent(g, gray) && g.state == Spinning
    ensures var g2 := Update(Update(g, true, gray), true, gray);
            Consistent(g2, gray) && g2.state == Spinning && g2.controller == g.controller
  {
    UpdateKeepsConsistent(g, true, gray);
    UpdateKeepsConsistent(Update(g, true, gray), true, gray);
  }

  /** What can happen in a frame: a click, a frame without a click, or a controller frame. */
  datatype Event = Click | NoClick | Frame(dt: real)

  /** Applies one event. */
  function Step(g: Game, e: Event, gray: Color -> real): (g': Game)
    requires Consistent(g, gray)
    ensures Consistent(g', gray)
  {
    match e
    case Click => UpdateKeepsConsistent(g, true, gray); Update(g, true, gray)
    case NoClick => UpdateKeepsConsistent(g, false, gray); Update(g, false, gray)
    case Frame(dt) => TickKeepsConsistent(g, dt, gray); Tick(g, dt)
  }

  /** Plays a run of events from the given game. */
  function Play(g: Game, events: seq<Event>, gray: Color -> real): (g': Game)
    requires Consistent(g, gray)
    ensures Consistent(g', gray)
    decreases |events|
  {
    if |events| == 0 then g else Play(Step(g, events[0], gray), events[1..], gray)
  }

  /**
   * Along any run of events from the start, the state is Spinning or
   * ScoreView, and the flags match it.
   */
  lemma {:induction false} ReachableStates(c: Controller, events: seq<Event>, gray: Color -> real)
    requires Valid(c) && c.spinning
    ensures var g := Play(Start(c), events, gray);
            (g.state == Spinning || g.state == ScoreView) &&
            (g.textVisible <==> g.state == ScoreView) && (g.arrowVisible <==> g.state == Spinning) &&
            (g.controller.spinning <==> g.state == Spinning)
  {
  }
}
