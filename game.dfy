/**
 * The game controller: the script's global state (snake, fruit, score,
 * record, tick interval, pause and started flags, overlay) and the
 * operations that change it — starting a game, one tick of the game loop,
 * pausing, and the keyboard filter.
 *
 * `World` is that state as a value and `Init`, `Tick`, `Toggle` and `Key`
 * say what each operation does to it; the class `Controller` holds the same
 * state in fields and objects and its methods are proved to do exactly that.
 */
module Game {
  import opened Wrappers
  import opened Grid
  import opened SnakeEntity
  import opened FruitEntity
  import opened Scoring

  /**
   * The global state. Before the first game there is no snake and no fruit:
   * the body is empty and the fruit is None. `overlay` is whether the modal
   * overlay (welcome or game over) is displayed.
   */
  datatype World = World(
    body: seq<Cell>, dx: int, dy: int,
    fruit: Option<Cell>,
    score: nat, highScore: nat, speed: int,
    paused: bool, started: bool, overlay: bool)

  /** What a tick signals to the audio and timer: a restart of the interval, the eat, achievement and lose sounds. */
  datatype Event = SpeedUp | Ate | Achievement | Lost

  /** The keys, as abstract commands: arrows or WASD, space or P, Enter, anything else. */
  datatype Command = Up | Down | Left | Right | Pause | Confirm | Other

  datatype TickResult = TickResult(world: World, events: seq<Event>)

  /** The page as loaded: welcome overlay, the stored record, no game yet. */
  function Welcome(stored: nat): World
  {
    World([], 0, 0, None, 0, stored, InitialSpeed, false, false, true)
  }

  /** A game in progress: the snake is a connected path of distinct cells heading
      along one axis, one cell longer than at the start for every point, and
      the fruit is off its body. */
  ghost predicate Running(w: World)
  {
    w.fruit.Some? && w.fruit.value !in w.body &&
    |w.body| == |StartBody| + w.score &&
    IsUnit(w.dx, w.dy) && Path(w.body) && Distinct(w.body)
  }

  /** What holds of every state the page can reach. */
  ghost predicate Inv(w: World, cols: int, rows: int)
  {
    w.speed == SpeedFor(w.score) &&
    (w.overlay <==> !w.started) &&
    (w.paused ==> w.started) &&
    (w.fruit.None? ==> !w.started && w.body == [] && w.score == 0) &&
    (w.fruit.Some? ==> |w.body| >= |StartBody| && w.fruit.value in Board(cols, rows) &&
                       w.fruit.value !in w.body) &&
    (w.started ==> Running(w)) &&
    (!w.started && w.fruit.Some? ==> w.highScore >= w.score)
  }

  lemma WelcomeInv(stored: nat, cols: int, rows: int)
    ensures Inv(Welcome(stored), cols, rows)
  {
  }

  /** The draws suffice for a new game: one for the fruit's constructor, then
      a later one off the start body. */
  predicate InitDefined(draws: seq<Draw>, cols: int, rows: int)
  {
    cols > 0 && rows > 0 && |draws| > 0 && HasFree(StartBody, draws[1..], cols, rows)
  }

  /**
   * initGame: a new snake and fruit, score 0, initial interval, running.
   * Only the record survives from the previous state.
   */
  function Init(w: World, draws: seq<Draw>, cols: int, rows: int): (r: World)
    requires InitDefined(draws, cols, rows)
    ensures Inv(r, cols, rows)
    ensures r.started && !r.paused && !r.overlay
    ensures r.score == 0 && r.speed == InitialSpeed && r.highScore == w.highScore
    ensures r.body == StartBody && r.dx == 1 && r.dy == 0
  {
    StartBodyShape();
    var k := FirstFree(StartBody, draws[1..], cols, rows);
    World(StartBody, 1, 0, Some(DrawCell(draws[1..][k], cols, rows)),
          0, w.highScore, InitialSpeed, false, true, false)
  }

  /** The body after this tick's move. */
  function Moved(w: World): seq<Cell>
    requires |w.body| > 0
  {
    Advance(w.body, w.dx, w.dy)
  }

  /** The move ends the game. */
  predicate Crashes(w: World, cols: int, rows: int)
    requires |w.body| > 0
  {
    HitsWall(Moved(w), cols, rows) || HitsSelf(Moved(w))
  }

  /** A tick can run: a running game has a snake, and when it eats the draws
      hold a cell off the grown body for the new fruit. */
  predicate TickDefined(w: World, draws: seq<Draw>, cols: int, rows: int)
  {
    cols > 0 && rows > 0 &&
    (w.started && !w.paused ==>
      |w.body| > 0 &&
      (!Crashes(w, cols, rows) && Eats(Moved(w), w.fruit) ==> HasFree(Moved(w), draws, cols, rows)))
  }

  /**
   * gameLoop: move; on a wall or self collision end the game and save the
   * record; else on the fruit score a point and place a new fruit; else pop
   * the tail. Does nothing unless the game is started and not paused.
   */
  function Tick(w: World, draws: seq<Draw>, cols: int, rows: int): (r: TickResult)
    requires TickDefined(w, draws, cols, rows)
    ensures !w.started || w.paused ==> r == TickResult(w, [])
    ensures r.world.highScore >= w.highScore && r.world.speed <= w.speed
  {
    if !w.started || w.paused then TickResult(w, [])
    else
      var moved := Moved(w);
      if Crashes(w, cols, rows) then
        TickResult(w.(body := moved, started := false, overlay := true,
                      highScore := SavedHigh(w.score, w.highScore)),
                   [Lost])
      else if Eats(moved, w.fruit) then
        var inc := Increment(w.score, w.speed);
        var k := FirstFree(moved, draws, cols, rows);
        TickResult(w.(body := moved, score := inc.score, speed := inc.speed,
                      fruit := Some(DrawCell(draws[k], cols, rows))),
                   (if inc.rescheduled then [SpeedUp] else []) + [Ate] +
                   (if Achieves(inc.score) then [Achievement] else []))
      else
        TickResult(w.(body := DropTail(moved)), [])
  }

  /** togglePause: flips the pause flag of a started game; otherwise nothing. */
  function Toggle(w: World): (r: World)
    ensures !w.started ==> r == w
    ensures w.started ==> r.paused == !w.paused && r.(paused := w.paused) == w
  {
    if !w.started then w else w.(paused := !w.paused)
  }

  /** changeDirection on the snake of `w`. */
  function Steer(w: World, newDx: int, newDy: int): World
  {
    var d := Turn(w.dx, w.dy, newDx, newDy);
    w.(dx := d.0, dy := d.1)
  }

  predicate KeyDefined(w: World, cmd: Command, draws: seq<Draw>, cols: int, rows: int)
  {
    w.overlay && cmd == Confirm ==> InitDefined(draws, cols, rows)
  }

  /**
   * The keydown handler. While the overlay is shown only Confirm acts (it
   * starts a game); while paused only Pause acts; in a running game a
   * direction is requested only when the snake is not moving along that
   * axis already.
   */
  function Key(w: World, cmd: Command, draws: seq<Draw>, cols: int, rows: int): (r: World)
    requires KeyDefined(w, cmd, draws, cols, rows)
    ensures w.overlay && cmd != Confirm ==> r == w
    ensures !w.overlay && w.paused && cmd != Pause ==> r == w
  {
    if w.overlay then
      if cmd == Confirm then Init(w, draws, cols, rows) else w
    else if w.paused then
      if cmd == Pause then Toggle(w) else w
    else if w.started && !w.paused then
      match cmd
      case Up => if w.dy == 0 then Steer(w, 0, -1) else w
      case Down => if w.dy == 0 then Steer(w, 0, 1) else w
      case Left => if w.dx == 0 then Steer(w, -1, 0) else w
      case Right => if w.dx == 0 then Steer(w, 1, 0) else w
      case Pause => Toggle(w)
      case _ => w
    else w
  }

  // ---------------------------------------------------------------------
  // Properties of the tick

  /** Without fruit the snake slides: same length, new head one step ahead,
      old tail cell gone, nothing else changes. */
  lemma {:induction false} TickWithoutFruit(w: World, draws: seq<Draw>, cols: int, rows: int)
    requires Inv(w, cols, rows) && TickDefined(w, draws, cols, rows)
    requires w.started && !w.paused && !Crashes(w, cols, rows) && !Eats(Moved(w), w.fruit)
    ensures var r := Tick(w, draws, cols, rows);
      r.events == [] && r.world.started &&
      |r.world.body| == |w.body| &&
      r.world.body[0] == Step(w.body[0], w.dx, w.dy) &&
      r.world.body[1..] == w.body[..|w.body| - 1] &&
      w.body[|w.body| - 1] !in r.world.body &&
      r.world == w.(body := r.world.body)
  {
  }

  /** Eating grows the snake and the score by exactly one, places the fruit
      off the body, and sounds the achievement exactly on a positive
      multiple of ten. */
  lemma {:induction false} TickEatingFruit(w: World, draws: seq<Draw>, cols: int, rows: int)
    requires Inv(w, cols, rows) && TickDefined(w, draws, cols, rows)
    requires w.started && !w.paused && !Crashes(w, cols, rows) && Eats(Moved(w), w.fruit)
    ensures var r := Tick(w, draws, cols, rows);
      r.world.started &&
      |r.world.body| == |w.body| + 1 && r.world.body[1..] == w.body &&
      r.world.body[0] == Step(w.body[0], w.dx, w.dy) &&
      r.world.score == w.score + 1 &&
      r.world.fruit.Some? && r.world.fruit.value !in r.world.body &&
      r.world.fruit.value in Board(cols, rows) &&
      Ate in r.events &&
      (Achievement in r.events <==> r.world.score % AchievementEvery == 0) &&
      (SpeedUp in r.events <==> r.world.speed < w.speed) &&
      Lost !in r.events &&
      r.world == w.(body := r.world.body, score := r.world.score, speed := r.world.speed,
                    fruit := r.world.fruit)
  {
  }

  /** A collision ends the game, shows the overlay and keeps the better of
      the score and the record. */
  lemma {:induction false} TickCrash(w: World, draws: seq<Draw>, cols: int, rows: int)
    requires TickDefined(w, draws, cols, rows)
    requires w.started && !w.paused && Crashes(w, cols, rows)
    ensures var r := Tick(w, draws, cols, rows);
      !r.world.started && r.world.overlay && r.events == [Lost] &&
      r.world.score == w.score &&
      r.world.highScore >= w.score && r.world.highScore >= w.highScore &&
      (r.world.highScore == w.score || r.world.highScore == w.highScore) &&
      r.world.body[1..] == w.body && r.world.body[0] == Step(w.body[0], w.dx, w.dy) &&
      r.world == w.(body := r.world.body, started := false, overlay := true,
                    highScore := r.world.highScore)
  {
  }

  /** Every tick keeps the invariant. */
  lemma {:induction false} TickPreservesInv(w: World, draws: seq<Draw>, cols: int, rows: int)
    requires Inv(w, cols, rows) && TickDefined(w, draws, cols, rows)
    ensures Inv(Tick(w, draws, cols, rows).world, cols, rows)
  {
    if w.started && !w.paused {
      var moved := Moved(w);
      IncrementFollowsSchedule(w.score, w.speed);
      if !Crashes(w, cols, rows) && !Eats(moved, w.fruit) {
        TickWithoutFruit(w, draws, cols, rows);
        var nb := DropTail(moved);
        assert nb + [moved[|moved| - 1]] == moved;
      }
    }
  }

  /** Cells the snake enters are cells that passed the wall check, so a body
      on the board stays on it while the game runs. */
  lemma {:induction false} TickKeepsBodyOnBoard(w: World, draws: seq<Draw>, cols: int, rows: int)
    requires Inv(w, cols, rows) && TickDefined(w, draws, cols, rows)
    requires AllInBounds(w.body, cols, rows)
    ensures var r := Tick(w, draws, cols, rows);
      r.world.started ==> AllInBounds(r.world.body, cols, rows)
  {
    if w.started && !w.paused && !Crashes(w, cols, rows) {
      var moved := Moved(w);
      OnBoard(moved[0], cols, rows);
      assert AllInBounds(moved, cols, rows) by {
        forall i | 0 <= i < |moved| ensures InBounds(moved[i], cols, rows) {
          if i > 0 {
            assert moved[i] == w.body[i - 1];
          }
        }
      }
      if !Eats(moved, w.fruit) {
        var nb := DropTail(moved);
        forall i | 0 <= i < |nb| ensures InBounds(nb[i], cols, rows) {
          assert nb[i] == (nb + [moved[|moved| - 1]])[i];
        }
      }
    }
  }

  /** The start body is on any board of at least six columns and six rows. */
  lemma StartBodyOnBoard(cols: int, rows: int)
    requires cols >= 6 && rows >= 6
    ensures AllInBounds(StartBody, cols, rows)
  {
  }

  /** One tick from a snake at the right edge heading right ends the game. */
  lemma {:induction false} WallCrashExample(w: World, draws: seq<Draw>, cols: int, rows: int)
    requires cols > 0 && rows > 5
    requires w.started && !w.paused && w.body == [Cell(cols - 1, 5), Cell(cols - 2, 5), Cell(cols - 3, 5)]
    requires w.dx == 1 && w.dy == 0
    ensures TickDefined(w, draws, cols, rows)
    ensures !Tick(w, draws, cols, rows).world.started
  {
  }

  // ---------------------------------------------------------------------
  // Properties of the other operations

  /** Pausing twice is no change at all. */
  lemma ToggleTwice(w: World)
    ensures Toggle(Toggle(w)) == w
  {
  }

  /** The key filter keeps the invariant. */
  lemma {:induction false} KeyPreservesInv(w: World, cmd: Command, draws: seq<Draw>, cols: int, rows: int)
    requires Inv(w, cols, rows) && KeyDefined(w, cmd, draws, cols, rows)
    ensures Inv(Key(w, cmd, draws, cols, rows), cols, rows)
  {
  }

  /**
   * In a game in progress a key never reverses the snake and never moves,
   * grows or scores: it changes at most the direction or the pause flag.
   */
  lemma {:induction false} KeyOnlySteersOrPauses(w: World, cmd: Command, draws: seq<Draw>, cols: int, rows: int)
    requires Inv(w, cols, rows) && w.started
    ensures KeyDefined(w, cmd, draws, cols, rows)
    ensures var r := Key(w, cmd, draws, cols, rows);
      IsUnit(r.dx, r.dy) && (r.dx, r.dy) != (-w.dx, -w.dy) &&
      r == w.(dx := r.dx, dy := r.dy, paused := r.paused) &&
      ((r.dx, r.dy) != (w.dx, w.dy) ==> !w.paused && cmd in {Up, Down, Left, Right}) &&
      (r.paused != w.paused ==> cmd == Pause)
  {
  }

  /**
   * What each key does: Confirm on the overlay starts a game; Pause off the
   * overlay toggles the pause; in an unpaused started game an arrow asks for
   * its direction when the snake is not moving along that axis.
   */
  lemma {:induction false} KeyActs(w: World, cmd: Command, draws: seq<Draw>, cols: int, rows: int)
    requires KeyDefined(w, cmd, draws, cols, rows)
    ensures var r := Key(w, cmd, draws, cols, rows);
      (w.overlay && cmd == Confirm ==> r == Init(w, draws, cols, rows)) &&
      (!w.overlay && cmd == Pause && (w.paused || w.started) ==> r == Toggle(w)) &&
      (!w.overlay && !w.paused && w.started ==>
        (cmd == Up && w.dy == 0 ==> (r.dx, r.dy) == Turn(w.dx, w.dy, 0, -1)) &&
        (cmd == Down && w.dy == 0 ==> (r.dx, r.dy) == Turn(w.dx, w.dy, 0, 1)) &&
        (cmd == Left && w.dx == 0 ==> (r.dx, r.dy) == Turn(w.dx, w.dy, -1, 0)) &&
        (cmd == Right && w.dx == 0 ==> (r.dx, r.dy) == Turn(w.dx, w.dy, 1, 0)) &&
        ((cmd == Up || cmd == Down) && w.dy != 0 ==> r == w) &&
        ((cmd == Left || cmd == Right) && w.dx != 0 ==> r == w))
  {
  }

  /**
   * In a running game the axis guard refuses only what changeDirection would
   * refuse anyway: every arrow acts exactly as a direction request.
   */
  lemma {:induction false} ArrowIsSteer(w: World, cmd: Command, draws: seq<Draw>, cols: int, rows: int)
    requires Inv(w, cols, rows) && w.started && !w.paused
    ensures var r := Key(w, cmd, draws, cols, rows);
      (cmd == Up ==> r == Steer(w, 0, -1)) &&
      (cmd == Down ==> r == Steer(w, 0, 1)) &&
      (cmd == Left ==> r == Steer(w, -1, 0)) &&
      (cmd == Right ==> r == Steer(w, 1, 0))
  {
  }

  /** In a running game a request across the current axis is always taken. */
  lemma {:induction false} ArrowAcrossAxisTurns(w: World, cmd: Command, draws: seq<Draw>, cols: int, rows: int)
    requires Inv(w, cols, rows) && w.started && !w.paused
    ensures var r := Key(w, cmd, draws, cols, rows);
      (cmd == Up && w.dy == 0 ==> (r.dx, r.dy) == (0, -1)) &&
      (cmd == Down && w.dy == 0 ==> (r.dx, r.dy) == (0, 1)) &&
      (cmd == Left && w.dx == 0 ==> (r.dx, r.dy) == (-1, 0)) &&
      (cmd == Right && w.dx == 0 ==> (r.dx, r.dy) == (1, 0))
  {
  }

  /**
   * Each request is checked against the current direction only, so two keys
   * between ticks can still turn the snake around: heading right, Up then
   * Left leaves it heading left, and the next tick runs into the neck.
   */
  lemma {:induction false} TwoKeysBetweenTicksReverse(w: World, draws: seq<Draw>, cols: int, rows: int)
    requires Inv(w, cols, rows) && w.started && !w.paused
    requires w.dx == 1 && w.dy == 0 && w.body[1] == Step(w.body[0], -1, 0)
    ensures var r := Key(Key(w, Up, draws, cols, rows), Left, draws, cols, rows);
      r.dx == -1 && r.dy == 0 && r.body == w.body &&
      TickDefined(r, draws, cols, rows) && Crashes(r, cols, rows)
  {
  }

  /**
   * A lost game followed by a new one is one step of a session: the record
   * the new game starts with is `AfterGames` of the old record and the
   * final score.
   */
  lemma {:induction false} CrashThenRestartIsSessionStep(w: World, draws: seq<Draw>, next: seq<Draw>, cols: int, rows: int)
    requires TickDefined(w, draws, cols, rows) && InitDefined(next, cols, rows)
    requires w.started && !w.paused && Crashes(w, cols, rows)
    ensures var over := Tick(w, draws, cols, rows).world;
      over.overlay && over.highScore == AfterGames(w.highScore, [w.score]) &&
      Key(over, Confirm, next, cols, rows) == Init(over, next, cols, rows) &&
      Key(over, Confirm, next, cols, rows).highScore == AfterGames(w.highScore, [w.score])
  {
  }

  /** The record never goes down, whatever happens. */
  lemma {:induction false} RecordNeverDecreases(w: World, cmd: Command, draws: seq<Draw>, cols: int, rows: int)
    requires TickDefined(w, draws, cols, rows) && KeyDefined(w, cmd, draws, cols, rows)
    ensures Tick(w, draws, cols, rows).world.highScore >= w.highScore
    ensures Key(w, cmd, draws, cols, rows).highScore >= w.highScore
  {
  }

  // ---------------------------------------------------------------------
  // The controller as the script holds it: globals and two objects

  class Controller {
    const cols: int
    const rows: int
    var snake: Snake?
    var fruit: Fruit?
    var score: nat
    var highScore: nat
    var currentSpeed: int
    var isPaused: bool
    var gameStarted: bool
    var overlayShown: bool

    /** The state as a value. */
    ghost function State(): World
      reads this, snake, fruit
    {
      World(if snake == null then [] else snake.body,
            if snake == null then 0 else snake.dx,
            if snake == null then 0 else snake.dy,
            if fruit == null then None else Some(Cell(fruit.x, fruit.y)),
            score, highScore, currentSpeed, isPaused, gameStarted, overlayShown)
    }

    ghost predicate Valid()
      reads this, snake, fruit
    {
      cols > 0 && rows > 0 && (snake == null <==> fruit == null) &&
      Inv(State(), cols, rows)
    }

    /** window.onload: load the record and show the welcome overlay. */
    constructor (cols: int, rows: int, stored: nat)
      requires cols > 0 && rows > 0
      ensures Valid() && State() == Welcome(stored)
      ensures this.cols == cols && this.rows == rows
    {
      this.cols := cols;
      this.rows := rows;
      snake := null;
      fruit := null;
      score := 0;
      highScore := stored;
      currentSpeed := InitialSpeed;
      isPaused := false;
      gameStarted := false;
      overlayShown := true;
    }

    /** saveHighScore. */
    method SaveHighScore()
      modifies this`highScore
      ensures highScore == SavedHigh(score, old(highScore))
    {
      if score > highScore {
        highScore := score;
      }
    }

    /** Snake.incrementScore: it changes only the score and the interval. */
    method IncrementScore() returns (rescheduled: bool)
      modifies this`score, this`currentSpeed
      ensures ScoreStep(score, currentSpeed, rescheduled) == Increment(old(score), old(currentSpeed))
    {
      score := score + 1;
      rescheduled := false;
      if score % SpeedUpEvery == 0 && currentSpeed > SpeedFloor {
        currentSpeed := currentSpeed - SpeedStep;
        rescheduled := true;
      }
    }

    method InitGame(draws: seq<Draw>)
      requires Valid() && InitDefined(draws, cols, rows)
      modifies this
      ensures Valid() && State() == Init(old(State()), draws, cols, rows)
      ensures fresh(snake) && fresh(fruit)
    {
      ghost var r := Init(State(), draws, cols, rows);
      var s := new Snake();
      var f := new Fruit(draws, cols, rows);
      var used := f.Randomize(s.body, draws[1..], cols, rows);
      assert Some(Cell(f.x, f.y)) == r.fruit;
      snake, fruit := s, f;
      score := 0;
      currentSpeed := InitialSpeed;
      isPaused := false;
      gameStarted := true;
      overlayShown := false;
      assert State() == r;
    }

    method GameLoop(draws: seq<Draw>) returns (events: seq<Event>)
      requires Valid() && TickDefined(State(), draws, cols, rows)
      modifies this, snake, fruit
      ensures Valid() && TickResult(State(), events) == Tick(old(State()), draws, cols, rows)
      ensures snake == old(snake) && fruit == old(fruit)
    {
      if !gameStarted || isPaused {
        return [];
      }
      ghost var w := State();
      TickPreservesInv(w, draws, cols, rows);
      snake.Move();
      assert snake.body == Moved(w);
      if HitsWall(snake.body, cols, rows) || HitsSelf(snake.body) {
        gameStarted := false;
        SaveHighScore();
        ShowOverlay();
        events := [Lost];
        assert State() == Tick(w, draws, cols, rows).world;
      } else if Eats(snake.body, Some(Cell(fruit.x, fruit.y))) {
        events := EatFruit(w, draws);
      } else {
        snake.Shrink();
        events := [];
        assert State() == Tick(w, draws, cols, rows).world;
      }
    }

    /** The eating branch of the game loop: score, re-place the fruit, signal. */
    method EatFruit(ghost w: World, draws: seq<Draw>) returns (events: seq<Event>)
      requires snake != null && fruit != null && cols > 0 && rows > 0 && Inv(w, cols, rows)
      requires w.started && !w.paused && |w.body| > 0 && TickDefined(w, draws, cols, rows)
      requires snake.body == Moved(w) && (snake.dx, snake.dy) == (w.dx, w.dy)
      requires w == World(w.body, w.dx, w.dy, Some(Cell(fruit.x, fruit.y)), score, highScore,
                          currentSpeed, isPaused, gameStarted, overlayShown)
      requires !Crashes(w, cols, rows) && Eats(Moved(w), w.fruit)
      modifies this`score, this`currentSpeed, fruit
      ensures TickResult(State(), events) == Tick(w, draws, cols, rows)
    {
      var rescheduled := IncrementScore();
      var used := fruit.Randomize(snake.body, draws, cols, rows);
      events := (if rescheduled then [SpeedUp] else []) + [Ate];
      if score > 0 && score % AchievementEvery == 0 {
        events := events + [Achievement];
      }
    }

    /** showOverlay: the overlay is displayed (timer and music stop with it). */
    method ShowOverlay()
      modifies this`overlayShown
      ensures overlayShown
    {
      overlayShown := true;
    }

    method TogglePause()
      requires Valid()
      modifies this`isPaused
      ensures Valid() && State() == Toggle(old(State()))
    {
      if !gameStarted {
        return;
      }
      isPaused := !isPaused;
    }

    /** The keydown handler. */
    method KeyDown(cmd: Command, draws: seq<Draw>)
      requires Valid() && KeyDefined(State(), cmd, draws, cols, rows)
      modifies this, snake, fruit
      ensures Valid() && State() == Key(old(State()), cmd, draws, cols, rows)
    {
      if overlayShown {
        if cmd == Confirm {
          InitGame(draws);
        }
        return;
      }
      if isPaused {
        if cmd == Pause {
          TogglePause();
        }
        return;
      }
      if gameStarted && !isPaused {
        match cmd
        case Up =>
          if snake.dy == 0 { snake.ChangeDirection(0, -1); }
        case Down =>
          if snake.dy == 0 { snake.ChangeDirection(0, 1); }
        case Left =>
          if snake.dx == 0 { snake.ChangeDirection(-1, 0); }
        case Right =>
          if snake.dx == 0 { snake.ChangeDirection(1, 0); }
        case Pause =>
          TogglePause();
        case _ =>
      }
    }
  }
}
