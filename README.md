# Snake game core, modelled in Dafny

This is a model of the game logic of a single-page snake game. The original
is one JavaScript file. The snake moves one cell per tick on a `cols x rows`
grid, grows when it eats the fruit and dies when it hits a wall or itself. The
model also covers the score, the record (high score), the tick interval that
shortens every fifth point, pausing, and the keyboard filter. Drawing, sound,
the DOM and storage are not modelled.

Files:

- `grid.dfy`: module `Grid`, with cells, the board, and the path and
  distinctness predicates. Also module `Wrappers`, which holds `Option`.
- `snake.dfy`: module `SnakeEntity`. It has class `Snake`, whose body and
  direction fields are updated in place. It also has the pure functions that
  specify its methods and answer the collision and eat queries.
- `fruit.dfy`: module `FruitEntity`. It has class `Fruit` and its rejection
  loop `Randomize`. `Math.random` becomes an input: a sequence of draws, each a
  pair of reals in `[0, 1)`. A draw becomes a cell as `floor(u * cols)` and
  `floor(v * rows)`.
- `scoring.dfy`: module `Scoring`, which holds the point, interval and record
  rules.
- `game.dfy`: module `Game`. The script's global state is the value `World`.
  `Init`, `Tick`, `Toggle` and `Key` say what `initGame`, `gameLoop`,
  `togglePause` and the keydown handler do to that state. `Inv` is what every
  reachable state satisfies, and the lemmas prove that each operation keeps
  it. Class `Controller` holds the same state the way the script does, as
  fields plus a `Snake` and a `Fruit` object. Each of its methods is proved to
  change that state exactly as the corresponding function says.

The rejection loop in `randomize` ends only when a draw lands off the body.
That is stated as a precondition: `HasFree` means some supplied draw is off the
body, and `InitDefined` and `TickDefined` carry it to the callers.

The tick protocol is: move; on a wall or self collision, stop and save the
record; otherwise, on the fruit, score and re-place the fruit; otherwise pop the
tail. The invariant `Inv` shows what this protocol keeps:

- while a game runs, the body is a connected path of distinct cells, its length is 3 plus the score, and the direction is a unit step. After a loss the crashed head stays pushed, so the body is 4 plus the score long; on the welcome screen the direction is `(0, 0)`;
- whenever a fruit exists, it is on the board and not on the body. This holds while a game runs and also after it is lost;
- the interval always equals `max(50, 150 - 10 * (score / 5))`;
- after a game over, the record is at least the final score.

## Model

| member | source | states |
|---|---|---|
| `SnakeEntity.StartBodyShape` | script.js:50-54 | the start body has three distinct cells forming a connected path, and its first move to the right lands on a free cell |
| `SnakeEntity.Turn` | script.js:56-61 | the new direction is the requested one exactly when the request does not negate a nonzero component of the current one; otherwise it is unchanged; from a unit direction with a unit request the result is a unit direction and never the opposite one |
| `SnakeEntity.TurnNeverReverses` | script.js:56-61 | requesting the exact opposite of a unit direction is refused, and no request can produce the opposite |
| `SnakeEntity.Advance` | script.js:63-66 | a move makes the body one longer; the old segments are unchanged behind a new head one step ahead; a unit step keeps the body a connected path; a body of distinct cells stays distinct exactly when the head has not hit itself |
| `SnakeEntity.DropTail` | script.js:84-86 | popping removes exactly the last cell and leaves the rest; an empty body stays empty; path and distinctness are kept |
| `SnakeEntity.HitsSelf` | script.js:150-154 | true iff the head equals a segment at index 1 or later; an empty body collides with nothing |
| `SnakeEntity.HitsWall` | script.js:156-159 | true iff the head is not one of the board's cells |
| `SnakeEntity.Eats` | script.js:161-165 | true iff a fruit is present and lies on the head cell |
| `SnakeEntity.SteppingOntoTailCollides` | script.js:296-299 | the self check runs after the move and before the tail is popped, so a head entering the tail's current cell is a collision |
| `SnakeEntity.Snake.constructor` | script.js:50-54 | a new snake has the start body and heads right, `(1, 0)` |
| `SnakeEntity.Snake.ChangeDirection` | script.js:56-61 | updates `(dx, dy)` to `Turn` of the old direction and the request, and nothing else |
| `SnakeEntity.Snake.Move` | script.js:63-66 | the body becomes `Advance` of the old body |
| `SnakeEntity.Snake.Shrink` | script.js:84-86 | the body becomes `DropTail` of the old body |
| `FruitEntity.Scale` | script.js:179-180 | `floor(r * n)` for `r` in `[0, 1)` and `n > 0` lies in `[0, n)` |
| `FruitEntity.DrawCell` | script.js:179-180 | every drawn cell is on the board |
| `FruitEntity.FirstFree` | script.js:175-186 | the accepted draw is the first one off the body: it is off the body and every earlier draw lands on it |
| `FruitEntity.FirstFreeOfEmpty` | script.js:170-173 | with no body to avoid, the first draw is accepted |
| `FruitEntity.Fruit.constructor` | script.js:170-173 | a new fruit sits on the cell of the first draw |
| `FruitEntity.Fruit.Randomize` | script.js:175-186 | the loop consumes exactly the draws up to the first free one and leaves the fruit there: on the board and off the body |
| `Scoring.Increment` | script.js:69-77 | the score grows by one; the interval drops by exactly 10 or stays; it drops exactly when the new score is a multiple of 5 and the interval is above 50; the timer restarts exactly when it drops |
| `Scoring.SpeedFor` | script.js:73-76 | the scheduled interval is a multiple of 10 between 50 and 150 |
| `Scoring.IncrementFollowsSchedule` | script.js:69-77 | while the interval equals `max(50, 150 - 10 * (score / 5))`, a point keeps it so; the timer restarts exactly when the schedule steps down |
| `Scoring.SpeedForNeverIncreases` | script.js:73-76 | more points never mean a longer interval |
| `Scoring.SavedHigh` | script.js:238-244 | the saved record is the maximum of the score and the old record |
| `Scoring.AfterGames` | script.js:238-244 | over a session, the record is at least the starting record and at least every final score, and it is one of them |
| `Game.WelcomeInv` | script.js:396-400 | the page as loaded satisfies the invariant |
| `Game.Init` | script.js:247-271 | a new game has score 0, interval 150, is started, unpaused and without overlay; it keeps the record; it has the start body heading right and a fruit off the body; the result satisfies the invariant |
| `Game.Tick` | script.js:293-332 | a tick does nothing unless the game is started and not paused; the record never drops and the interval never grows |
| `Game.Toggle` | script.js:375-390 | pausing does nothing to a game that is not started and otherwise flips only the pause flag |
| `Game.Key` | script.js:335-372 | while the overlay shows, only Confirm acts; while paused, only Pause acts |
| `Game.TickWithoutFruit` | script.js:323-325 | without fruit, the length is unchanged; the head is the old head plus `(dx, dy)`; the rest is the old body without its tail; the old tail cell is gone; nothing else changes |
| `Game.TickEatingFruit` | script.js:309-322 | eating adds exactly one cell and one point and keeps the old segments; the new fruit is on the board and off the body; the achievement fires iff the new score is a multiple of 10; a speed-up is signalled iff the interval dropped; no loss is signalled; record, direction and pause and overlay flags are unchanged |
| `Game.TickCrash` | script.js:299-306 | a wall or self collision ends the game, shows the overlay, signals the loss and sets the record to the maximum of score and record; the moved body is kept, with the crashed head in front of the old body; nothing else changes |
| `Game.TickPreservesInv` | script.js:293-332 | every tick keeps the invariant: path, distinct cells, length 3 plus score, fruit on the board and off the body (also after a loss), interval on schedule, record at least the final score |
| `Game.TickKeepsBodyOnBoard` | script.js:296-299 | a body on the board stays on it as long as the game runs |
| `Game.StartBodyOnBoard` | script.js:50-54 | on a board of at least 6 x 6 the start body is on the board |
| `Game.WallCrashExample` | script.js:156-159 | a snake with its head at `(cols - 1, 5)` heading right loses on the next tick |
| `Game.ToggleTwice` | script.js:375-390 | pausing twice restores the state |
| `Game.KeyPreservesInv` | script.js:335-372 | every key keeps the invariant |
| `Game.KeyActs` | script.js:335-372 | Confirm on the overlay starts a new game (`Init`); Pause off the overlay, paused or running, gives `Toggle`; in an unpaused started game, Up and Down with `dy == 0` request `(0, -1)` and `(0, 1)`, and Left and Right with `dx == 0` request `(-1, 0)` and `(1, 0)`, through `Turn`; Up or Down while `dy != 0`, and Left or Right while `dx != 0`, leave the state unchanged |
| `Game.ArrowIsSteer` | script.js:355-366 | in a running, unpaused game each arrow acts exactly as `changeDirection` with its vector: the axis guard refuses only requests that `Turn` would refuse anyway |
| `Game.ArrowAcrossAxisTurns` | script.js:355-366 | in a running game an arrow across the current axis always sets exactly its direction |
| `Game.KeyOnlySteersOrPauses` | script.js:352-371 | in a started game a key changes at most the direction or the pause flag; it never reverses the snake; it turns only on an arrow while unpaused; it pauses only on Pause |
| `Game.TwoKeysBetweenTicksReverse` | script.js:353-366 | each key is checked against the current direction only, so heading right, Up then Left before the next tick leaves the snake heading left, and that tick is a self collision |
| `Game.CrashThenRestartIsSessionStep` | script.js:299-302 | a lost game sets the record to `AfterGames` of the old record and the final score; Confirm then starts a new game that keeps that record |
| `Game.RecordNeverDecreases` | script.js:238-244 | no tick and no key lowers the record |
| `Game.Controller.constructor` | script.js:396-400 | on load: the stored record, the welcome overlay, no snake or fruit yet, interval 150 |
| `Game.Controller.SaveHighScore` | script.js:238-244 | the record becomes `SavedHigh` of score and record, and nothing else changes |
| `Game.Controller.IncrementScore` | script.js:69-77 | score, interval and timer restart are as `Increment` says, and nothing else changes |
| `Game.Controller.InitGame` | script.js:247-271 | the state becomes `Init` of the old state, with fresh snake and fruit objects |
| `Game.Controller.GameLoop` | script.js:293-332 | the new state and the signalled events are `Tick` of the old state; the invariant is kept |
| `Game.Controller.EatFruit` | script.js:309-322 | the eating branch leaves the state and events that `Tick` gives |
| `Game.Controller.ShowOverlay` | script.js:280-290 | the overlay is displayed |
| `Game.Controller.TogglePause` | script.js:375-390 | the state becomes `Toggle` of the old state |
| `Game.Controller.KeyDown` | script.js:335-372 | the state becomes `Key` of the old state; the invariant is kept |

## Left out

- Drawing is not modelled: `Snake.draw`, `Fruit.draw` and `drawBoard` are canvas calls and floating-point eye geometry.
- Sound is not modelled. A tick reports the eat, achievement and lose sounds as the events `Ate`, `Achievement` and `Lost`. The background music (start, pause, resume) is not recorded.
- The timer is not modelled: `setInterval`, `clearInterval` and `resetInterval`. The model keeps only the interval value. A tick reports an interval restart as `SpeedUp`. Pausing and the overlay stop the loop in the script; in the model `Tick` is gated on the flags instead.
- The DOM is not modelled: score and record text, overlay HTML, button wiring and `pauseBtn`. "Overlay displayed" is the boolean `overlay`. The overlay's restart button calls the same `initGame` as Enter.
- Storage is not modelled: `localStorage` and `parseInt` in `loadHighScore`. The loaded record is an arbitrary non-negative integer passed to the constructor. `saveHighScore`'s write to storage is not modelled.
- `FruitEntity.Scale`: draws and the product `u * cols` are exact reals, not IEEE doubles. A double product can round up to the next integer where the exact product does not. No property depends on this: both results lie in `[0, n)`, and the draws are arbitrary.
- The random generator is not modelled. It is replaced by an explicit sequence of draws. Whether the rejection loop ends depends on those draws, so it is a precondition rather than a probabilistic argument.
- `cols` and `rows` are taken as positive integers. The script computes them by dividing the canvas size by 20, and the canvas is not part of this model.
- Before the first game the script leaves `snake`, `fruit` and `score` undefined. The model has no snake or fruit objects (`null`, an empty body, `None`) and a score of 0.
- `Snake.grow` is not modelled: it does nothing, and growth is the skipped `shrink`.
- Key strings are not modelled. Keys are the abstract commands Up, Down, Left, Right, Pause, Confirm and Other. Case folding and the WASD aliases belong to the key strings.
