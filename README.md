# Breakout, modelled in Dafny

This project models the game logic of `Breakout.java`, a one-player arcade game. A
ball bounces in a 390 × 625 arena and destroys a 10 × 10 grid of bricks. The player
keeps the ball in play with a paddle that follows the mouse. The player has three lives.
Each brick is worth 100 points times the current combo. The combo counts the bricks hit
since the ball last touched the paddle, plus one.

The model has five modules:

- `Geometry`: the constants of the game and `createBricks`. The brick grid is built by
  the same nested loop, with the same running colour gradient.
- `Collision`: graphics objects compared by identity, the canvas's `getElementAt` and
  `getCollidingObject`. `getElementAt` is a function parameter (`Oracle`) that may
  answer anything. `getCollidingObject` probes four corners in a fixed order. The
  paddle test comes before the `instanceof GRect` test.
- `ScoreStore`: the high-score file as a value, either missing or holding the two
  integers the game writes. It covers `getHighScore` and `updateHighScore`.
- `Rules`: the session fields as a datatype, and every transition as a pure function.
  The transitions are:
  - one pass of the `playBall` loop body, and the loop run over a finite list of ticks;
  - `loseALife`, `win`, `resetGame`, `startTheBall`;
  - the mouse handler.

  The properties are lemmas about these functions: scoring, combo, walls, lives, ball
  scores and the high score.
- `BreakoutGame`: the class `Breakout`, with the fields the Java class updates in place.
  Each method models a Java method, one branch of one, or one segment of the
  `playBall` loop body (`BounceOffWalls`, `BottomWall`, `Collide`). Its postcondition ties the new
  field values to the pure function that specifies it:
  - most methods use the `Rules` function of the same name;
  - `BounceOffWalls` uses `Rules.Walls`;
  - `BounceOffPaddle` and `ScoreBrick` use `Rules.Respond`;
  - `MovePaddle` uses `Rules.MouseMoved`;
  - `ReadHighScore` uses `ScoreStore.GetHighScore`;
  - `CreatePaddle` uses no function: its postcondition states the new paddle and that
    no other field changes.

  The `Valid()` invariant (`Rules.Inv`) is kept by every operation a caller uses: the
  constructor, `StartTheBall`, `Tick`, `PlayBall` and `MouseMoved`. `LoseALife`, `Win`,
  `ResetGame`, `BottomWall` and `Collide` also ensure it, and `Collide` also requires
  it. The other helper steps neither require nor ensure it.

Other modelling choices:

- The two `Math.random()` draws of `startTheBall` are the parameters `r1` and `r2`.
- The mouse event's x-coordinate is the parameter `ex`.
- The canvas at each tick is an `Oracle` parameter.
- Java `double` is modelled as `real` and Java `int` as `int`. No value in the game
  comes near 32-bit overflow.
- `resetGame` calls `run()` recursively. The model replaces that with a return to the
  state that waits for the click starting the ball:
  - `setup` is re-run: the high score is re-read, and a new paddle is created at x = 0
    with a new ball on it;
  - nothing else is re-initialised.

The model follows the code in these details:

- The paddle is not clamped to the arena. It moves by the full mouse movement whenever
  the paddle-side guard holds, so it can overshoot a wall (`PaddleCanOvershoot`).
- The combo is not reset at the end of a round. A round that ended during a run of
  bricks starts the next round with that combo (`ComboCarriesIntoNextRound`).
- The bottom, right and left wall tests compare the ball's top-left corner with the
  boundary. They do not use the ball's bottom or right edge.
- A missing score file is created holding 0 and the current max combo, and 0 is read.
  The model has no separate default for the max combo.
- The old paddle is not removed when a new one is created after a round. It is a GRect
  that is no longer `paddle`, so it would score as a brick whenever `getElementAt`
  returns it (`OldPaddleScoresAsBrick`).

## Model

| member | source | states |
|---|---|---|
| Geometry.CreateBricks | breakout/src/Breakout.java:210-230 | returns exactly 100 bricks; brick k is at row k div 10, column k mod 10, with the grid's position formula and the colour after k gradient updates |
| Geometry.GradientStaysValid | breakout/src/Breakout.java:211-227 | every colour of the 100 gradient updates has all components in 0..255, so no Color constructor throws |
| Geometry.BrickInArena | breakout/src/Breakout.java:216-220 | every grid brick lies inside the arena, below the brick offset and above the paddle line |
| Geometry.BricksDisjoint | breakout/src/Breakout.java:214-220 | bricks at two different cells do not overlap |
| Geometry.GridMatchesCounter | breakout/src/Breakout.java:55-77 | the grid has 100 cells, the initial brick counter; the brick width is 35 |
| Rules.ConstantsAgree | breakout/src/Breakout.java:237-249 | the real-valued constants (paddle top, ball offset and top, walls, paddle guard) are the ones the game derives from its integer constants |
| Collision.Corners | breakout/src/Breakout.java:524-532 | there are four probe points |
| Collision.CollidingObject | breakout/src/Breakout.java:524-535 | None exactly when no corner reports an object; otherwise the object at the first corner, in precedence order, that reports one |
| Collision.Classify | breakout/src/Breakout.java:361-367 | a paddle hit exactly when the collider is the paddle object; a brick hit exactly when it is another GRect; otherwise no hit |
| Collision.PaddleBeforeBrick | breakout/src/Breakout.java:361-367 | the paddle, although a GRect, is never scored as a brick |
| Collision.FirstCornerWins | breakout/src/Breakout.java:525-526 | an object at the top-left corner is the collider whatever the other corners hold |
| ScoreStore.UpdateHighScore | breakout/src/Breakout.java:289-299 | the file exists afterwards; what it holds (the score, read back as the high score) is proved by ScoreStore.ReadAfterWrite and Rules.EndRoundHighScore |
| ScoreStore.GetHighScore | breakout/src/Breakout.java:267-278 | the value read is the file's high score afterwards; an existing file is left as it is; a missing file reads as 0 |
| ScoreStore.ReadAfterWrite | breakout/src/Breakout.java:267-299 | reading after a write returns the written score and leaves the file unchanged |
| ScoreStore.ReadIsStable | breakout/src/Breakout.java:267-278 | a second read returns what the first returned |
| Rules.StartTheBall | breakout/src/Breakout.java:314-324 | the ball is started with vy = 0.75 and 0.3 ≤ abs(vx) < 0.3 + 1/3, vx negative exactly when the second draw is below 0.5 |
| Rules.InitialInv | breakout/src/Breakout.java:77-107 | the initial fields and first setup satisfy the invariant; the high score is the file's, or 0 when it is missing |
| Rules.ResetGameInv | breakout/src/Breakout.java:506-519 | a reset yields a state satisfying the invariant |
| Rules.StartTheBallInv | breakout/src/Breakout.java:314-324 | starting the ball keeps the invariant |
| Rules.LoseALifeInv | breakout/src/Breakout.java:398-445 | losing a ball, with or without a round end, yields a state satisfying the invariant |
| Rules.WinInv | breakout/src/Breakout.java:451-486 | a win yields a state satisfying the invariant |
| Rules.TickInv | breakout/src/Breakout.java:335-388 | one pass of the loop body keeps the invariant |
| Rules.CollideInv | breakout/src/Breakout.java:346-388 | the wall, collider and win part of the loop body keeps the invariant |
| Rules.TickNewPaddle | breakout/src/Breakout.java:341-388 | the paddle created at a round end never affects a tick's outcome, and affects the state only in its paddle field when the round ends |
| Rules.PlayBallPaddle | breakout/src/Breakout.java:331-390 | the same holds for a whole run of the ball loop |
| Rules.MouseMovedInv | breakout/src/Breakout.java:539-584 | the mouse handler keeps the invariant, including a not-started ball sitting on the paddle |
| Rules.TickBottomWall | breakout/src/Breakout.java:341-344 | once the moved ball is at or below HEIGHT, the ball is lost with velocity and combo unchanged and no collider looked at; game over exactly on the last life; otherwise one life fewer and score, bricks and max combo unchanged |
| Rules.TickWalls | breakout/src/Breakout.java:346-354 | the top flips only vy; either side flips only vx, at most once; nothing else changes; a collider then flips vy once more |
| Rules.TickPaddle | breakout/src/Breakout.java:361-364 | a paddle hit flips vy, sets the combo to 1, keeps score, bricks, max combo and lives, and continues the loop |
| Rules.TickBrick | breakout/src/Breakout.java:367-388 | a brick hit adds 100·combo, increments the combo, makes the max combo the larger of its old value and the old combo (so at least combo − 1), and removes one brick; the round is won exactly when it was the last brick, and otherwise the loop goes on |
| Rules.RespondBrick | breakout/src/Breakout.java:367-383 | the brick response changes exactly vy, score, combo, max combo and brick counter: vy flips, score + 100·combo, combo + 1, max combo the larger of the old one and the old combo, one brick fewer |
| Rules.TickMiss | breakout/src/Breakout.java:357-367 | with no GRect at the corners only the move and the walls happen |
| Rules.TickIsResponse | breakout/src/Breakout.java:341-388 | a tick that goes on is exactly the response to its collider after the move and the walls |
| Rules.ContinuingTick | breakout/src/Breakout.java:335-388 | a tick that goes on leaves score, combo, max combo and bricks as one response to its collider from the state before the tick |
| Rules.TickMonotone | breakout/src/Breakout.java:335-388 | while the round goes on, max combo and score never decrease and lives and bricks never grow |
| Rules.TickContinues | breakout/src/Breakout.java:357-388 | a tick that lets the loop go on keeps the ball started and the paddle object |
| Rules.PlayBallMonotone | breakout/src/Breakout.java:331-390 | a run of the loop takes at most the given ticks and all of them when it never ends, keeps the invariant, and while the round goes on never lowers max combo or score nor raises lives |
| Rules.GameOverBallScores | breakout/src/Breakout.java:403-428 | losing the last ball ends the round with 0 lives; the three ball scores are non-negative and add up to the final score |
| Rules.BallLostLivesLeft | breakout/src/Breakout.java:399-407 | losing a ball with lives left removes one life, records that ball's score, keeps score and combo, and puts a new ball on the paddle |
| Rules.WinBallScores | breakout/src/Breakout.java:469-477 | on a win with L lives left, the scores of the 4 − L balls used are non-negative and add up to the final score |
| Rules.EndRoundHighScore | breakout/src/Breakout.java:432-434 | the file is written, with the score and the max combo, exactly when score > highScore (strict); the next round shows the larger of the two |
| Rules.ResetFields | breakout/src/Breakout.java:513-516 | reset sets exactly lives 3, score 0, bricks 100, max combo 1, leaves combo, ball scores, velocities and the mouse counter unchanged, and puts a new paddle and ball at the left edge |
| Rules.ComboCarriesIntoNextRound | breakout/src/Breakout.java:506-519 | the combo is not reset, so the first brick of the next round can be worth 400 |
| Rules.OldPaddleScoresAsBrick | breakout/src/Breakout.java:361-367 | after a reset the previous paddle object is classified as a brick |
| Rules.StreakPointsClosedForm | breakout/src/Breakout.java:370-372 | n bricks from combo c are worth 100·n·c + 50·n·(n−1) |
| Rules.BrickStreak | breakout/src/Breakout.java:367-378 | n consecutive brick hits from combo c add the streak's points, leave combo c + n and n fewer bricks, and record max combo max(old, c + n − 1) |
| Rules.StreakFromPaddle | breakout/src/Breakout.java:361-372 | from combo 1, n consecutive bricks add 50·n·(n+1) |
| Rules.StreakFromOne | breakout/src/Breakout.java:7-13 | 100·(1 + … + n) = 50·n·(n+1) |
| Rules.ThreeBricksThenPaddle | breakout/src/Breakout.java:7-13 | three bricks from score 0 and combo 1 give 600, combo 4 and max combo ≥ 3; a paddle touch then keeps 600 and resets the combo to 1 |
| Rules.MaxComboIsLongestRun | breakout/src/Breakout.java:374-378 | after any sequence of collisions the combo is one more than the bricks since the last paddle hit, and the max combo is the longest such run or its old value, with no off-by-one |
| Rules.MaxComboMonotone | breakout/src/Breakout.java:374-378 | max combo never decreases along collisions; from combo ≥ 1 neither does the score |
| Rules.PlayBallIsResponses | breakout/src/Breakout.java:331-390 | by induction over a run of the ball loop that goes on: score, combo, max combo and bricks are those of the chain of responses to the run's collisions |
| Rules.PlayBallLongestRun | breakout/src/Breakout.java:331-390 | over such a run, the combo is one more than the bricks hit since the last paddle touch, and the max combo is the longest run of bricks (or its old value) |
| Rules.EveryFifthEvent | breakout/src/Breakout.java:540-583 | from counter t, after n events the counter is (t−1+n) mod 5 + 1 and (t−1+n) div 5 events moved the paddle |
| Rules.FirstEventSkipped | breakout/src/Breakout.java:98 | the first event after start-up only advances the counter |
| Rules.MouseMoveRule | breakout/src/Breakout.java:542-576 | an acting event moves the paddle (and a not-started ball) by the mouse movement when the side guard allows, records the mouse x, resets the counter to 1, and changes nothing else |
| Rules.PaddleCanOvershoot | breakout/src/Breakout.java:547-551 | the guard does not clamp: the paddle can be moved past the right wall |
| BreakoutGame.Breakout.constructor | breakout/src/Breakout.java:77-107 | the field initialisers and first setup give the initial state, which is valid |
| BreakoutGame.Breakout.ReadHighScore | breakout/src/Breakout.java:181 | the high score and the file become what getHighScore yields |
| BreakoutGame.Breakout.CreatePaddle | breakout/src/Breakout.java:236-241 | a new GRect paddle at the left edge; nothing else changes |
| BreakoutGame.Breakout.CreateBall | breakout/src/Breakout.java:247-257 | a new ball, not started, on the paddle |
| BreakoutGame.Breakout.Setup | breakout/src/Breakout.java:155-161 | the fields become Rules.Setup of the old ones with the new paddle |
| BreakoutGame.Breakout.StartTheBall | breakout/src/Breakout.java:314-324 | the fields become Rules.StartTheBall of the old ones; the invariant is kept |
| BreakoutGame.Breakout.ResetGame | breakout/src/Breakout.java:506-519 | the fields become Rules.ResetGame of the old ones; the result is valid |
| BreakoutGame.Breakout.EndRound | breakout/src/Breakout.java:428-436 | the report, the high-score check and the reset that both loseALife and win end a round with, as Rules.EndRound |
| BreakoutGame.Breakout.LoseALife | breakout/src/Breakout.java:398-445 | the fields and the report become Rules.LoseALife of the old fields; the result is valid |
| BreakoutGame.Breakout.Win | breakout/src/Breakout.java:451-486 | the fields and the report become Rules.Win of the old fields; the result is valid |
| BreakoutGame.Breakout.BounceOffWalls | breakout/src/Breakout.java:346-354 | the fields become Rules.Walls of the old ones |
| BreakoutGame.Breakout.Respond | breakout/src/Breakout.java:357-388 | returns the collider's class and applies Rules.Respond to it |
| BreakoutGame.Breakout.BounceOffPaddle | breakout/src/Breakout.java:361-364 | the paddle response of Rules.Respond |
| BreakoutGame.Breakout.ScoreBrick | breakout/src/Breakout.java:367-383 | the brick response of Rules.Respond |
| BreakoutGame.Breakout.Tick | breakout/src/Breakout.java:335-388 | one pass of the loop body, as Rules.Tick; the invariant is kept |
| BreakoutGame.Breakout.PlayBall | breakout/src/Breakout.java:331-390 | the loop over the given ticks ends in the state, outcome and tick count of Rules.PlayBall; the invariant is kept |
| BreakoutGame.Breakout.BottomWall | breakout/src/Breakout.java:341-344 | the fields and outcome become Rules.BottomWall of the old fields |
| BreakoutGame.Breakout.Collide | breakout/src/Breakout.java:346-388 | the fields and outcome become Rules.Collide of the old fields; the invariant is kept |
| BreakoutGame.Breakout.MouseMoved | breakout/src/Breakout.java:539-584 | the fields become Rules.MouseMoved of the old ones; the invariant is kept |
| BreakoutGame.Breakout.MovePaddle | breakout/src/Breakout.java:542-576 | the acting branch of the mouse handler, as Rules.MouseMoved on a counter at 5 |

## Left out

- Graphics: the background image, the labels and their text, colours and fonts, and
  adding objects to or removing them from the canvas. The canvas is the opaque `Oracle`,
  so the removal of a hit brick and the re-creation of the grid at setup are not
  modelled. Which object is at a point on a later tick is the caller's choice.
- `getElementAt` is called twice for a corner that reports an object. The model calls
  it once. Since the model applies mouse events only between ticks, the canvas does not
  change between the two calls. In the game a mouse event can move the paddle between
  them.
- File I/O beyond the value of the file: a failure to create the file (which only prints
  a message), a file whose first token is not an integer (which makes `Scanner` throw),
  and the second line of the file, which is written but never read.
- `pause(1)`, `waitForClick()`, `addMouseListeners()` and the delivery of mouse events
  concurrently with the loop. The model applies each event between two ticks.
- The unbounded recursion `resetGame → run → play` and `loseALife → play`. A round end
  returns to the waiting state. A lost ball with lives left returns a new ball on the
  paddle, which waits for `Rules.StartTheBall`. The code of `loseALife` after its
  `resetGame()` call is never reached, because the recursive `run()` it follows never
  returns.
- BreakoutGame.Breakout.PlayBall: the `while (true)` loop is run over a finite sequence
  of ticks, one canvas each, because the Dafny model must terminate. A run that uses up
  the sequence without ending the round returns `Continue`.
- IEEE double rounding: for example `6 * 2.1` and the accumulated ball position are
  exact reals here.
- `main` and the window size arguments.

