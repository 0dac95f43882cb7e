/**
 * The game object: the session fields that the Java class updates in place, and the
 * methods that update them. Each method is specified by a pure function whose
 * properties are proved in Rules: mostly the transition of the same name;
 * BounceOffWalls by Rules.Walls, BounceOffPaddle and ScoreBrick by Rules.Respond,
 * MovePaddle by Rules.MouseMoved and ReadHighScore by ScoreStore.GetHighScore.
 * CreatePaddle states its new field directly.
 */
module BreakoutGame {
  import opened Geometry
  import opened Collision
  import opened ScoreStore
  import Rules

  class Breakout {
    var nbricks: int
    var lives: int
    var score: int
    var combo: int
    var maxCombo: int
    var ball1Score: int
    var ball2Score: int
    var ball3Score: int
    var highScore: int
    /** counts mouse events; the paddle moves only when it reaches 5 */
    var toggle: int
    var vx: real
    var vy: real
    /** the ball's bounding box, top-left corner */
    var ballX: real
    var ballY: real
    /** the paddle's left edge; its top edge is fixed at Rules.PADDLE_Y */
    var paddleX: real
    /** the mouse x-coordinate at the last event that moved the paddle */
    var lastX: real
    var ballStarted: bool
    /** the current paddle object */
    var paddle: GObject
    /** the contents of the high-score file */
    var store: ScoreFile

    /** The fields as a session value. */
    function State(): Rules.Session
      reads this
    {
      Rules.Session(nbricks, lives, score, combo, maxCombo,
                    ball1Score, ball2Score, ball3Score, highScore, toggle,
                    vx, vy, ballX, ballY, paddleX, lastX, ballStarted, paddle, store)
    }

    predicate Valid()
      reads this
    {
      Rules.Inv(State())
    }

    /** The field initialisers, then setup (which reads the high score from `file`). */
    constructor (file: ScoreFile)
      ensures Valid() && fresh(paddle)
      ensures State() == Rules.Initial(file, paddle)
    {
      nbricks := NBRICKS;
      lives := 3;
      score := 0;
      combo := 1;
      maxCombo := 1;
      ball1Score, ball2Score, ball3Score := 0, 0, 0;
      highScore := 0;
      toggle := 0;
      vx, vy := 0.0, 0.0;
      lastX := 0.0;
      ballStarted := false;
      store := file;
      // createPaddle and createBall of the first setup
      paddle := new GObject(Rect);
      paddleX := 0.0;
      ballX, ballY := Rules.BALL_X_OFFSET, Rules.BALL_Y;
      new;
      ReadHighScore();
      Rules.InitialInv(file, paddle);
    }

    /** highScore = getHighScore("highScore.txt") */
    method ReadHighScore()
      modifies this
      ensures var (h, f) := GetHighScore(old(store), old(maxCombo));
        State() == old(State()).(highScore := h, store := f)
    {
      var (h, f) := GetHighScore(store, maxCombo);
      highScore, store := h, f;
    }

    /** createPaddle: a new GRect at the left edge */
    method CreatePaddle()
      modifies this
      ensures fresh(paddle) && paddle.kind == Rect
      ensures State() == old(State()).(paddle := paddle, paddleX := 0.0)
    {
      paddle := new GObject(Rect);
      paddleX := 0.0;
    }

    method CreateBall()
      modifies this
      ensures State() == Rules.CreateBall(old(State()))
    {
      ballX := paddleX + Rules.BALL_X_OFFSET;
      ballY := Rules.BALL_Y;
      ballStarted := false;
    }

    /** setup without its graphics: the high score, a new paddle, a new ball */
    method Setup()
      modifies this
      ensures fresh(paddle) && paddle.kind == Rect
      ensures State() == Rules.Setup(old(State()), paddle)
    {
      ReadHighScore();
      CreatePaddle();
      CreateBall();
    }

    /** startTheBall, with the two Math.random() draws as r1 and r2 */
    method StartTheBall(r1: real, r2: real)
      requires Valid() && 0.0 <= r1 < 1.0 && 0.0 <= r2 < 1.0
      modifies this
      ensures Valid()
      ensures State() == Rules.StartTheBall(old(State()), r1, r2)
    {
      ballStarted := true;
      vx := r1 / 3.0 + 0.3;
      if r2 < 0.5 {
        vx := -vx;
      }
      vy := 0.75;
      Rules.StartTheBallInv(old(State()), r1, r2);
    }

    /**
     * resetGame: the round fields are reset and the game returns to the state in which
     * it awaits the click that starts the ball (the setup of run, without re-entering it).
     */
    method ResetGame()
      requires combo >= 1 && 0 <= toggle <= Rules.TOGGLE_PERIOD
      modifies this
      ensures Valid() && fresh(paddle)
      ensures State() == Rules.ResetGame(old(State()), paddle)
    {
      lives, score, nbricks, maxCombo := 3, 0, NBRICKS, 1;
      Setup();
      Rules.ResetGameInv(old(State()), paddle);
    }

    /**
     * The end of a round, as loseALife and win both do it: the report of the round,
     * the high-score check, then resetGame.
     */
    method EndRound() returns (report: Rules.Report)
      requires combo >= 1 && 0 <= toggle <= Rules.TOGGLE_PERIOD
      modifies this
      ensures fresh(paddle) && paddle.kind == Rect
      ensures (State(), report) == Rules.EndRound(old(State()), paddle)
    {
      report := Rules.Report(lives, score, maxCombo, ball1Score, ball2Score, ball3Score,
                             score > highScore);
      if score > highScore {
        store := UpdateHighScore(score, maxCombo);
      }
      ResetGame();
    }

    /** loseALife; at the end of the round the report of the round is returned */
    method LoseALife() returns (over: Option<Rules.Report>)
      requires Rules.Bookkeeping(State()) && 1 <= nbricks <= NBRICKS
      modifies this
      ensures Valid()
      ensures paddle != old(paddle) ==> fresh(paddle)
      ensures (State(), over) == Rules.LoseALife(old(State()), paddle)
    {
      lives := lives - 1;
      if lives == 2 {
        ball1Score := score;
      } else if lives == 1 {
        ball2Score := score - ball1Score;
      } else if lives == 0 {
        ball3Score := score - ball2Score - ball1Score;
        var report := EndRound();
        Rules.LoseALifeInv(old(State()), paddle);
        return Some(report);
      }
      CreateBall();
      Rules.LoseALifeInv(old(State()), paddle);
      over := None;
    }

    /** win: the report of the round is returned */
    method Win() returns (report: Rules.Report)
      requires Rules.Bookkeeping(State())
      modifies this
      ensures Valid() && fresh(paddle)
      ensures (State(), report) == Rules.Win(old(State()), paddle)
    {
      if lives == 3 {
        ball1Score := score;
      } else if lives == 2 {
        ball2Score := score - ball1Score;
      } else if lives == 1 {
        ball3Score := score - ball2Score - ball1Score;
      }
      report := EndRound();
      Rules.WinInv(old(State()), paddle);
    }

    /** The top and side walls of the loop body, once the bottom wall is ruled out. */
    method BounceOffWalls()
      modifies this
      ensures State() == Rules.Walls(old(State()))
    {
      if ballY <= 0.0 {
        vy := -vy;
      }
      if ballX >= Rules.RIGHT_WALL {
        vx := -vx;
      } else if ballX <= 0.0 {
        vx := -vx;
      }
    }

    /**
     * The response of the loop body to the collider: the paddle resets the combo, any
     * other GRect is a brick that scores and is removed. Returns the collider's class.
     */
    method Respond(collider: Option<GObject>) returns (hit: Hit)
      modifies this
      ensures hit == Classify(collider, old(paddle))
      ensures State() == Rules.Respond(old(State()), hit)
    {
      hit := Classify(collider, paddle);
      if collider == Some(paddle) {
        BounceOffPaddle();
      } else if collider.Some? && collider.value.kind == Rect {
        ScoreBrick();
      }
    }

    /** The paddle was hit: the ball bounces and the combo restarts. */
    method BounceOffPaddle()
      modifies this
      ensures State() == Rules.Respond(old(State()), PaddleHit)
    {
      vy := -vy;
      combo := 1;
    }

    /**
     * A brick was hit: the ball bounces, the brick scores 100 times the combo, the combo
     * grows, the max combo is updated and the brick counter drops.
     */
    method ScoreBrick()
      modifies this
      ensures State() == Rules.Respond(old(State()), BrickHit)
    {
      var c, m := combo + 1, maxCombo;
      if c > m {
        m := c - 1;
      }
      vy, score, combo, maxCombo, nbricks := -vy, score + Rules.BRICK_POINTS * combo, c, m, nbricks - 1;
    }

    /** One pass of the body of the ball loop, with the canvas's getElementAt as `at`. */
    method Tick(at: Oracle) returns (o: Rules.Outcome)
      requires Valid() && ballStarted
      modifies this
      ensures Valid()
      ensures paddle != old(paddle) ==> fresh(paddle)
      ensures (State(), o) == Rules.Tick(old(State()), at, paddle)
    {
      ghost var s := State();
      ballX, ballY := ballX + vx, ballY + vy;
      assert State() == Rules.Move(s);
      if ballY >= Rules.BOTTOM_WALL {
        o := BottomWall();
      } else {
        o := Collide(at);
      }
    }

    /**
     * playBall: the loop body runs at each tick, the canvas at tick i answering as
     * ats[i], until a tick ends the loop (the ball is lost or the last brick is hit)
     * or the given ticks run out. Returns the last outcome and the ticks run.
     */
    method PlayBall(ats: seq<Oracle>) returns (o: Rules.Outcome, ticks: nat)
      requires Valid() && ballStarted
      modifies this
      ensures Valid()
      ensures paddle != old(paddle) ==> fresh(paddle)
      ensures Rules.PlayBall(old(State()), ats, paddle) == Rules.Played(State(), o, ticks)
    {
      ghost var s0, p0 := State(), paddle;
      var i := 0;
      while i < |ats|
        invariant 0 <= i <= |ats|
        invariant Valid() && ballStarted && paddle == p0
        invariant Rules.PlayBall(s0, ats, p0) == Rules.After(i, Rules.PlayBall(State(), ats[i..], p0))
      {
        ghost var before, rest := State(), ats[i..];
        assert rest[0] == ats[i] && rest[1..] == ats[i + 1..];
        o := Tick(ats[i]);
        if o != Rules.Continue {
          Rules.TickNewPaddle(before, ats[i], p0, paddle);
          Rules.PlayBallPaddle(s0, ats, p0, paddle);
          ticks := i + 1;
          return;
        }
        Rules.TickContinues(before, ats[i], paddle);
        assert Rules.PlayBall(before, rest, p0) == Rules.After(1, Rules.PlayBall(State(), ats[i + 1..], p0));
        i := i + 1;
      }
      o, ticks := Rules.Continue, |ats|;
    }

    /** The moved ball reached the bottom wall: one life is lost and the loop ends. */
    method BottomWall() returns (o: Rules.Outcome)
      requires Rules.Bookkeeping(State()) && 1 <= nbricks <= NBRICKS
      modifies this
      ensures Valid()
      ensures paddle != old(paddle) ==> fresh(paddle)
      ensures (State(), o) == Rules.BottomWall(old(State()), paddle)
    {
      var over := LoseALife();
      o := if over.Some? then Rules.GameOver(over.value) else Rules.LifeLost;
    }

    /** The rest of the loop body once the ball is not lost: walls, collider, win. */
    method Collide(at: Oracle) returns (o: Rules.Outcome)
      requires Valid() && ballStarted
      modifies this
      ensures Valid()
      ensures paddle != old(paddle) ==> fresh(paddle)
      ensures (State(), o) == Rules.Collide(old(State()), at, paddle)
    {
      ghost var m := State();
      BounceOffWalls();
      var collider := CollidingObject(at, ballX, ballY);
      var hit := Respond(collider);
      if hit == BrickHit && nbricks == 0 {
        var report := Win();
        return Rules.Won(report);
      }
      o := Rules.Continue;
      Rules.CollideInv(m, at, paddle);
    }

    /** mouseMoved, with the event's x-coordinate `ex` */
    method MouseMoved(ex: int)
      requires Valid()
      modifies this
      ensures Valid()
      ensures State() == Rules.MouseMoved(old(State()), ex)
    {
      if toggle == Rules.TOGGLE_PERIOD {
        MovePaddle(ex);
      } else {
        toggle := toggle + 1;
      }
      Rules.MouseMovedInv(old(State()), ex);
    }

    /**
     * The fifth mouse event: the paddle follows the mouse's movement since the last
     * such event, unless it is already at the wall it moves towards; a ball not yet
     * started moves with it.
     */
    method MovePaddle(ex: int)
      requires toggle == Rules.TOGGLE_PERIOD
      modifies this
      ensures State() == Rules.MouseMoved(old(State()), ex)
    {
      var d := ex as real - lastX;
      if d > 0.0 {
        if paddleX < Rules.PADDLE_X_LIMIT {
          paddleX := paddleX + d;
          if !ballStarted {
            ballX := ballX + d;
          }
        }
      } else {
        if paddleX > 0.0 {
          paddleX := paddleX + d;
          if !ballStarted {
            ballX := ballX + d;
          }
        }
      }
      lastX := ex as real;
      toggle := 1;
    }
  }
}
