/**
 * The game's session state and its transitions, as pure functions: one tick of the
 * ball loop, losing a ball, winning, resetting, starting the ball and the mouse handler.
 * The class BreakoutGame.Breakout runs the same transitions on its fields.
 */
module Rules {
  import opened Geometry
  import opened Collision
  import opened ScoreStore

  /** the paddle's fixed top edge, HEIGHT - PADDLE_Y_OFFSET */
  const PADDLE_Y: real := 565.0
  /** a new ball's left edge relative to the paddle's, PADDLE_WIDTH / 2 - BALL_RADIUS */
  const BALL_X_OFFSET: real := 24.0
  /** a new ball's top edge, PADDLE_Y - BALL_RADIUS * 2.1 */
  const BALL_Y: real := 552.4
  /** the right and bottom walls, WIDTH and HEIGHT */
  const RIGHT_WALL: real := 390.0
  const BOTTOM_WALL: real := 625.0
  /** the paddle-side guard of the mouse handler, WIDTH - PADDLE_WIDTH */
  const PADDLE_X_LIMIT: real := 330.0
  /** points per brick at combo 1 */
  const BRICK_POINTS: int := 100
  /** the mouse handler acts when its counter reaches this value */
  const TOGGLE_PERIOD: int := 5

  /** The session fields of the game, plus the current paddle object and the score file. */
  datatype Session = Session(
    nbricks: int, lives: int, score: int, combo: int, maxCombo: int,
    ball1Score: int, ball2Score: int, ball3Score: int, highScore: int, toggle: int,
    vx: real, vy: real, ballX: real, ballY: real, paddleX: real, lastX: real,
    ballStarted: bool, paddle: GObject, store: ScoreFile)

  /** What a finished round shows: lives left, score, max combo, the three ball-score labels. */
  datatype Report = Report(lives: int, score: int, maxCombo: int,
                           ball1Score: int, ball2Score: int, ball3Score: int,
                           newHighScore: bool)

  /** How one tick of the ball loop ends. */
  datatype Outcome = Continue | LifeLost | GameOver(report: Report) | Won(report: Report)

  function Max(a: int, b: int): int { if a >= b then a else b }

  /** The real-valued constants are the ones the game derives from its integer constants. */
  lemma ConstantsAgree()
    ensures PADDLE_Y == (HEIGHT - PADDLE_Y_OFFSET) as real
    ensures BALL_X_OFFSET == (PADDLE_WIDTH / 2 - BALL_RADIUS) as real
    ensures BALL_Y == PADDLE_Y - (BALL_RADIUS as real) * 2.1
    ensures RIGHT_WALL == WIDTH as real && BOTTOM_WALL == HEIGHT as real
    ensures PADDLE_X_LIMIT == (WIDTH - PADDLE_WIDTH) as real
  {
  }

  // ---------------------------------------------------------------------------
  // Invariant

  /** The bookkeeping the transitions keep, whatever the brick counter holds. */
  predicate Bookkeeping(s: Session) {
    && 1 <= s.lives <= 3
    && 0 <= s.score
    && s.combo >= 1 && s.maxCombo >= 1
    // the balls already lost scored what the score held when each was lost
    && (s.lives <= 2 ==> 0 <= s.ball1Score <= s.score)
    && (s.lives <= 1 ==> 0 <= s.ball2Score && s.ball1Score + s.ball2Score <= s.score)
    && 0 <= s.toggle <= TOGGLE_PERIOD
    // the high score shown is the one in the file
    && s.store.Saved? && s.store.highScore == s.highScore
    && s.paddle.kind == Rect
  }

  /** The invariant between two operations of the game. */
  predicate Inv(s: Session) {
    && Bookkeeping(s)
    && 1 <= s.nbricks <= NBRICKS
    // a ball not yet started sits on the paddle, and moves with it
    && (!s.ballStarted ==> s.ballX == s.paddleX + BALL_X_OFFSET && s.ballY == BALL_Y)
  }

  // ---------------------------------------------------------------------------
  // Setting up

  /** createBall: a new ball, not started, centred above the paddle. */
  function CreateBall(s: Session): Session {
    s.(ballX := s.paddleX + BALL_X_OFFSET, ballY := BALL_Y, ballStarted := false)
  }

  /**
   * setup: the high score is read from the file (creating it when missing), a new
   * paddle (the GRect `paddle`) is placed at the left edge and a new ball on it.
   */
  function Setup(s: Session, paddle: GObject): Session {
    var (h, f) := GetHighScore(s.store, s.maxCombo);
    CreateBall(s.(highScore := h, store := f, paddle := paddle, paddleX := 0.0))
  }

  /** The field initialisers followed by the first setup. */
  function Initial(store: ScoreFile, paddle: GObject): Session {
    Setup(Session(NBRICKS, 3, 0, 1, 1, 0, 0, 0, 0, 0,
                  0.0, 0.0, 0.0, 0.0, 0.0, 0.0, false, paddle, store), paddle)
  }

  /**
   * startTheBall: r1 and r2 are the two Math.random() draws. The x-speed is r1/3 + 0.3,
   * leftwards when r2 < 0.5; the y-speed is 0.75 (downwards on screen).
   */
  function StartTheBall(s: Session, r1: real, r2: real): (r: Session)
    requires 0.0 <= r1 < 1.0 && 0.0 <= r2 < 1.0
    ensures r.ballStarted && r.vy == 0.75
    ensures 0.3 <= (if r.vx < 0.0 then -r.vx else r.vx) < 0.3 + 1.0 / 3.0
    ensures r.vx < 0.0 <==> r2 < 0.5
  {
    var speed := r1 / 3.0 + 0.3;
    s.(ballStarted := true, vx := if r2 < 0.5 then -speed else speed, vy := 0.75)
  }

  // ---------------------------------------------------------------------------
  // The end of a round

  /** resetGame: the four round fields are reset, then setup runs again (run's re-entry). */
  function ResetGame(s: Session, paddle: GObject): Session {
    Setup(s.(lives := 3, score := 0, nbricks := NBRICKS, maxCombo := 1), paddle)
  }

  /** The labels shown at the end of a round, and whether the score beats the high score. */
  function ReportOf(s: Session): Report {
    Report(s.lives, s.score, s.maxCombo, s.ball1Score, s.ball2Score, s.ball3Score,
           s.score > s.highScore)
  }

  /** The high-score check: the file is written only when the score beats the high score. */
  function SaveHighScore(s: Session): Session {
    if s.score > s.highScore then s.(store := UpdateHighScore(s.score, s.maxCombo)) else s
  }

  /** The end of a round: report, high-score check, reset with the new paddle. */
  function EndRound(s: Session, paddle: GObject): (Session, Report) {
    (ResetGame(SaveHighScore(s), paddle), ReportOf(s))
  }

  /**
   * loseALife: one life fewer and the score of the ball just lost recorded; with
   * lives left a new ball is created, otherwise the round ends (the report is returned).
   */
  function LoseALife(s: Session, paddle: GObject): (Session, Option<Report>) {
    var l := s.(lives := s.lives - 1);
    if l.lives == 2 then
      (CreateBall(l.(ball1Score := l.score)), None)
    else if l.lives == 1 then
      (CreateBall(l.(ball2Score := l.score - l.ball1Score)), None)
    else if l.lives == 0 then
      var (r, report) := EndRound(l.(ball3Score := l.score - l.ball2Score - l.ball1Score), paddle);
      (r, Some(report))
    else
      (CreateBall(l), None)
  }

  /** win: the score of the ball in play recorded, then the round ends. */
  function Win(s: Session, paddle: GObject): (Session, Report) {
    var b :=
      if s.lives == 3 then s.(ball1Score := s.score)
      else if s.lives == 2 then s.(ball2Score := s.score - s.ball1Score)
      else if s.lives == 1 then s.(ball3Score := s.score - s.ball2Score - s.ball1Score)
      else s;
    EndRound(b, paddle)
  }

  // ---------------------------------------------------------------------------
  // One tick of the ball loop

  /** ball.move(vx, vy) */
  function Move(s: Session): Session {
    s.(ballX := s.ballX + s.vx, ballY := s.ballY + s.vy)
  }

  /** The top and side walls (the bottom wall is handled before this). */
  function Walls(s: Session): Session {
    var t := if s.ballY <= 0.0 then s.(vy := -s.vy) else s;
    if t.ballX >= RIGHT_WALL then t.(vx := -t.vx)
    else if t.ballX <= 0.0 then t.(vx := -t.vx)
    else t
  }

  /** The response to the collider: paddle resets the combo, a brick scores and is removed. */
  function Respond(s: Session, hit: Hit): Session {
    match hit
    case PaddleHit => s.(vy := -s.vy, combo := 1)
    case BrickHit =>
      var scored := s.(vy := -s.vy, score := s.score + BRICK_POINTS * s.combo, combo := s.combo + 1);
      var recorded := if scored.combo > scored.maxCombo then scored.(maxCombo := scored.combo - 1) else scored;
      recorded.(nbricks := recorded.nbricks - 1)
    case NoHit => s
  }

  /** The collider after the walls are handled, classified against the current paddle. */
  function HitAfterWalls(s: Session, at: Oracle): Hit {
    var w := Walls(Move(s));
    Classify(CollidingObject(at, w.ballX, w.ballY), w.paddle)
  }

  /**
   * One pass of the body of the ball loop. `paddle` is the new paddle that the
   * setup after a finished round creates; it is not used otherwise.
   */
  function Tick(s: Session, at: Oracle, paddle: GObject): (Session, Outcome) {
    var m := Move(s);
    if m.ballY >= BOTTOM_WALL then BottomWall(m, paddle) else Collide(m, at, paddle)
  }

  /** The moved ball reached the bottom wall: loseALife, and the loop ends. */
  function BottomWall(m: Session, paddle: GObject): (Session, Outcome) {
    var (r, over) := LoseALife(m, paddle);
    (r, if over.Some? then GameOver(over.value) else LifeLost)
  }

  /** The rest of the loop body: the other walls, then the collider. */
  function Collide(m: Session, at: Oracle, paddle: GObject): (Session, Outcome) {
    var w := Walls(m);
    var hit := Classify(CollidingObject(at, w.ballX, w.ballY), w.paddle);
    var h := Respond(w, hit);
    if hit == BrickHit && h.nbricks == 0 then
      var (r, report) := Win(h, paddle);
      (r, Won(report))
    else
      (h, Continue)
  }

  /** The state, the outcome and the number of ticks of a run of the ball loop. */
  datatype Played = Played(state: Session, outcome: Outcome, ticks: nat)

  /** A run with `n` more ticks in front of it. */
  function After(n: nat, p: Played): Played {
    Played(p.state, p.outcome, p.ticks + n)
  }

  /**
   * playBall: the loop body runs once per canvas in `ats` (getElementAt at each tick)
   * until a tick ends the loop or the canvases run out.
   */
  function PlayBall(s: Session, ats: seq<Oracle>, paddle: GObject): Played
    decreases |ats|
  {
    if ats == [] then Played(s, Continue, 0)
    else
      var (r, o) := Tick(s, ats[0], paddle);
      if o == Continue then After(1, PlayBall(r, ats[1..], paddle)) else Played(r, o, 1)
  }

  // ---------------------------------------------------------------------------
  // The mouse handler

  /** Whether an acting mouse event moves the paddle (and the ball), by `d` pixels. */
  predicate PaddleMoves(s: Session, d: real) {
    if d > 0.0 then s.paddleX < PADDLE_X_LIMIT else s.paddleX > 0.0
  }

  /**
   * mouseMoved with the event's x-coordinate `ex`: only when the counter is at 5 is the
   * paddle moved by the mouse's horizontal movement since the last acting event (and
   * the ball with it while it is not started); the counter then restarts at 1.
   */
  function MouseMoved(s: Session, ex: int): Session {
    if s.toggle == TOGGLE_PERIOD then
      var d := ex as real - s.lastX;
      var p := if PaddleMoves(s, d) then
                 s.(paddleX := s.paddleX + d, ballX := if !s.ballStarted then s.ballX + d else s.ballX)
               else s;
      p.(lastX := ex as real, toggle := 1)
    else
      s.(toggle := s.toggle + 1)
  }

  // ===========================================================================
  // The invariant is established and kept

  lemma InitialInv(store: ScoreFile, paddle: GObject)
    requires paddle.kind == Rect
    ensures Inv(Initial(store, paddle))
    ensures Initial(store, paddle).highScore == (if store.Saved? then store.highScore else 0)
  {
  }

  lemma ResetGameInv(s: Session, paddle: GObject)
    requires s.combo >= 1 && 0 <= s.toggle <= TOGGLE_PERIOD && paddle.kind == Rect
    ensures Inv(ResetGame(s, paddle))
  {
  }

  lemma StartTheBallInv(s: Session, r1: real, r2: real)
    requires Inv(s) && 0.0 <= r1 < 1.0 && 0.0 <= r2 < 1.0
    ensures Inv(StartTheBall(s, r1, r2))
  {
  }

  lemma LoseALifeInv(s: Session, paddle: GObject)
    requires Bookkeeping(s) && 1 <= s.nbricks <= NBRICKS && paddle.kind == Rect
    ensures Inv(LoseALife(s, paddle).0)
  {
  }

  lemma WinInv(s: Session, paddle: GObject)
    requires Bookkeeping(s) && paddle.kind == Rect
    ensures Inv(Win(s, paddle).0)
  {
  }

  lemma TickInv(s: Session, at: Oracle, paddle: GObject)
    requires Inv(s) && s.ballStarted && paddle.kind == Rect
    ensures Inv(Tick(s, at, paddle).0)
  {
    var m := Move(s);
    if m.ballY >= BOTTOM_WALL {
      LoseALifeInv(m, paddle);
    } else {
      CollideInv(m, at, paddle);
    }
  }

  lemma CollideInv(m: Session, at: Oracle, paddle: GObject)
    requires Inv(m) && m.ballStarted && paddle.kind == Rect
    ensures Inv(Collide(m, at, paddle).0)
  {
    var w := Walls(m);
    var hit := Classify(CollidingObject(at, w.ballX, w.ballY), w.paddle);
    if hit == BrickHit && Respond(w, hit).nbricks == 0 {
      WinInv(Respond(w, hit), paddle);
    }
  }

  /** A tick that lets the loop go on keeps the ball in play and the same paddle. */
  lemma TickContinues(s: Session, at: Oracle, paddle: GObject)
    ensures Tick(s, at, paddle).1 == Continue ==>
      Tick(s, at, paddle).0.ballStarted == s.ballStarted && Tick(s, at, paddle).0.paddle == s.paddle
  {
  }

  /** A run's result with `q` as the paddle that the end of a finished round creates. */
  function WithPaddle(p: Played, q: GObject): Played {
    if p.outcome.GameOver? || p.outcome.Won? then p.(state := p.state.(paddle := q)) else p
  }

  /**
   * The new paddle matters only to a tick that ends the round: the outcome never
   * depends on it, and the state depends on it only in its paddle field, and only
   * when the round is over.
   */
  lemma TickNewPaddle(s: Session, at: Oracle, p: GObject, q: GObject)
    ensures WithPaddle(Played(Tick(s, at, p).0, Tick(s, at, p).1, 1), q) ==
            Played(Tick(s, at, q).0, Tick(s, at, q).1, 1)
  {
  }

  /** So a whole run with another new paddle differs from it only in that paddle. */
  lemma {:induction false} PlayBallPaddle(s: Session, ats: seq<Oracle>, p: GObject, q: GObject)
    ensures PlayBall(s, ats, q) == WithPaddle(PlayBall(s, ats, p), q)
    decreases |ats|
  {
    if ats != [] {
      TickNewPaddle(s, ats[0], p, q);
      if Tick(s, ats[0], p).1 == Continue {
        PlayBallPaddle(Tick(s, ats[0], p).0, ats[1..], p, q);
      }
    }
  }

  lemma MouseMovedInv(s: Session, ex: int)
    requires Inv(s)
    ensures Inv(MouseMoved(s, ex))
  {
  }

  // ===========================================================================
  // One tick

  /**
   * The bottom wall: once the moved ball's top reaches HEIGHT the ball is lost. The
   * velocity is unchanged, no side wall or collider is looked at (the combo is kept),
   * and the round is over exactly when it was the last life.
   */
  lemma TickBottomWall(s: Session, at: Oracle, paddle: GObject)
    requires Inv(s) && s.ballY + s.vy >= BOTTOM_WALL
    ensures var (r, o) := Tick(s, at, paddle);
      && r.vx == s.vx && r.vy == s.vy && r.combo == s.combo
      && (o.GameOver? <==> s.lives == 1)
      && (o.LifeLost? <==> s.lives > 1)
      && (o.LifeLost? ==> r.lives == s.lives - 1 && r.score == s.score &&
                          r.nbricks == s.nbricks && r.maxCombo == s.maxCombo && !r.ballStarted)
  {
  }

  /**
   * The top and side walls: only vy flips at the top; vx flips, at most once, when the
   * ball is at or past either side. A collider may then flip vy once more.
   */
  lemma TickWalls(s: Session, at: Oracle, paddle: GObject)
    requires s.ballY + s.vy < BOTTOM_WALL
    ensures var x, y := s.ballX + s.vx, s.ballY + s.vy;
      var w := Walls(Move(s));
      && w.vy == (if y <= 0.0 then -s.vy else s.vy)
      && w.vx == (if x >= RIGHT_WALL || x <= 0.0 then -s.vx else s.vx)
      && w == Move(s).(vx := w.vx, vy := w.vy)
    ensures var (r, o) := Tick(s, at, paddle);
      o.Continue? ==> r.vx == Walls(Move(s)).vx &&
                      r.vy == (if HitAfterWalls(s, at) == NoHit then Walls(Move(s)).vy else -Walls(Move(s)).vy)
  {
  }

  /**
   * A paddle hit: vy flips and the combo restarts at 1; the score, the brick counter
   * and the max combo are unchanged, and the loop goes on.
   */
  lemma TickPaddle(s: Session, at: Oracle, paddle: GObject)
    requires s.ballY + s.vy < BOTTOM_WALL && HitAfterWalls(s, at) == PaddleHit
    ensures var (r, o) := Tick(s, at, paddle);
      && o == Continue && r.combo == 1 && r.vy == -Walls(Move(s)).vy
      && r.score == s.score && r.nbricks == s.nbricks && r.maxCombo == s.maxCombo
      && r.lives == s.lives
  {
  }

  /**
   * A brick hit: the score grows by 100 times the combo, the combo grows by one,
   * the max combo becomes at least the combo before the hit, the brick counter drops
   * by one, and the round is won exactly when that was the last brick.
   */
  lemma TickBrick(s: Session, at: Oracle, paddle: GObject)
    requires Inv(s) && s.ballY + s.vy < BOTTOM_WALL && HitAfterWalls(s, at) == BrickHit
    ensures var (r, o) := Tick(s, at, paddle);
      && (o.Won? <==> s.nbricks == 1)
      && (s.nbricks > 1 ==> o == Continue)
      && (o.Won? ==> o.report.score == s.score + BRICK_POINTS * s.combo &&
                     o.report.maxCombo == Max(s.maxCombo, s.combo) &&
                     r.nbricks == NBRICKS && r.score == 0 && r.lives == 3)
      && (o.Continue? ==> r.score == s.score + BRICK_POINTS * s.combo &&
                          r.combo == s.combo + 1 &&
                          r.maxCombo == Max(s.maxCombo, s.combo) &&
                          r.maxCombo >= r.combo - 1 &&
                          r.nbricks == s.nbricks - 1 &&
                          r.vy == -Walls(Move(s)).vy)
  {
    var m := Move(s);
    var w := Walls(m);
    assert w == m.(vx := w.vx, vy := w.vy);
    RespondBrick(w);
    assert Tick(s, at, paddle) == Collide(m, at, paddle);
  }

  /** The brick response by itself: score, combo, max combo and brick counter. */
  lemma RespondBrick(w: Session)
    ensures var h := Respond(w, BrickHit);
      && h == w.(vy := h.vy, score := h.score, combo := h.combo, maxCombo := h.maxCombo, nbricks := h.nbricks)
      && h.vy == -w.vy && h.score == w.score + BRICK_POINTS * w.combo && h.combo == w.combo + 1
      && h.maxCombo == Max(w.maxCombo, w.combo) && h.nbricks == w.nbricks - 1
  {
  }

  /** Nothing (or a non-GRect object) at the corners: only the move and the walls happen. */
  lemma TickMiss(s: Session, at: Oracle, paddle: GObject)
    requires s.ballY + s.vy < BOTTOM_WALL && HitAfterWalls(s, at) == NoHit
    ensures Tick(s, at, paddle) == (Walls(Move(s)), Continue)
  {
  }

  /**
   * A tick that goes on is exactly the response to the collider after the move and the
   * walls, so the results about chains of Respond apply to runs of the ball loop.
   */
  lemma TickIsResponse(s: Session, at: Oracle, paddle: GObject)
    requires s.ballY + s.vy < BOTTOM_WALL
    ensures Tick(s, at, paddle).1 == Continue ==>
            Tick(s, at, paddle).0 == Respond(Walls(Move(s)), HitAfterWalls(s, at))
  {
    assert Tick(s, at, paddle) == Collide(Move(s), at, paddle);
  }

  /** While the round goes on, the max combo never decreases and the lives never grow. */
  lemma TickMonotone(s: Session, at: Oracle, paddle: GObject)
    requires Inv(s)
    ensures var (r, o) := Tick(s, at, paddle);
      (o.Continue? || o.LifeLost?) ==>
        r.maxCombo >= s.maxCombo && r.score >= s.score && r.lives <= s.lives &&
        r.nbricks <= s.nbricks
  {
    var m := Move(s);
    if m.ballY < BOTTOM_WALL {
      var w := Walls(m);
      assert w == m.(vx := w.vx, vy := w.vy);
      RespondBrick(w);
      assert Tick(s, at, paddle) == Collide(m, at, paddle);
    }
  }

  /**
   * Over a whole run of the ball loop the ticks are at most the canvases given, the
   * loop runs out only when every tick went on, and while the round is not over the
   * max combo and the score never decrease and no life is gained.
   */
  lemma {:induction false} PlayBallMonotone(s: Session, ats: seq<Oracle>, paddle: GObject)
    requires Inv(s) && s.ballStarted && paddle.kind == Rect
    ensures var p := PlayBall(s, ats, paddle);
      && p.ticks <= |ats|
      && (p.outcome.Continue? ==> p.ticks == |ats|)
      && Inv(p.state)
      && ((p.outcome.Continue? || p.outcome.LifeLost?) ==>
            p.state.maxCombo >= s.maxCombo && p.state.score >= s.score && p.state.lives <= s.lives)
    decreases |ats|
  {
    if ats != [] {
      TickInv(s, ats[0], paddle);
      TickMonotone(s, ats[0], paddle);
      var (r, o) := Tick(s, ats[0], paddle);
      if o == Continue {
        TickContinues(s, ats[0], paddle);
        PlayBallMonotone(r, ats[1..], paddle);
      }
    }
  }

  // ===========================================================================
  // Ball scores and the high score at the end of a round

  /** The scores of the balls a round used: the first 4 - livesLeft of the three labels. */
  function BallsUsed(r: Report): seq<int> {
    if r.lives >= 3 then [r.ball1Score]
    else if r.lives == 2 then [r.ball1Score, r.ball2Score]
    else [r.ball1Score, r.ball2Score, r.ball3Score]
  }

  function Sum(xs: seq<int>): int {
    if xs == [] then 0 else Sum(xs[..|xs| - 1]) + xs[|xs| - 1]
  }

  lemma SumOfFew(a: int, b: int, c: int)
    ensures Sum([a]) == a && Sum([a, b]) == a + b && Sum([a, b, c]) == a + b + c
  {
    assert [a, b][..1] == [a];
    assert [a, b, c][..2] == [a, b];
    assert [a][..0] == [];
  }

  /**
   * The last ball lost: the round is over, and the three ball scores, none negative,
   * add up to the final score.
   */
  lemma GameOverBallScores(s: Session, paddle: GObject)
    requires Bookkeeping(s) && s.lives == 1
    ensures var (r, over) := LoseALife(s, paddle);
      && over.Some? && over.value.lives == 0 && over.value.score == s.score
      && over.value.ball1Score >= 0 && over.value.ball2Score >= 0 && over.value.ball3Score >= 0
      && over.value.ball1Score + over.value.ball2Score + over.value.ball3Score == s.score
      && Sum(BallsUsed(over.value)) == s.score
  {
    var rep := LoseALife(s, paddle).1.value;
    SumOfFew(rep.ball1Score, rep.ball2Score, rep.ball3Score);
  }

  /** A ball lost with lives left: one life fewer, no report, a new ball on the paddle. */
  lemma BallLostLivesLeft(s: Session, paddle: GObject)
    requires Bookkeeping(s) && s.lives > 1
    ensures var (r, over) := LoseALife(s, paddle);
      && over.None? && r.lives == s.lives - 1 && r.score == s.score && r.combo == s.combo
      && (s.lives == 3 ==> r.ball1Score == s.score)
      && (s.lives == 2 ==> r.ball1Score + r.ball2Score == s.score)
      && !r.ballStarted && r.ballX == r.paddleX + BALL_X_OFFSET
  {
  }

  /**
   * A win with L lives left: the scores of the 4 - L balls used, none negative, add up
   * to the final score.
   */
  lemma WinBallScores(s: Session, paddle: GObject)
    requires Bookkeeping(s)
    ensures var rep := Win(s, paddle).1;
      && rep.lives == s.lives && rep.score == s.score && rep.maxCombo == s.maxCombo
      && (forall i :: 0 <= i < |BallsUsed(rep)| ==> BallsUsed(rep)[i] >= 0)
      && |BallsUsed(rep)| == 4 - s.lives
      && Sum(BallsUsed(rep)) == s.score
  {
    var rep := Win(s, paddle).1;
    SumOfFew(rep.ball1Score, rep.ball2Score, rep.ball3Score);
  }

  /**
   * At the end of a round the file is written only when the score strictly beats the
   * high score, with that score and the round's max combo; either way the next round
   * shows the larger of the two as its high score.
   */
  lemma EndRoundHighScore(s: Session, paddle: GObject)
    requires Bookkeeping(s)
    ensures var (r, rep) := EndRound(s, paddle);
      && (rep.newHighScore <==> s.score > s.highScore)
      && r.store == (if s.score > s.highScore then Saved(s.score, s.maxCombo) else s.store)
      && r.highScore == Max(s.highScore, s.score)
  {
  }

  /**
   * resetGame sets exactly lives, score, brick counter and max combo; the combo, the
   * ball scores, the velocities and the mouse counter are left as they were. The
   * re-run setup puts a new paddle at the left edge with a new ball on it.
   */
  lemma ResetFields(s: Session, paddle: GObject)
    ensures var r := ResetGame(s, paddle);
      && r.lives == 3 && r.score == 0 && r.nbricks == NBRICKS && r.maxCombo == 1
      && r.combo == s.combo && r.vx == s.vx && r.vy == s.vy
      && r.ball1Score == s.ball1Score && r.ball2Score == s.ball2Score && r.ball3Score == s.ball3Score
      && r.toggle == s.toggle && r.lastX == s.lastX
      && r.paddle == paddle && r.paddleX == 0.0 && !r.ballStarted
      && r.ballX == BALL_X_OFFSET && r.ballY == BALL_Y
  {
  }

  /**
   * The combo survives the reset: a round that ended while a combo was running starts
   * the next round with that combo, so its first brick is worth more than 100.
   */
  lemma ComboCarriesIntoNextRound(s: Session, paddle: GObject)
    requires Bookkeeping(s) && s.combo == 4
    ensures var r := ResetGame(s, paddle);
      Respond(r, BrickHit).score == 400 && Respond(r, BrickHit).maxCombo == 4
  {
  }

  /**
   * setup adds a new paddle without removing the old one: the old paddle is a GRect
   * that is no longer `paddle`, so a collision with it is scored as a brick.
   */
  lemma OldPaddleScoresAsBrick(s: Session, q: GObject)
    requires s.paddle.kind == Rect && q != s.paddle
    ensures Classify(Some(s.paddle), ResetGame(s, q).paddle) == BrickHit
  {
  }

  // ===========================================================================
  // Streaks of hits

  /** The responses to a sequence of collisions, in order (ignoring the end of the round). */
  function Responses(s: Session, hits: seq<Hit>): Session
    decreases |hits|
  {
    if hits == [] then s else Respond(Responses(s, hits[..|hits| - 1]), hits[|hits| - 1])
  }

  /** n brick hits in a row */
  function Bricks(n: nat): (hits: seq<Hit>)
    ensures |hits| == n && forall i :: 0 <= i < n ==> hits[i] == BrickHit
  {
    seq(n, _ => BrickHit)
  }

  /** The points of a streak of n bricks that starts at combo c: 100·c + 100·(c+1) + … + 100·(c+n-1). */
  function StreakPoints(c: int, n: nat): int {
    if n == 0 then 0 else StreakPoints(c, n - 1) + BRICK_POINTS * (c + n - 1)
  }

  /** The closed form of a streak's points: 100·n·c + 50·n·(n-1). */
  lemma {:induction false} StreakPointsClosedForm(c: int, n: nat)
    ensures StreakPoints(c, n) == BRICK_POINTS * n * c + (BRICK_POINTS / 2) * n * (n - 1)
  {
    if n > 0 {
      StreakPointsClosedForm(c, n - 1);
      assert n * c == (n - 1) * c + c;
      assert n * (n - 1) == (n - 1) * (n - 2) + 2 * (n - 1);
    }
  }

  /**
   * N consecutive brick hits starting at combo c add 100·(c + … + c+N-1), leave the
   * combo at c+N and N fewer bricks, and record a max combo of at least c+N-1.
   */
  lemma {:induction false} BrickStreak(s: Session, n: nat)
    ensures var r := Responses(s, Bricks(n));
      && r.score == s.score + StreakPoints(s.combo, n)
      && r.combo == s.combo + n
      && r.nbricks == s.nbricks - n
      && r.lives == s.lives
      && (n > 0 ==> r.maxCombo == Max(s.maxCombo, s.combo + n - 1))
      && (n == 0 ==> r.maxCombo == s.maxCombo)
  {
    if n > 0 {
      assert Bricks(n)[..n - 1] == Bricks(n - 1);
      BrickStreak(s, n - 1);
    }
  }

  /** From combo 1 (after a paddle touch), N consecutive bricks add 50·N·(N+1) points. */
  lemma StreakFromPaddle(s: Session, n: nat)
    requires s.combo == 1
    ensures Responses(s, Bricks(n)).score == s.score + 50 * n * (n + 1)
  {
    BrickStreak(s, n);
    StreakFromOne(n);
  }

  /** A streak from combo 1 is worth 100·(1 + … + n) = 50·n·(n+1). */
  lemma StreakFromOne(n: nat)
    ensures StreakPoints(1, n) == 50 * n * (n + 1)
  {
    StreakPointsClosedForm(1, n);
    assert n * (n + 1) == n * (n - 1) + 2 * n;
  }

  /** Three bricks from combo 1 and score 0 make 600 points; a paddle touch then keeps 600 and resets the combo. */
  lemma ThreeBricksThenPaddle(s: Session)
    requires s.combo == 1 && s.score == 0 && s.nbricks == NBRICKS && s.maxCombo >= 1
    ensures var r := Responses(s, Bricks(3));
      && r.score == 600 && r.combo == 4 && r.maxCombo >= 3 && r.nbricks == NBRICKS - 3
      && Respond(r, PaddleHit).combo == 1 && Respond(r, PaddleHit).score == 600
  {
    BrickStreak(s, 3);
    StreakPointsClosedForm(1, 3);
  }

  /** Brick hits since the last paddle hit, on top of `carry` when there was none. */
  function Trailing(carry: nat, hits: seq<Hit>): nat
    decreases |hits|
  {
    if hits == [] then carry
    else match hits[|hits| - 1]
      case PaddleHit => 0
      case BrickHit => Trailing(carry, hits[..|hits| - 1]) + 1
      case NoHit => Trailing(carry, hits[..|hits| - 1])
  }

  /**
   * The longest run of brick hits with no paddle hit between them, counted at each
   * brick hit; a run that is running at the start counts `carry` bricks already.
   */
  function LongestRun(carry: nat, hits: seq<Hit>): nat
    decreases |hits|
  {
    if hits == [] then 0
    else
      var p := hits[..|hits| - 1];
      if hits[|hits| - 1] == BrickHit then Max(LongestRun(carry, p), Trailing(carry, p) + 1)
      else LongestRun(carry, p)
  }

  /**
   * After any sequence of collisions the combo is one more than the bricks hit since
   * the last paddle hit, and the max combo is the longest such run (or its old value
   * when that is larger): it records `combo - 1`, with no off-by-one.
   */
  lemma {:induction false} MaxComboIsLongestRun(s: Session, hits: seq<Hit>)
    requires s.combo >= 1 && s.maxCombo >= 1
    ensures Responses(s, hits).combo == 1 + Trailing(s.combo - 1, hits)
    ensures Responses(s, hits).maxCombo == Max(s.maxCombo, LongestRun(s.combo - 1, hits))
  {
    if hits != [] {
      var p := hits[..|hits| - 1];
      MaxComboIsLongestRun(s, p);
      var q := Responses(s, p);
      assert Responses(s, hits) == Respond(q, hits[|hits| - 1]);
      if hits[|hits| - 1] == BrickHit {
        assert Responses(s, hits).maxCombo == Max(q.maxCombo, q.combo);
        assert Trailing(s.combo - 1, hits) == Trailing(s.combo - 1, p) + 1;
        assert LongestRun(s.combo - 1, hits) == Max(LongestRun(s.combo - 1, p), Trailing(s.combo - 1, p) + 1);
      } else if hits[|hits| - 1] == PaddleHit {
        assert Trailing(s.combo - 1, hits) == 0;
        assert LongestRun(s.combo - 1, hits) == LongestRun(s.combo - 1, p);
      } else {
        assert Trailing(s.combo - 1, hits) == Trailing(s.combo - 1, p);
        assert LongestRun(s.combo - 1, hits) == LongestRun(s.combo - 1, p);
      }
    }
  }

  /**
   * The max combo never decreases along a sequence of collisions, and from a combo of
   * at least 1 neither does the score.
   */
  lemma {:induction false} MaxComboMonotone(s: Session, hits: seq<Hit>)
    ensures Responses(s, hits).maxCombo >= s.maxCombo
    ensures s.combo >= 1 ==> Responses(s, hits).score >= s.score && Responses(s, hits).combo >= 1
  {
    if hits != [] {
      MaxComboMonotone(s, hits[..|hits| - 1]);
    }
  }

  /**
   * The collisions of a run of the ball loop, one per tick that goes on, each
   * classified as the tick sees it.
   */
  function RunHits(s: Session, ats: seq<Oracle>, paddle: GObject): seq<Hit>
    decreases |ats|
  {
    if ats == [] then []
    else
      var (r, o) := Tick(s, ats[0], paddle);
      if o == Continue then [HitAfterWalls(s, ats[0])] + RunHits(r, ats[1..], paddle) else []
  }

  /** The fields that the collisions decide: score, combo, max combo and brick counter. */
  predicate SameTally(a: Session, b: Session) {
    a.score == b.score && a.combo == b.combo && a.maxCombo == b.maxCombo && a.nbricks == b.nbricks
  }

  /** The responses can be unfolded from the front. */
  lemma {:induction false} ResponsesFirst(s: Session, h: Hit, hs: seq<Hit>)
    ensures Responses(s, [h] + hs) == Responses(Respond(s, h), hs)
    decreases |hs|
  {
    if hs == [] {
      assert Responses(s, [h]) == Respond(Responses(s, []), h);
    } else {
      var hs' := [h] + hs;
      assert hs'[..|hs'| - 1] == [h] + hs[..|hs| - 1];
      ResponsesFirst(s, h, hs[..|hs| - 1]);
    }
  }

  /** The tallied fields after the responses depend only on the tallied fields before them. */
  lemma {:induction false} ResponsesTally(a: Session, b: Session, hs: seq<Hit>)
    requires SameTally(a, b)
    ensures SameTally(Responses(a, hs), Responses(b, hs))
    decreases |hs|
  {
    if hs != [] {
      ResponsesTally(a, b, hs[..|hs| - 1]);
    }
  }

  /**
   * A run of the ball loop that goes on tallies exactly as the chain of responses to
   * its collisions: moves and walls never touch the score, the combo, the max combo
   * or the brick counter.
   */
  lemma {:induction false} PlayBallIsResponses(s: Session, ats: seq<Oracle>, paddle: GObject)
    ensures PlayBall(s, ats, paddle).outcome == Continue ==>
            SameTally(PlayBall(s, ats, paddle).state, Responses(s, RunHits(s, ats, paddle)))
    decreases |ats|
  {
    if ats != [] && Tick(s, ats[0], paddle).1 == Continue {
      var r := Tick(s, ats[0], paddle).0;
      var h := HitAfterWalls(s, ats[0]);
      var hs := RunHits(r, ats[1..], paddle);
      ContinuingTick(s, ats[0], paddle);
      PlayBallIsResponses(r, ats[1..], paddle);
      ResponsesTally(r, Respond(s, h), hs);
      ResponsesFirst(s, h, hs);
    }
  }

  /** A tick that goes on is one response, and the run and its collisions go on after it. */
  lemma ContinuingTick(s: Session, at: Oracle, paddle: GObject)
    requires Tick(s, at, paddle).1 == Continue
    ensures SameTally(Tick(s, at, paddle).0, Respond(s, HitAfterWalls(s, at)))
  {
    assert Move(s).ballY < BOTTOM_WALL;
    TickIsResponse(s, at, paddle);
  }

  /**
   * Over a run of the ball loop that goes on, the combo is one more than the bricks hit
   * since the last paddle touch, and the max combo is the longest such run of bricks.
   */
  lemma PlayBallLongestRun(s: Session, ats: seq<Oracle>, paddle: GObject)
    requires s.combo >= 1 && s.maxCombo >= 1
    ensures var p := PlayBall(s, ats, paddle);
      p.outcome == Continue ==>
        p.state.combo == 1 + Trailing(s.combo - 1, RunHits(s, ats, paddle)) &&
        p.state.maxCombo == Max(s.maxCombo, LongestRun(s.combo - 1, RunHits(s, ats, paddle)))
  {
    PlayBallIsResponses(s, ats, paddle);
    MaxComboIsLongestRun(s, RunHits(s, ats, paddle));
  }

  // ===========================================================================
  // The mouse handler

  /** The handler applied to a sequence of event x-coordinates, in order. */
  function MouseRun(s: Session, xs: seq<int>): Session
    decreases |xs|
  {
    if xs == [] then s else MouseMoved(MouseRun(s, xs[..|xs| - 1]), xs[|xs| - 1])
  }

  /** How many of the events found the counter at 5, and so moved the paddle. */
  function Acting(s: Session, xs: seq<int>): nat
    decreases |xs|
  {
    if xs == [] then 0
    else Acting(s, xs[..|xs| - 1]) + (if MouseRun(s, xs[..|xs| - 1]).toggle == TOGGLE_PERIOD then 1 else 0)
  }

  /**
   * Every fifth event acts: from a counter t in 1..5, after n events the counter is
   * (t-1+n) mod 5 + 1 and (t-1+n) div 5 of them acted.
   */
  lemma {:induction false} EveryFifthEvent(s: Session, xs: seq<int>)
    requires 1 <= s.toggle <= TOGGLE_PERIOD
    ensures MouseRun(s, xs).toggle == (s.toggle - 1 + |xs|) % TOGGLE_PERIOD + 1
    ensures Acting(s, xs) == (s.toggle - 1 + |xs|) / TOGGLE_PERIOD
  {
    if xs != [] {
      var p := xs[..|xs| - 1];
      EveryFifthEvent(s, p);
      var n := s.toggle - 1 + |p|;
      if n % 5 == 4 {
        assert (n + 1) % 5 == 0 && (n + 1) / 5 == n / 5 + 1;
      } else {
        assert (n + 1) % 5 == n % 5 + 1 && (n + 1) / 5 == n / 5;
      }
    }
  }

  /** The first event after start-up finds the counter at 0 and only advances it. */
  lemma FirstEventSkipped(s: Session, ex: int)
    requires s.toggle == 0
    ensures MouseMoved(s, ex) == s.(toggle := 1)
  {
  }

  /**
   * An acting event moves the paddle by the mouse's movement since the last acting
   * event when the paddle-side guard allows it (and the ball with it while not
   * started), records the new mouse position and restarts the counter; nothing else changes.
   */
  lemma MouseMoveRule(s: Session, ex: int)
    requires s.toggle == TOGGLE_PERIOD
    ensures var d := ex as real - s.lastX;
      var r := MouseMoved(s, ex);
      var moves := (d > 0.0 && s.paddleX < PADDLE_X_LIMIT) || (d <= 0.0 && s.paddleX > 0.0);
      && r.toggle == 1 && r.lastX == ex as real
      && r.paddleX == (if moves then s.paddleX + d else s.paddleX)
      && r.ballX == (if moves && !s.ballStarted then s.ballX + d else s.ballX)
      && r == s.(toggle := r.toggle, lastX := r.lastX, paddleX := r.paddleX, ballX := r.ballX)
  {
  }

  /** The paddle is not clamped: one acting event can push it past the right wall. */
  lemma PaddleCanOvershoot(s: Session)
    requires s.toggle == TOGGLE_PERIOD && s.paddleX == 329.0 && s.lastX == 0.0
    ensures MouseMoved(s, 50).paddleX == 379.0 > PADDLE_X_LIMIT
  {
  }
}
