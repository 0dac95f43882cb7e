/** Arena dimensions, the brick grid and the colour gradient of the bricks. */
module Geometry {

  /** width and height of the game display */
  const WIDTH: int := 390
  const HEIGHT: int := 625

  const PADDLE_WIDTH: int := 60
  const PADDLE_HEIGHT: int := 10
  /** offset of the paddle from the bottom of the display */
  const PADDLE_Y_OFFSET: int := 60

  const NBRICKS_PER_ROW: int := 10
  const NBRICK_ROWS: int := 10
  /** separation between bricks */
  const BRICK_SEP: int := 4
  /** integer division, as in the Java constant: 390 / 10 - 4 == 35 */
  const BRICK_WIDTH: int := WIDTH / NBRICKS_PER_ROW - BRICK_SEP
  const BRICK_HEIGHT: int := 8
  const BALL_RADIUS: int := 6
  /** offset of the top brick row from the top of the display */
  const BRICK_Y_OFFSET: int := 70

  /** The number of bricks of a full grid, the initial value of the brick counter. */
  const NBRICKS: int := NBRICKS_PER_ROW * NBRICK_ROWS

  /** A java.awt.Color by its components. */
  datatype Rgb = Rgb(red: int, green: int, blue: int)

  /** The components java.awt.Color accepts; any other value makes its constructor throw. */
  predicate ValidRgb(c: Rgb) {
    0 <= c.red <= 255 && 0 <= c.green <= 255 && 0 <= c.blue <= 255
  }

  /** A filled GRect: its top-left corner, its size and its fill colour. */
  datatype Brick = Brick(x: int, y: int, width: int, height: int, fill: Rgb)

  /** The gradient after k updates: each update takes 2 from red and adds 2 to green and blue. */
  function Gradient(k: int): Rgb {
    Rgb(255 - 2 * k, 2 * k, 2 * k)
  }

  /** The brick at grid row `row` and column `col` with fill colour `fill`. */
  function BrickAt(row: int, col: int, fill: Rgb): Brick {
    Brick(col * BRICK_WIDTH + BRICK_SEP * col + BRICK_SEP / 2,
          BRICK_Y_OFFSET + BRICK_HEIGHT * row + BRICK_SEP * row,
          BRICK_WIDTH, BRICK_HEIGHT, fill)
  }

  /** Two bricks' rectangles do not share an interior point. */
  predicate Disjoint(a: Brick, b: Brick) {
    a.x + a.width <= b.x || b.x + b.width <= a.x ||
    a.y + a.height <= b.y || b.y + b.height <= a.y
  }

  /**
   * createBricks: rows outer, columns inner, one brick per cell, the running gradient
   * updated after every brick. The bricks are returned in the order they are added.
   */
  method CreateBricks() returns (bricks: seq<Brick>)
    ensures |bricks| == NBRICKS
    ensures forall k :: 0 <= k < |bricks| ==>
      bricks[k] == BrickAt(k / NBRICKS_PER_ROW, k % NBRICKS_PER_ROW, Gradient(k))
  {
    var gradient := Rgb(255, 0, 0);
    bricks := [];
    for x := 0 to NBRICK_ROWS
      invariant |bricks| == x * NBRICKS_PER_ROW
      invariant gradient == Gradient(|bricks|)
      invariant forall k :: 0 <= k < |bricks| ==>
        bricks[k] == BrickAt(k / NBRICKS_PER_ROW, k % NBRICKS_PER_ROW, Gradient(k))
    {
      for y := 0 to NBRICKS_PER_ROW
        invariant |bricks| == x * NBRICKS_PER_ROW + y
        invariant gradient == Gradient(|bricks|)
        invariant forall k :: 0 <= k < |bricks| ==>
          bricks[k] == BrickAt(k / NBRICKS_PER_ROW, k % NBRICKS_PER_ROW, Gradient(k))
      {
        var k := |bricks|;
        assert k / NBRICKS_PER_ROW == x && k % NBRICKS_PER_ROW == y;
        bricks := bricks + [BrickAt(x, y, gradient)];
        gradient := Rgb(gradient.red - 2, gradient.green + 2, gradient.blue + 2);
      }
    }
  }

  /**
   * Every colour createBricks builds, the first one and the one after each of the
   * NBRICKS updates, is a valid colour, so no Color constructor throws.
   */
  lemma GradientStaysValid(k: int)
    requires 0 <= k <= NBRICKS
    ensures ValidRgb(Gradient(k))
    ensures Gradient(k).red >= 55 && Gradient(k).green <= 200
  {
  }

  /** Every brick of the grid lies inside the display, below the brick offset. */
  lemma BrickInArena(row: int, col: int, fill: Rgb)
    requires 0 <= row < NBRICK_ROWS && 0 <= col < NBRICKS_PER_ROW
    ensures var b := BrickAt(row, col, fill);
      0 < b.x && b.x + b.width < WIDTH &&
      BRICK_Y_OFFSET <= b.y && b.y + b.height < HEIGHT - PADDLE_Y_OFFSET
  {
  }

  /** Bricks at two different cells of the grid do not overlap. */
  lemma BricksDisjoint(r1: int, c1: int, r2: int, c2: int, f1: Rgb, f2: Rgb)
    requires 0 <= r1 < NBRICK_ROWS && 0 <= c1 < NBRICKS_PER_ROW
    requires 0 <= r2 < NBRICK_ROWS && 0 <= c2 < NBRICKS_PER_ROW
    requires (r1, c1) != (r2, c2)
    ensures Disjoint(BrickAt(r1, c1, f1), BrickAt(r2, c2, f2))
  {
  }

  /** The grid holds exactly as many bricks as the brick counter starts with: 100. */
  lemma GridMatchesCounter()
    ensures NBRICK_ROWS * NBRICKS_PER_ROW == NBRICKS == 100
    ensures BRICK_WIDTH == 35
  {
  }
}
