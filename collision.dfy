/**
 * What the ball can collide with: graphics objects on the canvas, found by asking
 * the canvas which object (if any) is at a point.
 */
module Collision {
  import opened Geometry

  datatype Option<T> = None | Some(value: T)

  /** The ACM graphics classes that are put on the canvas. */
  datatype Kind = Rect | Oval | Image | Label

  /**
   * A graphics object on the canvas. Objects are compared by identity, as the game
   * compares the collider with its paddle; the kind answers `instanceof GRect`.
   */
  class GObject {
    const kind: Kind

    constructor (kind: Kind)
      ensures this.kind == kind
    {
      this.kind := kind;
    }
  }

  /**
   * The canvas's getElementAt: the object at a point, or None. It is opaque: it may
   * return the background image, a label, the ball, a brick or the paddle.
   */
  type Oracle = (real, real) -> Option<GObject>

  /** The side of the ball's bounding square. */
  const DIAMETER: real := (BALL_RADIUS * 2) as real

  /** The four probe points in precedence order: top-left, top-right, bottom-right, bottom-left. */
  function Corners(x: real, y: real): (c: seq<(real, real)>)
    ensures |c| == 4
  {
    [(x, y), (x + DIAMETER, y), (x + DIAMETER, y + DIAMETER), (x, y + DIAMETER)]
  }

  /**
   * getCollidingObject: the object at the first corner (in precedence order) where
   * the canvas reports one, or None when all four corners are empty.
   */
  function CollidingObject(at: Oracle, x: real, y: real): (r: Option<GObject>)
    ensures var c := Corners(x, y);
      r.None? <==> forall k :: 0 <= k < 4 ==> at(c[k].0, c[k].1).None?
    ensures var c := Corners(x, y);
      r.Some? ==> exists k :: 0 <= k < 4 && r == at(c[k].0, c[k].1) &&
                              forall j :: 0 <= j < k ==> at(c[j].0, c[j].1).None?
  {
    var c := Corners(x, y);
    assert c[0] == (x, y) && c[1] == (x + DIAMETER, y);
    assert c[2] == (x + DIAMETER, y + DIAMETER) && c[3] == (x, y + DIAMETER);
    if at(x, y) != None then at(x, y)
    else if at(x + DIAMETER, y) != None then at(x + DIAMETER, y)
    else if at(x + DIAMETER, y + DIAMETER) != None then at(x + DIAMETER, y + DIAMETER)
    else if at(x, y + DIAMETER) != None then at(x, y + DIAMETER)
    else None
  }

  /** How the loop reacts to a collider. */
  datatype Hit = PaddleHit | BrickHit | NoHit

  /**
   * The collider is the paddle when it is that very object; otherwise any other GRect
   * is treated as a brick; anything else, or nothing, is no hit.
   */
  function Classify(collider: Option<GObject>, paddle: GObject): (h: Hit)
    ensures h == PaddleHit <==> collider == Some(paddle)
    ensures h == BrickHit <==> collider.Some? && collider.value != paddle && collider.value.kind == Rect
  {
    if collider == Some(paddle) then PaddleHit
    else if collider.Some? && collider.value.kind == Rect then BrickHit
    else NoHit
  }

  /** The paddle is itself a GRect, yet hitting it is never scored as a brick. */
  lemma PaddleBeforeBrick(paddle: GObject)
    requires paddle.kind == Rect
    ensures Classify(Some(paddle), paddle) == PaddleHit
  {
  }

  /** A corner reported earlier in precedence order hides every later one. */
  lemma FirstCornerWins(at: Oracle, x: real, y: real, o: GObject)
    requires at(x, y) == Some(o)
    ensures CollidingObject(at, x, y) == Some(o)
  {
  }
}
