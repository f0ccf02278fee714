/**
 * The drag classifier of the card: `useDraggable` records where a press started, tracks the
 * pointer's displacement from it, and on release turns that displacement into one of four
 * directions, or into nothing when neither threshold is exceeded.
 */
module Draggable {
  import opened Wrappers
  import opened Dom

  datatype Direction = Left | Right | Up | Down

  /** Both thresholds default to 50 when the caller gives none. */
  const DefaultThreshold: real := 50.0

  /**
   * The direction a release with displacement (dx, dy) resolves to. Thresholds are exceeded only
   * strictly; the horizontal axis wins only when strictly longer, so a tie is vertical.
   */
  function Classify(dx: real, dy: real, xThreshold: real, yThreshold: real): Option<Direction> {
    var absX, absY := Abs(dx), Abs(dy);
    if absX > xThreshold || absY > yThreshold then
      if absX > absY then Some(if dx > 0.0 then Right else Left)
      else Some(if dy > 0.0 then Down else Up)
    else None
  }

  /** No direction comes out exactly when neither displacement exceeds its threshold. */
  lemma ClassifyNoneIff(dx: real, dy: real, xThreshold: real, yThreshold: real)
    ensures Classify(dx, dy, xThreshold, yThreshold).None? <==> Abs(dx) <= xThreshold && Abs(dy) <= yThreshold
  {
  }

  /** A horizontal result needs the horizontal displacement to be strictly the longer one, and follows its sign. */
  lemma ClassifyHorizontal(dx: real, dy: real, xThreshold: real, yThreshold: real)
    requires Abs(dx) > xThreshold || Abs(dy) > yThreshold
    requires Abs(dx) > Abs(dy)
    ensures Classify(dx, dy, xThreshold, yThreshold) == Some(if dx > 0.0 then Right else Left)
  {
  }

  /** A tie or a longer vertical displacement gives a vertical result that follows the sign of dy. */
  lemma ClassifyVertical(dx: real, dy: real, xThreshold: real, yThreshold: real)
    requires Abs(dx) > xThreshold || Abs(dy) > yThreshold
    requires Abs(dy) >= Abs(dx)
    ensures Classify(dx, dy, xThreshold, yThreshold) == Some(if dy > 0.0 then Down else Up)
  {
  }

  function MirrorHorizontally(d: Direction): Direction {
    match d
    case Left => Right
    case Right => Left
    case _ => d
  }

  function MirrorVertically(d: Direction): Direction {
    match d
    case Up => Down
    case Down => Up
    case _ => d
  }

  function MapOption(o: Option<Direction>, f: Direction -> Direction): Option<Direction> {
    match o
    case None => None
    case Some(d) => Some(f(d))
  }

  /** Mirroring a drag left-to-right mirrors its direction. */
  lemma ClassifyMirrorX(dx: real, dy: real, xThreshold: real, yThreshold: real)
    ensures Classify(-dx, dy, xThreshold, yThreshold) == MapOption(Classify(dx, dy, xThreshold, yThreshold), MirrorHorizontally)
  {
  }

  /** Mirroring a drag top-to-bottom mirrors its direction, for non-negative thresholds. */
  lemma ClassifyMirrorY(dx: real, dy: real, xThreshold: real, yThreshold: real)
    requires xThreshold >= 0.0 && yThreshold >= 0.0
    ensures Classify(dx, -dy, xThreshold, yThreshold) == MapOption(Classify(dx, dy, xThreshold, yThreshold), MirrorVertically)
  {
  }

  /** The state `useDraggable` keeps between the press, the moves and the release. */
  class DragTracker {
    const xThreshold: real
    const yThreshold: real
    var startX: real
    var startY: real
    var distanceX: real
    var distanceY: real

    constructor (xThreshold: Option<real>, yThreshold: Option<real>)
      ensures this.xThreshold == xThreshold.GetOr(DefaultThreshold)
      ensures this.yThreshold == yThreshold.GetOr(DefaultThreshold)
      ensures startX == 0.0 && startY == 0.0 && distanceX == 0.0 && distanceY == 0.0
    {
      this.xThreshold := xThreshold.GetOr(DefaultThreshold);
      this.yThreshold := yThreshold.GetOr(DefaultThreshold);
      startX, startY, distanceX, distanceY := 0.0, 0.0, 0.0, 0.0;
    }

    /** A press: the start is recorded relative to the element and the distance is zeroed. */
    method HandleDragStart(clientX: real, clientY: real, rect: Rect)
      modifies this
      ensures startX == clientX - rect.left && startY == clientY - rect.top
      ensures distanceX == 0.0 && distanceY == 0.0
    {
      startX := clientX - rect.left;
      startY := clientY - rect.top;
      distanceX := 0.0;
      distanceY := 0.0;
    }

    /** A move: the distance is the current position relative to the element minus the start. */
    method HandleDragMove(clientX: real, clientY: real, rect: Rect)
      modifies this
      ensures startX == old(startX) && startY == old(startY)
      ensures distanceX == (clientX - rect.left) - startX
      ensures distanceY == (clientY - rect.top) - startY
    {
      distanceX := clientX - rect.left - startX;
      distanceY := clientY - rect.top - startY;
    }

    /**
     * A release. The result is the argument `onDragEnd` is called with, or None when it is not
     * called; so it is called at most once, and never without a direction. Whatever the outcome,
     * the start and the distance are zero afterwards.
     */
    method HandleDragEnd() returns (direction: Option<Direction>)
      modifies this
      ensures direction == Classify(old(distanceX), old(distanceY), xThreshold, yThreshold)
      ensures startX == 0.0 && startY == 0.0 && distanceX == 0.0 && distanceY == 0.0
    {
      direction := Classify(distanceX, distanceY, xThreshold, yThreshold);
      startX, startY := 0.0, 0.0;
      distanceX, distanceY := 0.0, 0.0;
    }
  }

  /** A press, one move and a release displace the pointer by the difference of the two positions. */
  method DragOnce(t: DragTracker, rect: Rect, fromX: real, fromY: real, toX: real, toY: real)
    returns (direction: Option<Direction>)
    modifies t
    ensures direction == Classify(toX - fromX, toY - fromY, t.xThreshold, t.yThreshold)
  {
    t.HandleDragStart(fromX, fromY, rect);
    t.HandleDragMove(toX, toY, rect);
    direction := t.HandleDragEnd();
  }
}
