/**
 * The flip state machine of the card. A drag direction or a click turns the card half a turn
 * about one axis and toggles its logical flip bit. The bit is owned by the component
 * (uncontrolled) or by its parent (controlled, when an `isFlipped` prop is given); the first
 * click after a drag is swallowed.
 */
module Flippable {
  import opened Wrappers
  import opened Dom
  import opened Draggable

  /** The rotations after the turn for `d`: LEFT/RIGHT turn about Y, UP/DOWN about X, by 180 degrees. */
  function Turn(d: Direction, rotateY: int, rotateX: int): (r: (int, int)) {
    match d
    case Left => (rotateY - 180, rotateX)
    case Right => (rotateY + 180, rotateX)
    case Up => (rotateY, rotateX + 180)
    case Down => (rotateY, rotateX - 180)
  }

  function Opposite(d: Direction): Direction {
    match d
    case Left => Right
    case Right => Left
    case Up => Down
    case Down => Up
  }

  /** Each turn changes exactly one rotation, by exactly 180 degrees, and keeps the other. */
  lemma TurnChangesOneAxis(d: Direction, rotateY: int, rotateX: int)
    ensures var (y, x) := Turn(d, rotateY, rotateX);
      (d == Left || d == Right) ==> x == rotateX && (y - rotateY == 180 || rotateY - y == 180)
    ensures var (y, x) := Turn(d, rotateY, rotateX);
      (d == Up || d == Down) ==> y == rotateY && (x - rotateX == 180 || rotateX - x == 180)
  {
  }

  /** The opposite direction undoes a turn. */
  lemma TurnOppositeUndoes(d: Direction, rotateY: int, rotateX: int)
    ensures var (y, x) := Turn(d, rotateY, rotateX); Turn(Opposite(d), y, x) == (rotateY, rotateX)
  {
  }

  /** Whether the back face is visible: an odd number of half turns in all. */
  predicate BackFacing(rotateY: int, rotateX: int) {
    ((rotateY + rotateX) / 180) % 2 == 1
  }

  /** Every turn, whatever its direction, shows the other face, and keeps both rotations multiples of 180. */
  lemma TurnShowsOtherFace(d: Direction, rotateY: int, rotateX: int)
    requires rotateY % 180 == 0 && rotateX % 180 == 0
    ensures var (y, x) := Turn(d, rotateY, rotateX);
      y % 180 == 0 && x % 180 == 0 && (BackFacing(y, x) <==> !BackFacing(rotateY, rotateX))
  {
    var sum := rotateY + rotateX;
    var k := sum / 180;
    assert sum == 180 * k;
    assert (sum + 180) / 180 == k + 1;
    assert (sum - 180) / 180 == k - 1;
  }

  /** A node in the `children` prop: an element, or a hole (null, undefined, a boolean) that `React.Children.toArray` drops. */
  datatype Node = Element | Hole

  /** The `children` prop: a falsy value, or the nodes `React.Children.toArray` flattens it into. */
  datatype Children = Falsy | Given(nodes: seq<Node>)

  /** The length of `React.Children.toArray(children)`: the elements, with the holes dropped. */
  function CountElements(nodes: seq<Node>): (n: nat)
    ensures n <= |nodes|
    ensures n == |nodes| <==> forall i :: 0 <= i < |nodes| ==> nodes[i] == Element
    ensures n == 0 <==> forall i :: 0 <= i < |nodes| ==> nodes[i] == Hole
  {
    if nodes == [] then 0
    else
      var rest := CountElements(nodes[1..]);
      assert forall i :: 1 <= i < |nodes| ==> nodes[i] == nodes[1..][i - 1];
      (if nodes[0] == Element then 1 else 0) + rest
  }

  const ChildrenError: string := "Flippable component must have exactly one Front and one Back child."

  /**
   * The children check of a render: it throws for a falsy `children` or more than two children, and
   * otherwise gives the number of faces to render. One child, and a truthy prop with none, are accepted.
   */
  function CheckChildren(c: Children): (r: Result<nat, string>)
    ensures r.Failure? ==> r.error == ChildrenError
    ensures r.Success? <==> c.Given? && CountElements(c.nodes) <= 2
    ensures r.Success? ==> r.value == CountElements(c.nodes)
  {
    match c
    case Falsy => Failure(ChildrenError)
    case Given(nodes) =>
      var n := CountElements(nodes);
      if n > 2 then Failure(ChildrenError) else Success(n)
  }

  /** A truthy prop with no nodes (such as `children={[]}`) and a single child both pass; three children do not. */
  lemma CheckChildrenExamples()
    ensures CheckChildren(Given([])).Success?
    ensures CheckChildren(Given([Element])) == Success(1)
    ensures CheckChildren(Given([Element, Hole, Element])) == Success(2)
    ensures CheckChildren(Given([Element, Element, Element])).Failure?
    ensures CheckChildren(Falsy).Failure?
  {
    assert CountElements([Element, Hole, Element]) == 2 by {
      assert [Element, Hole, Element][1..] == [Hole, Element];
      assert [Hole, Element][1..] == [Element];
    }
    assert CountElements([Element, Element, Element]) == 3 by {
      assert [Element, Element, Element][1..] == [Element, Element];
      assert [Element, Element][1..] == [Element];
    }
  }

  /** The side of the element a click falls on: strictly left of the midpoint is LEFT, the midpoint itself is RIGHT. */
  function ClickDirection(clientX: real, rect: Rect): (d: Direction)
    ensures d == Left <==> clientX < rect.left + rect.width / 2.0
    ensures d == Left || d == Right
  {
    if clientX < rect.left + rect.width / 2.0 then Left else Right
  }

  /** Clicks mirrored about the midpoint fall on opposite sides, except on the midpoint itself. */
  lemma ClickDirectionMirror(clientX: real, rect: Rect)
    requires clientX != rect.left + rect.width / 2.0
    ensures ClickDirection(2.0 * (rect.left + rect.width / 2.0) - clientX, rect) != ClickDirection(clientX, rect)
  {
  }

  class Flippable {
    /** The `isFlipped` prop of the latest render; None means uncontrolled. */
    var isFlippedProp: Option<bool>
    var internalFlipped: bool
    var rotateY: int
    var rotateX: int
    var wasDragged: bool
    /** The arguments `onFlip` has been called with, oldest first. */
    var flipNotifications: seq<bool>
    const drag: DragTracker

    ghost predicate Valid()
      reads this
    {
      rotateY % 180 == 0 && rotateX % 180 == 0
    }

    /** The flip bit as rendered: the prop when controlled, the internal state otherwise. */
    function IsFlipped(): bool
      reads this
    {
      if isFlippedProp.Some? then isFlippedProp.value else internalFlipped
    }

    /** The first render: rotateY starts at 180 when the card starts flipped, rotateX at 0. */
    constructor (isFlipped: Option<bool>)
      ensures Valid() && fresh(drag)
      ensures isFlippedProp == isFlipped && !internalFlipped && !wasDragged && flipNotifications == []
      ensures rotateY == (if isFlipped == Some(true) then 180 else 0) && rotateX == 0
      ensures drag.xThreshold == DefaultThreshold && drag.yThreshold == DefaultThreshold
      ensures IsFlipped() == BackFacing(rotateY, rotateX)
    {
      isFlippedProp := isFlipped;
      internalFlipped := false;
      rotateY := if isFlipped == Some(true) then 180 else 0;
      rotateX := 0;
      wasDragged := false;
      flipNotifications := [];
      drag := new DragTracker(None, None);
    }

    /** A later render with a new `isFlipped` prop; the rotations keep their values. */
    method Rerender(isFlipped: Option<bool>)
      modifies this
      ensures isFlippedProp == isFlipped
      ensures internalFlipped == old(internalFlipped) && rotateY == old(rotateY) && rotateX == old(rotateX)
      ensures wasDragged == old(wasDragged) && flipNotifications == old(flipNotifications)
    {
      isFlippedProp := isFlipped;
    }

    /**
     * `flip`: turn for `d`, then propose the toggled bit. Controlled, only `onFlip(!isFlipped)` is
     * called; uncontrolled, the internal bit is toggled and `onFlip` receives the new value.
     */
    method Flip(d: Direction)
      requires Valid()
      modifies this
      ensures Valid()
      ensures (rotateY, rotateX) == Turn(d, old(rotateY), old(rotateX))
      ensures BackFacing(rotateY, rotateX) <==> !BackFacing(old(rotateY), old(rotateX))
      ensures flipNotifications == old(flipNotifications) + [!old(IsFlipped())]
      ensures isFlippedProp.Some? ==> internalFlipped == old(internalFlipped)
      ensures isFlippedProp.None? ==> internalFlipped == !old(internalFlipped)
      ensures isFlippedProp.None? && old(IsFlipped() == BackFacing(rotateY, rotateX)) ==> IsFlipped() == BackFacing(rotateY, rotateX)
      ensures isFlippedProp == old(isFlippedProp) && wasDragged == old(wasDragged)
    {
      TurnShowsOtherFace(d, rotateY, rotateX);
      rotateY, rotateX := Turn(d, rotateY, rotateX).0, Turn(d, rotateY, rotateX).1;
      if isFlippedProp.Some? {
        flipNotifications := flipNotifications + [!isFlippedProp.value];
      } else {
        flipNotifications := flipNotifications + [!internalFlipped];
        internalFlipped := !internalFlipped;
      }
    }

    /** Mouse down: the drag starts and `onDragStart` clears the drag flag. */
    method HandleMouseDown(clientX: real, clientY: real, rect: Rect)
      modifies this, drag
      ensures drag.startX == clientX - rect.left && drag.startY == clientY - rect.top
      ensures drag.distanceX == 0.0 && drag.distanceY == 0.0
      ensures !wasDragged
      ensures rotateY == old(rotateY) && rotateX == old(rotateX) && internalFlipped == old(internalFlipped)
      ensures isFlippedProp == old(isFlippedProp) && flipNotifications == old(flipNotifications)
    {
      drag.HandleDragStart(clientX, clientY, rect);
      wasDragged := false;
    }

    method HandleMouseMove(clientX: real, clientY: real, rect: Rect)
      modifies drag
      ensures drag.distanceX == clientX - rect.left - drag.startX && drag.distanceY == clientY - rect.top - drag.startY
      ensures drag.startX == old(drag.startX) && drag.startY == old(drag.startY)
    {
      drag.HandleDragMove(clientX, clientY, rect);
    }

    /** Mouse up: a resolved drag sets the drag flag and flips in its direction; otherwise nothing flips. */
    method HandleMouseUp() returns (direction: Option<Direction>)
      requires Valid()
      modifies this, drag
      ensures Valid()
      ensures direction == Classify(old(drag.distanceX), old(drag.distanceY), drag.xThreshold, drag.yThreshold)
      ensures direction.Some? ==> (
        && wasDragged && (rotateY, rotateX) == Turn(direction.value, old(rotateY), old(rotateX))
        && flipNotifications == old(flipNotifications) + [!old(IsFlipped())]
        && internalFlipped == (if isFlippedProp.Some? then old(internalFlipped) else !old(internalFlipped)))
      ensures direction.None? ==> (
        && wasDragged == old(wasDragged) && rotateY == old(rotateY) && rotateX == old(rotateX)
        && internalFlipped == old(internalFlipped) && flipNotifications == old(flipNotifications))
      ensures isFlippedProp == old(isFlippedProp)
      ensures drag.distanceX == 0.0 && drag.distanceY == 0.0 && drag.startX == 0.0 && drag.startY == 0.0
    {
      direction := drag.HandleDragEnd();
      if direction.Some? {
        wasDragged := true;
        Flip(direction.value);
      }
    }

    /** A click: swallowed, clearing the flag, right after a drag; otherwise a flip towards the clicked half. */
    method HandleClick(clientX: real, rect: Rect)
      requires Valid()
      modifies this
      ensures Valid()
      ensures !wasDragged
      ensures old(wasDragged) ==> (
        && rotateY == old(rotateY) && rotateX == old(rotateX)
        && internalFlipped == old(internalFlipped) && flipNotifications == old(flipNotifications))
      ensures !old(wasDragged) ==> (
        && (rotateY, rotateX) == Turn(ClickDirection(clientX, rect), old(rotateY), old(rotateX))
        && flipNotifications == old(flipNotifications) + [!old(IsFlipped())]
        && internalFlipped == (if isFlippedProp.Some? then old(internalFlipped) else !old(internalFlipped)))
      ensures isFlippedProp == old(isFlippedProp)
    {
      if wasDragged {
        wasDragged := false;
        return;
      }
      Flip(ClickDirection(clientX, rect));
    }
  }

  /** Uncontrolled: a click on the left half flips the card, a click on the right half flips it back. */
  method ClickTwice(rect: Rect)
    requires rect.width > 0.0
  {
    var card := new Flippable(None);
    card.HandleClick(rect.left, rect);
    assert card.IsFlipped() && card.rotateY == -180;
    card.HandleClick(rect.left + rect.width, rect);
    assert !card.IsFlipped() && card.rotateY == 0;
    assert card.flipNotifications == [true, false];
  }

  /** Controlled: a drag that resolves calls `onFlip(true)` once, leaves the bit to the parent, and swallows the click that follows. */
  method DragControlled(rect: Rect)
  {
    var card := new Flippable(Some(false));
    card.HandleMouseDown(rect.left, rect.top, rect);
    card.HandleMouseMove(rect.left + 80.0, rect.top + 10.0, rect);
    var d := card.HandleMouseUp();
    assert d == Some(Right);
    assert card.flipNotifications == [true] && !card.IsFlipped() && !card.internalFlipped;
    card.HandleClick(rect.left, rect);
    assert card.flipNotifications == [true] && !card.wasDragged;
  }
}
