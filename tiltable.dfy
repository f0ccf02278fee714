/**
 * The tilt mapper of the card: a pointer position over the element becomes a pair of tilt
 * angles, clamped to [-maxTilt, maxTilt]; leaving or releasing schedules a reset one second
 * later, through a single cancellable timer handle. The arithmetic is exact; a zero-size
 * element gives the infinities and NaN that JavaScript's division gives.
 */
module Tiltable {
  import opened Wrappers
  import opened Dom
  import J = JsNumber

  const DefaultMaxTilt: real := 30.0
  /** The reset fires after this many milliseconds without a new release or leave. */
  const ResetDelayMs: nat := 1000

  function Clamp(maxTilt: real, n: J.Num): J.Num {
    J.Max(-maxTilt, J.Min(maxTilt, n))
  }

  /** The tilt about the vertical axis: offset from the centre over the half width, times maxTilt, clamped. */
  function TiltXAxis(offset: real, half: real, maxTilt: real): J.Num {
    Clamp(maxTilt, J.Mul(J.Div(offset, half), maxTilt))
  }

  /** The tilt about the horizontal axis, sign-inverted: above the centre tilts positive. */
  function TiltYAxis(offset: real, half: real, maxTilt: real): J.Num {
    Clamp(maxTilt, J.Mul(J.Neg(J.Div(offset, half)), maxTilt))
  }

  /** The tilt pair for a pointer at (clientX, clientY) over `rect`. */
  function TiltFor(clientX: real, clientY: real, rect: Rect, maxTilt: real): (J.Num, J.Num) {
    var x := clientX - rect.left;
    var y := clientY - rect.top;
    var centerX := rect.width / 2.0;
    var centerY := rect.height / 2.0;
    (TiltXAxis(x - centerX, centerX, maxTilt), TiltYAxis(y - centerY, centerY, maxTilt))
  }

  predicate WithinTilt(n: J.Num, maxTilt: real) {
    n.Fin? && -maxTilt <= n.v <= maxTilt
  }

  /** Clamping gives a value in [-maxTilt, maxTilt], unless it was handed NaN. */
  lemma ClampBounded(maxTilt: real, n: J.Num)
    requires maxTilt >= 0.0
    ensures Clamp(maxTilt, n).NaN? <==> n.NaN?
    ensures !n.NaN? ==> WithinTilt(Clamp(maxTilt, n), maxTilt)
  {
  }

  /** Both tilts stay within [-maxTilt, maxTilt]; over an element with a non-zero size they are never NaN. */
  lemma TiltBounded(clientX: real, clientY: real, rect: Rect, maxTilt: real)
    requires maxTilt >= 0.0
    ensures var (tx, ty) := TiltFor(clientX, clientY, rect, maxTilt);
      (tx.NaN? || WithinTilt(tx, maxTilt)) && (ty.NaN? || WithinTilt(ty, maxTilt))
    ensures rect.width != 0.0 ==> WithinTilt(TiltFor(clientX, clientY, rect, maxTilt).0, maxTilt)
    ensures rect.height != 0.0 ==> WithinTilt(TiltFor(clientX, clientY, rect, maxTilt).1, maxTilt)
  {
    var x := clientX - rect.left - rect.width / 2.0;
    var y := clientY - rect.top - rect.height / 2.0;
    ClampBounded(maxTilt, J.Mul(J.Div(x, rect.width / 2.0), maxTilt));
    ClampBounded(maxTilt, J.Mul(J.Neg(J.Div(y, rect.height / 2.0)), maxTilt));
  }

  /** The tilt pair is the two axis tilts of the pointer's offsets from the centre. */
  lemma TiltForAxes(clientX: real, clientY: real, rect: Rect, maxTilt: real)
    ensures TiltFor(clientX, clientY, rect, maxTilt)
         == (TiltXAxis(clientX - rect.left - rect.width / 2.0, rect.width / 2.0, maxTilt),
             TiltYAxis(clientY - rect.top - rect.height / 2.0, rect.height / 2.0, maxTilt))
  {
  }

  /** No offset from the centre gives no tilt on either axis. */
  lemma AxesAtZero(offset: real, half: real, maxTilt: real)
    requires offset == 0.0 && half > 0.0 && maxTilt >= 0.0
    ensures TiltXAxis(offset, half, maxTilt) == J.Fin(0.0) && TiltYAxis(offset, half, maxTilt) == J.Fin(0.0)
  {
    assert offset / half == 0.0;
    assert J.Mul(J.Fin(0.0), maxTilt) == J.Fin(0.0);
  }

  /** A pointer at the centre of the element gives no tilt. */
  lemma TiltAtCentre(rect: Rect, maxTilt: real)
    requires rect.width > 0.0 && rect.height > 0.0 && maxTilt >= 0.0
    ensures TiltFor(rect.left + rect.width / 2.0, rect.top + rect.height / 2.0, rect, maxTilt) == (J.Fin(0.0), J.Fin(0.0))
  {
    var cx, cy := rect.width / 2.0, rect.height / 2.0;
    TiltForAxes(rect.left + cx, rect.top + cy, rect, maxTilt);
    AxesAtZero(rect.left + cx - rect.left - cx, cx, maxTilt);
    AxesAtZero(rect.top + cy - rect.top - cy, cy, maxTilt);
  }

  /** Right of the centre tilts positive about Y; above the centre tilts positive about X. */
  lemma TiltSigns(clientX: real, clientY: real, rect: Rect, maxTilt: real)
    requires rect.width > 0.0 && rect.height > 0.0 && maxTilt > 0.0
    ensures var (tx, ty) := TiltFor(clientX, clientY, rect, maxTilt);
      tx.Fin? && ty.Fin?
      && (clientX > rect.left + rect.width / 2.0 ==> tx.v > 0.0)
      && (clientX < rect.left + rect.width / 2.0 ==> tx.v < 0.0)
      && (clientY < rect.top + rect.height / 2.0 ==> ty.v > 0.0)
      && (clientY > rect.top + rect.height / 2.0 ==> ty.v < 0.0)
  {
    var cx, cy := rect.width / 2.0, rect.height / 2.0;
    var ox, oy := clientX - rect.left - cx, clientY - rect.top - cy;
    PositiveQuotient(ox, cx, maxTilt);
    PositiveQuotient(-ox, cx, maxTilt);
    PositiveQuotient(oy, cy, maxTilt);
    PositiveQuotient(-oy, cy, maxTilt);
    assert (-ox) / cx == -(ox / cx);
    assert (-oy) / cy == -(oy / cy);
  }

  lemma PositiveQuotient(a: real, b: real, m: real)
    requires b > 0.0 && m > 0.0
    ensures a > 0.0 ==> (a / b) * m > 0.0
  {
    if a > 0.0 {
      assert a / b > 0.0;
    }
  }

  /** The top-right corner of any element with a size tilts by (maxTilt, maxTilt). */
  lemma TiltAtTopRightCorner(rect: Rect, maxTilt: real)
    requires rect.width > 0.0 && rect.height > 0.0 && maxTilt >= 0.0
    ensures TiltFor(rect.left + rect.width, rect.top, rect, maxTilt) == (J.Fin(maxTilt), J.Fin(maxTilt))
  {
    var cx, cy := rect.width / 2.0, rect.height / 2.0;
    assert (rect.left + rect.width - rect.left - cx) / cx == 1.0;
    assert (rect.top - rect.top - cy) / cy == -1.0;
  }

  /** Over an element of zero width, the X tilt is maxTilt or -maxTilt off the centre line, and NaN on it. */
  lemma TiltOverZeroWidth(clientX: real, clientY: real, rect: Rect, maxTilt: real)
    requires rect.width == 0.0 && maxTilt > 0.0
    ensures var tx := TiltFor(clientX, clientY, rect, maxTilt).0;
      (clientX > rect.left ==> tx == J.Fin(maxTilt))
      && (clientX < rect.left ==> tx == J.Fin(-maxTilt))
      && (clientX == rect.left ==> tx == J.NaN)
  {
  }

  class Tiltable {
    const maxTilt: real
    var tiltX: J.Num
    var tiltY: J.Num
    var dragStartX: Option<real>
    var dragStartY: Option<real>
    /** `resetInterval.current`: the handle of the pending reset, if any. */
    var resetHandle: Option<nat>
    /** The reset timeouts the event loop holds: scheduled and neither run nor cancelled. */
    var timers: set<nat>
    /** The handle the next `setTimeout` returns; handles are never reused. */
    var nextHandle: nat
    /** The arguments `onTilt` and `onTiltEnd` have been called with, oldest first. */
    var tiltNotifications: seq<(J.Num, J.Num)>
    var tiltEndNotifications: seq<(real, real)>

    /** The event loop holds exactly the reset the handle names, so at most one reset is ever pending. */
    ghost predicate Valid()
      reads this
    {
      && timers == (if resetHandle.Some? then {resetHandle.value} else {})
      && nextHandle >= 1
      && (forall h :: h in timers ==> 0 < h < nextHandle)
    }

    constructor (maxTilt: Option<real>)
      ensures Valid()
      ensures this.maxTilt == maxTilt.GetOr(DefaultMaxTilt)
      ensures tiltX == J.Fin(0.0) && tiltY == J.Fin(0.0)
      ensures dragStartX.None? && dragStartY.None? && resetHandle.None? && timers == {}
      ensures tiltNotifications == [] && tiltEndNotifications == []
    {
      this.maxTilt := maxTilt.GetOr(DefaultMaxTilt);
      tiltX, tiltY := J.Fin(0.0), J.Fin(0.0);
      dragStartX, dragStartY := None, None;
      resetHandle := None;
      timers := {};
      nextHandle := 1;
      tiltNotifications, tiltEndNotifications := [], [];
    }

    lemma AtMostOnePending()
      requires Valid()
      ensures |timers| <= 1
    {
    }

    /** Pointer down or mouse enter: the start position is remembered. */
    method HandlePointerDown(clientX: real, clientY: real)
      requires Valid()
      modifies this
      ensures Valid()
      ensures dragStartX == Some(clientX) && dragStartY == Some(clientY)
      ensures tiltX == old(tiltX) && tiltY == old(tiltY) && resetHandle == old(resetHandle) && timers == old(timers)
      ensures nextHandle == old(nextHandle)
      ensures tiltNotifications == old(tiltNotifications) && tiltEndNotifications == old(tiltEndNotifications)
    {
      dragStartX := Some(clientX);
      dragStartY := Some(clientY);
    }

    /**
     * Pointer move. Without a bounding rect nothing happens and `onTilt` is not called; otherwise
     * the clamped tilt is stored and `onTilt` receives exactly the stored pair. A move never touches
     * a pending reset.
     */
    method HandlePointerMove(clientX: real, clientY: real, rect: Option<Rect>)
      requires Valid()
      modifies this
      ensures Valid()
      ensures rect.None? ==> tiltX == old(tiltX) && tiltY == old(tiltY) && tiltNotifications == old(tiltNotifications)
      ensures rect.Some? ==> (
        && (tiltX, tiltY) == TiltFor(clientX, clientY, rect.value, maxTilt)
        && tiltNotifications == old(tiltNotifications) + [(tiltX, tiltY)])
      ensures resetHandle == old(resetHandle) && timers == old(timers) && nextHandle == old(nextHandle)
      ensures dragStartX == old(dragStartX) && dragStartY == old(dragStartY)
      ensures tiltEndNotifications == old(tiltEndNotifications)
    {
      if rect.None? {
        return;
      }
      var (tx, ty) := TiltFor(clientX, clientY, rect.value, maxTilt);
      tiltX, tiltY := tx, ty;
      tiltNotifications := tiltNotifications + [(tx, ty)];
    }

    /** `resetTilt` (pointer up or leave): cancel the pending reset, if any, then schedule a fresh one. */
    method ResetTilt()
      requires Valid()
      modifies this
      ensures Valid()
      ensures resetHandle == Some(old(nextHandle)) && timers == {old(nextHandle)}
      ensures old(resetHandle).Some? ==> old(resetHandle).value !in timers
      ensures tiltX == old(tiltX) && tiltY == old(tiltY) && dragStartX == old(dragStartX) && dragStartY == old(dragStartY)
      ensures tiltNotifications == old(tiltNotifications) && tiltEndNotifications == old(tiltEndNotifications)
    {
      if resetHandle.Some? {
        timers := timers - {resetHandle.value};
        resetHandle := None;
      }
      var h := nextHandle;
      nextHandle := nextHandle + 1;
      timers := timers + {h};
      resetHandle := Some(h);
    }

    /**
     * The reset timeout `h` runs: the starts are forgotten, both tilts settle at 0 (the spring that
     * carries them there is not modelled), `onTiltEnd(0, 0)` is called and the handle is cleared.
     */
    method FireReset(h: nat)
      requires Valid() && h in timers
      modifies this
      ensures Valid()
      ensures old(resetHandle) == Some(h)
      ensures dragStartX.None? && dragStartY.None?
      ensures tiltX == J.Fin(0.0) && tiltY == J.Fin(0.0)
      ensures tiltEndNotifications == old(tiltEndNotifications) + [(0.0, 0.0)]
      ensures resetHandle.None? && timers == {}
      ensures tiltNotifications == old(tiltNotifications)
    {
      timers := timers - {h};
      dragStartX, dragStartY := None, None;
      tiltX, tiltY := J.Fin(0.0), J.Fin(0.0);
      tiltEndNotifications := tiltEndNotifications + [(0.0, 0.0)];
      resetHandle := None;
    }
  }

  /** Leaving twice before the delay elapses leaves one reset pending, and it fires once. */
  method LeaveTwice(rect: Rect)
    requires rect.width > 0.0 && rect.height > 0.0
  {
    var t := new Tiltable(None);
    t.HandlePointerMove(rect.left + rect.width, rect.top, Some(rect));
    TiltAtTopRightCorner(rect, t.maxTilt);
    assert t.tiltX == J.Fin(30.0);
    t.ResetTilt();
    var first := t.resetHandle.value;
    t.ResetTilt();
    assert first !in t.timers;
    t.HandlePointerMove(rect.left, rect.top, Some(rect));
    var second := t.resetHandle.value;
    t.FireReset(second);
    assert t.tiltX == J.Fin(0.0) && t.tiltEndNotifications == [(0.0, 0.0)] && t.timers == {};
  }
}
