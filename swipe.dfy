/**
 * The swipe gesture hook (hooks/useSwipe.ts): a horizontal swipe of more than 80 pixels
 * fires the callback for its direction, when one is given. Touch positions are whole
 * pixels here; `hasLeft` and `hasRight` say which callbacks the hook was given.
 */
module Swipe {
  import opened Wrappers

  /** The smallest distance that counts as a swipe, exclusive. */
  const Threshold: int := 80

  datatype Direction = Left | Right

  /** The callback a gesture of horizontal travel `diff` fires. */
  function SwipeOf(diff: int, hasLeft: bool, hasRight: bool): (r: Option<Direction>)
    ensures r == Some(Right) <==> diff > Threshold && hasRight
    ensures r == Some(Left) <==> diff < -Threshold && hasLeft
  {
    if diff > Threshold || diff < -Threshold then
      if diff > 0 && hasRight then Some(Right)
      else if diff < 0 && hasLeft then Some(Left)
      else None
    else None
  }

  class SwipeHook {
    const hasLeft: bool
    const hasRight: bool
    /** `touchStartX.current`; `None` when no touch is in progress. */
    var touchStartX: Option<int>
    var touchCurrentX: int
    var swipeOffset: int

    constructor(hasLeft: bool, hasRight: bool)
      ensures this.hasLeft == hasLeft && this.hasRight == hasRight
      ensures touchStartX.None? && touchCurrentX == 0 && swipeOffset == 0
    {
      this.hasLeft := hasLeft;
      this.hasRight := hasRight;
      touchStartX := None;
      touchCurrentX := 0;
      swipeOffset := 0;
    }

    /** `onTouchStart`: the gesture starts and is at `x`. */
    method OnTouchStart(x: int)
      modifies this
      ensures touchStartX == Some(x) && touchCurrentX == x && swipeOffset == old(swipeOffset)
    {
      touchStartX := Some(x);
      touchCurrentX := x;
    }

    /** `onTouchMove`: outside a gesture nothing changes; inside, the offset follows `x`. */
    method OnTouchMove(x: int)
      modifies this
      ensures old(touchStartX).None? ==>
        touchStartX == old(touchStartX) && touchCurrentX == old(touchCurrentX) && swipeOffset == old(swipeOffset)
      ensures old(touchStartX).Some? ==>
        touchStartX == old(touchStartX) && touchCurrentX == x && swipeOffset == x - touchStartX.value
    {
      if touchStartX.None? {
        return;
      }
      touchCurrentX := x;
      swipeOffset := touchCurrentX - touchStartX.value;
    }

    /**
     * `onTouchEnd`: outside a gesture nothing fires and nothing changes; otherwise the
     * callback for the travel fires, if any, and the gesture and offset are reset.
     */
    method OnTouchEnd() returns (fired: Option<Direction>)
      modifies this
      ensures old(touchStartX).None? ==>
        fired.None? && touchStartX.None? && touchCurrentX == old(touchCurrentX) && swipeOffset == old(swipeOffset)
      ensures old(touchStartX).Some? ==>
        fired == SwipeOf(old(touchCurrentX) - old(touchStartX).value, hasLeft, hasRight) &&
        touchStartX.None? && swipeOffset == 0 && touchCurrentX == old(touchCurrentX)
    {
      if touchStartX.None? {
        return None;
      }
      var diff := touchCurrentX - touchStartX.value;
      fired := None;
      if diff > Threshold || diff < -Threshold {
        if diff > 0 && hasRight {
          fired := Some(Right);
        } else if diff < 0 && hasLeft {
          fired := Some(Left);
        }
      }
      touchStartX := None;
      swipeOffset := 0;
    }
  }

  /**
   * A whole gesture, touching at `from`, moving to `to` and lifting: it fires right for
   * a travel beyond 80 pixels to the right, left beyond 80 to the left, and otherwise
   * nothing, and leaves the hook at rest.
   */
  method Gesture(hook: SwipeHook, from: int, to: int) returns (fired: Option<Direction>)
    modifies hook
    ensures -Threshold <= to - from <= Threshold ==> fired.None?
    ensures fired == Some(Right) <==> to - from > Threshold && hook.hasRight
    ensures fired == Some(Left) <==> to - from < -Threshold && hook.hasLeft
    ensures hook.touchStartX.None? && hook.swipeOffset == 0
  {
    hook.OnTouchStart(from);
    hook.OnTouchMove(to);
    fired := hook.OnTouchEnd();
  }

  /** A tap (a touch lifted where it started, with no move) never fires. */
  method Tap(hook: SwipeHook, at: int) returns (fired: Option<Direction>)
    modifies hook
    ensures fired.None? && hook.touchStartX.None? && hook.swipeOffset == 0
  {
    hook.OnTouchStart(at);
    fired := hook.OnTouchEnd();
  }
}
