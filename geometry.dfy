/**
 * The placement rule wm_handle_configure_request (CanopyWM/src/wm.c) applies
 * to a client's configure request: keep the window clear of the margins
 * reserved for the desktop shell, 32 pixels at the top for the panel.
 */
module Geometry {
  import opened Foreign

  const UI_BUFFER_TOP: int := 32
  const UI_BUFFER_BOTTOM: int := 0
  const UI_BUFFER_LEFT: int := 0
  const UI_BUFFER_RIGHT: int := 0

  /**
   * One axis of the clamp: first push the start past the low margin, then
   * pull it back so the far edge is inside the high margin. The second step
   * wins, so a window larger than the allowed span ends up before `low`.
   */
  function ClampAxis(pos: int, size: int, low: int, high: int): (p: int)
    ensures p + size <= high
    ensures p >= low <==> size <= high - low
    ensures low <= pos && pos + size <= high ==> p == pos
    ensures p == pos || p == low || p == high - size
  {
    var p1 := if pos < low then low else pos;
    if p1 + size > high then high - size else p1
  }

  /** The changes forwarded to XConfigureWindow for a request on a screen of the given size. */
  function Clamp(req: ConfigureReq, screenWidth: int, screenHeight: int): (ch: WindowChanges)
    // the size and the stacking fields pass through untouched
    ensures ch.width == req.width && ch.height == req.height
    ensures ch.borderWidth == req.borderWidth && ch.sibling == req.above && ch.stackMode == req.detail
    // the right and bottom edges always end up inside the margins ...
    ensures ch.x + ch.width <= screenWidth - UI_BUFFER_RIGHT
    ensures ch.y + ch.height <= screenHeight - UI_BUFFER_BOTTOM
    // ... the left and top ones only when the window fits
    ensures ch.x >= UI_BUFFER_LEFT <==> req.width <= screenWidth - UI_BUFFER_RIGHT - UI_BUFFER_LEFT
    ensures ch.y >= UI_BUFFER_TOP <==> req.height <= screenHeight - UI_BUFFER_BOTTOM - UI_BUFFER_TOP
  {
    WindowChanges(
      ClampAxis(req.x, req.width, UI_BUFFER_LEFT, screenWidth - UI_BUFFER_RIGHT),
      ClampAxis(req.y, req.height, UI_BUFFER_TOP, screenHeight - UI_BUFFER_BOTTOM),
      req.width, req.height, req.borderWidth, req.above, req.detail)
  }

  /** Whether a request already lies inside the margins. */
  predicate Inside(req: ConfigureReq, screenWidth: int, screenHeight: int) {
    UI_BUFFER_LEFT <= req.x && req.x + req.width <= screenWidth - UI_BUFFER_RIGHT &&
    UI_BUFFER_TOP <= req.y && req.y + req.height <= screenHeight - UI_BUFFER_BOTTOM
  }

  /** A request already inside the margins is placed where it asked to be. */
  lemma {:induction false} ClampKeepsInside(req: ConfigureReq, screenWidth: int, screenHeight: int)
    requires Inside(req, screenWidth, screenHeight)
    ensures Clamp(req, screenWidth, screenHeight).x == req.x
    ensures Clamp(req, screenWidth, screenHeight).y == req.y
  {
  }

  /** The request a window would send to stay where the clamp put it. */
  function Resubmit(req: ConfigureReq, ch: WindowChanges): ConfigureReq {
    req.(x := ch.x, y := ch.y)
  }

  /** Clamping an already clamped placement changes nothing. */
  lemma {:induction false} ClampIdempotent(req: ConfigureReq, screenWidth: int, screenHeight: int)
    ensures var ch := Clamp(req, screenWidth, screenHeight);
      Clamp(Resubmit(req, ch), screenWidth, screenHeight) == ch
  {
    AxisIdempotent(req.x, req.width, UI_BUFFER_LEFT, screenWidth - UI_BUFFER_RIGHT);
    AxisIdempotent(req.y, req.height, UI_BUFFER_TOP, screenHeight - UI_BUFFER_BOTTOM);
  }

  lemma {:induction false} AxisIdempotent(pos: int, size: int, low: int, high: int)
    ensures ClampAxis(ClampAxis(pos, size, low, high), size, low, high) == ClampAxis(pos, size, low, high)
  {
  }
}
