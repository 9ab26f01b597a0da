/**
 * The window record of one managed client (CanopyWM/src/client.c,
 * CanopyWM/include/client.h): a heap object whose fields the window manager
 * overwrites in place, and the X requests each operation issues.
 */
module Clients {
  import opened Wrappers
  import opened Foreign

  class Client {
    const window: Window        // the client's own window; never reassigned
    var frame: Window           // the decoration container created with the record
    var title: Option<string>   // NULL until a title is stored
    var x: int
    var y: int
    var width: nat              // `unsigned int`
    var height: nat
    var isFullscreen: bool
    var isFloating: bool
    var needsRedraw: bool

    /** Field initialisation of client_create, after allocation succeeded. */
    constructor Init(window: Window, frame: Window, x: int, y: int, width: nat, height: nat)
      ensures this.window == window && this.frame == frame
      ensures this.x == x && this.y == y && this.width == width && this.height == height
      ensures !isFullscreen && !isFloating && !needsRedraw && title == None
    {
      this.window := window;
      this.frame := frame;
      this.x := x;
      this.y := y;
      this.width := width;
      this.height := height;
      isFullscreen := false;
      isFloating := false;
      needsRedraw := false;
      title := None;
    }

    /** Everything in the record except its position: what moving the client leaves alone. */
    function Attributes(): (Window, Window, Option<string>, nat, nat, bool, bool, bool)
      reads this
    {
      (window, frame, title, width, height, isFullscreen, isFloating, needsRedraw)
    }

    /** client_set_title: the old title is released and a copy of the new one stored. */
    method SetTitle(out: Outbox, newTitle: string)
      modifies this`title, out
      ensures title == Some(newTitle)
      ensures out.sent == old(out.sent) + [StoreName(window, newTitle)]
    {
      title := Some(newTitle);
      out.sent := out.sent + [StoreName(window, newTitle)];
    }

    /** client_focus: direct keyboard focus to the client window. */
    method Focus(out: Outbox)
      modifies out
      ensures out.sent == old(out.sent) + [SetInputFocus(window)]
    {
      out.sent := out.sent + [SetInputFocus(window)];
    }

    /** client_resize: only the size changes. */
    method Resize(out: Outbox, newWidth: nat, newHeight: nat)
      modifies this`width, this`height, out
      ensures width == newWidth && height == newHeight
      ensures out.sent == old(out.sent) + [ResizeWindow(window, newWidth, newHeight)]
    {
      width := newWidth;
      height := newHeight;
      out.sent := out.sent + [ResizeWindow(window, newWidth, newHeight)];
    }

    /** client_move: only the position changes. */
    method Move(out: Outbox, newX: int, newY: int)
      modifies this`x, this`y, out
      ensures x == newX && y == newY
      ensures out.sent == old(out.sent) + [MoveWindow(window, newX, newY)]
    {
      x := newX;
      y := newY;
      out.sent := out.sent + [MoveWindow(window, newX, newY)];
    }

    /** client_destroy: the frame window is destroyed (the record itself is then freed). */
    method Destroy(out: Outbox)
      modifies out
      ensures out.sent == old(out.sent) + [DestroyWindow(frame)]
    {
      out.sent := out.sent + [DestroyWindow(frame)];
    }
  }

  /**
   * client_create. `allocOk` is whether malloc succeeded; `root` is the
   * display's default root window and `frameId` the id the server gives the
   * frame window created on it.
   */
  method Create(out: Outbox, root: Window, window: Window, x: int, y: int, width: nat, height: nat,
                allocOk: bool, frameId: Window) returns (c: Client?)
    modifies out
    ensures !allocOk ==> c == null && out.sent == old(out.sent)
    ensures allocOk ==> c != null && fresh(c)
    ensures allocOk ==> c.window == window && c.frame == frameId
    ensures allocOk ==> c.x == x && c.y == y && c.width == width && c.height == height
    ensures allocOk ==> !c.isFullscreen && !c.isFloating && !c.needsRedraw && c.title == None
    ensures allocOk ==> out.sent == old(out.sent) + [CreateSimpleWindow(root, x, y, width, height)]
  {
    if !allocOk {
      return null;
    }
    out.sent := out.sent + [CreateSimpleWindow(root, x, y, width, height)];
    c := new Client.Init(window, frameId, x, y, width, height);
  }

  /** client_from_window: a placeholder in the source that finds nothing. */
  function FromWindow(window: Window): (c: Client?)
    ensures c == null
  {
    null
  }
}
