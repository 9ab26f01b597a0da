/**
 * The input dispatcher of the window manager (CanopyWM/src/input.c,
 * CanopyWM/include/input.h): a growable table of key bindings searched
 * first-match, and the Alt+drag state machine that moves a window by the
 * pointer's displacement since the last anchor.
 */
module Input {
  import opened Wrappers
  import opened Foreign
  import opened Clients
  import opened Registry

  /** One binding; `callback` is the call the binding makes into window-management code. */
  datatype Keybind = Keybind(key: KeySym, modifiers: Mask, callback: Call)

  const INITIAL_CAPACITY: nat := 32

  /** The bindings input_manager_init registers, in registration order. */
  const DefaultBindings: seq<Keybind> := [
    Keybind(XK_F11, MOD1_MASK, FocusNext),
    Keybind(XK_TAB, MOD1_MASK, CycleFocus),
    Keybind(XK_LOWER_Q, MOD1_MASK | SHIFT_MASK, CloseFocused),
    Keybind(XK_LOWER_F, MOD1_MASK, ToggleFullscreenFocused)
  ]

  /** A binding fires for a key event when both the key symbol and the whole modifier state agree. */
  predicate Matches(b: Keybind, key: KeySym, state: Mask) {
    b.key == key && b.modifiers == state
  }

  /** The index of the first binding that matches, if any. */
  function FirstMatch(bs: seq<Keybind>, key: KeySym, state: Mask): (r: Option<nat>)
    ensures r.Some? ==> r.value < |bs| && Matches(bs[r.value], key, state)
    ensures r.Some? ==> forall j | 0 <= j < r.value :: !Matches(bs[j], key, state)
    ensures r.None? <==> forall j | 0 <= j < |bs| :: !Matches(bs[j], key, state)
  {
    if bs == [] then None
    else if Matches(bs[0], key, state) then Some(0)
    else
      match FirstMatch(bs[1..], key, state)
      case None => None
      case Some(i) => Some(i + 1)
  }

  /** The calls a key event makes: the callback of the first matching binding, or none. */
  function Fired(bs: seq<Keybind>, key: KeySym, state: Mask): (calls: seq<Call>)
    ensures |calls| <= 1
    ensures calls == [] <==> forall j | 0 <= j < |bs| :: !Matches(bs[j], key, state)
  {
    match FirstMatch(bs, key, state)
    case None => []
    case Some(i) => [bs[i].callback]
  }

  /** The pointer positions a sequence of motion events ends at. */
  function LastX(motions: seq<(int, int)>): int
    requires motions != []
  {
    motions[|motions| - 1].0
  }

  function LastY(motions: seq<(int, int)>): int
    requires motions != []
  {
    motions[|motions| - 1].1
  }

  class InputManager {
    var keybinds: array<Keybind>
    var numKeybinds: nat
    var capacity: nat
    var mouseDragging: bool
    var dragWindow: Window
    var dragStartX: int
    var dragStartY: int

    ghost predicate Valid()
      reads this
    {
      0 < capacity == keybinds.Length && numKeybinds <= capacity
    }

    /** The registered bindings, in registration order. */
    ghost function Bindings(): seq<Keybind>
      reads this, keybinds
      requires Valid()
    {
      keybinds[..numKeybinds]
    }

    /**
     * input_manager_init: an empty table of 32 slots, no drag, then the four
     * default bindings (all with Alt), each grabbed on the root window. The
     * X input method opened here is not part of the model.
     */
    constructor Init(out: Outbox)
      modifies out
      ensures Valid() && fresh(keybinds)
      ensures capacity == INITIAL_CAPACITY
      ensures Bindings() == DefaultBindings
      ensures !mouseDragging
      ensures out.sent == old(out.sent) + [
        GrabKey(XK_F11, MOD1_MASK), GrabKey(XK_TAB, MOD1_MASK),
        GrabKey(XK_LOWER_Q, MOD1_MASK | SHIFT_MASK), GrabKey(XK_LOWER_F, MOD1_MASK)]
    {
      capacity := INITIAL_CAPACITY;
      keybinds := new Keybind[INITIAL_CAPACITY];
      numKeybinds := 0;
      mouseDragging := false;
      dragWindow := NONE;
      dragStartX := 0;
      dragStartY := 0;
      new;
      Register(XK_F11, MOD1_MASK, FocusNext, out);
      Register(XK_TAB, MOD1_MASK, CycleFocus, out);
      Register(XK_LOWER_Q, MOD1_MASK | SHIFT_MASK, CloseFocused, out);
      Register(XK_LOWER_F, MOD1_MASK, ToggleFullscreenFocused, out);
    }

    /**
     * input_register_keybind: a full table doubles its capacity (the old
     * entries are carried over), the binding goes in at index
     * `numKeybinds`, and the key is grabbed with exactly the given modifiers.
     */
    method Register(key: KeySym, modifiers: Mask, callback: Call, out: Outbox)
      modifies this, keybinds, out
      requires Valid()
      ensures Valid()
      ensures Bindings() == old(Bindings()) + [Keybind(key, modifiers, callback)]
      ensures capacity == if old(numKeybinds) == old(capacity) then 2 * old(capacity) else old(capacity)
      ensures keybinds == old(keybinds) || fresh(keybinds)
      ensures mouseDragging == old(mouseDragging) && dragWindow == old(dragWindow)
      ensures dragStartX == old(dragStartX) && dragStartY == old(dragStartY)
      ensures out.sent == old(out.sent) + [GrabKey(key, modifiers)]
    {
      if numKeybinds >= capacity {
        var grown := new Keybind[2 * capacity];
        forall j | 0 <= j < numKeybinds {
          grown[j] := keybinds[j];
        }
        keybinds := grown;
        capacity := 2 * capacity;
      }
      keybinds[numKeybinds] := Keybind(key, modifiers, callback);
      numKeybinds := numKeybinds + 1;
      out.sent := out.sent + [GrabKey(key, modifiers)];
    }

    /** The search loop of input_handle_key: the first binding that matches. */
    method FindKeybind(key: KeySym, state: Mask) returns (r: Option<nat>)
      requires Valid()
      ensures r == FirstMatch(Bindings(), key, state)
    {
      var i := 0;
      while i < numKeybinds
        invariant i <= numKeybinds
        invariant forall j | 0 <= j < i :: !Matches(keybinds[j], key, state)
      {
        if keybinds[i].key == key && keybinds[i].modifiers == state {
          return Some(i);
        }
        i := i + 1;
      }
      return None;
    }

    /**
     * input_handle_key: `key` is the level-0 key symbol of the pressed key.
     * Only the first matching binding's callback runs; no match does nothing.
     */
    method HandleKey(key: KeySym, state: Mask, out: Outbox)
      modifies out
      requires Valid()
      ensures out.sent == old(out.sent) + Fired(Bindings(), key, state)
    {
      var r := FindKeybind(key, state);
      if r.Some? {
        out.sent := out.sent + [keybinds[r.value].callback];
      }
    }

    /**
     * input_handle_button: Alt+Button1 on a child of the root starts a drag
     * anchored at the pointer and raises the window; every other press,
     * and any press outside a child window, leaves the drag state alone.
     */
    method HandleButton(button: nat, state: Mask, subwindow: Window, xRoot: int, yRoot: int, out: Outbox)
      modifies this`mouseDragging, this`dragWindow, this`dragStartX, this`dragStartY, out
      ensures subwindow != NONE && button == BUTTON1 && state & MOD1_MASK != 0 ==>
        mouseDragging && dragWindow == subwindow && dragStartX == xRoot && dragStartY == yRoot &&
        out.sent == old(out.sent) + [RaiseWindow(subwindow)]
      ensures !(subwindow != NONE && button == BUTTON1 && state & MOD1_MASK != 0) ==>
        mouseDragging == old(mouseDragging) && dragWindow == old(dragWindow) &&
        dragStartX == old(dragStartX) && dragStartY == old(dragStartY) &&
        out.sent == old(out.sent)
    {
      if subwindow == NONE {
        return;
      }
      if button == BUTTON1 && state & MOD1_MASK != 0 {
        mouseDragging := true;
        dragWindow := subwindow;
        dragStartX := xRoot;
        dragStartY := yRoot;
        out.sent := out.sent + [RaiseWindow(subwindow)];
      }
    }

    /**
     * input_handle_motion: while dragging a managed window, move it by the
     * pointer's displacement since the anchor and re-anchor at the pointer.
     * The offset between the window and the anchor is therefore invariant,
     * which is what makes successive deltas add up to the whole gesture.
     */
    method HandleMotion(xRoot: int, yRoot: int, registry: ClientManager, out: Outbox)
      modifies this`dragStartX, this`dragStartY, registry.clients.Values`x, registry.clients.Values`y, out
      requires registry.Valid()
      ensures mouseDragging == old(mouseDragging) && dragWindow == old(dragWindow)
      ensures !(mouseDragging && dragWindow in registry.clients) ==>
        dragStartX == old(dragStartX) && dragStartY == old(dragStartY) && out.sent == old(out.sent)
      ensures mouseDragging && dragWindow in registry.clients ==>
        var c := registry.clients[dragWindow];
        c.x == old(c.x) + (xRoot - old(dragStartX)) && c.y == old(c.y) + (yRoot - old(dragStartY)) &&
        dragStartX == xRoot && dragStartY == yRoot &&
        c.x - dragStartX == old(c.x - dragStartX) && c.y - dragStartY == old(c.y - dragStartY) &&
        out.sent == old(out.sent) + [MoveWindow(dragWindow, c.x, c.y)]
      ensures forall v | v in registry.clients.Values && !(mouseDragging && v.window == dragWindow) ::
        v.x == old(v.x) && v.y == old(v.y)
      ensures forall v | v in registry.clients.Values :: v.Attributes() == old(v.Attributes())
    {
      if !mouseDragging {
        return;
      }
      var dx := xRoot - dragStartX;
      var dy := yRoot - dragStartY;
      var c := registry.Find(dragWindow);
      if c != null {
        c.Move(out, c.x + dx, c.y + dy);
        dragStartX := xRoot;
        dragStartY := yRoot;
      }
    }

    /**
     * A whole drag gesture as the event loop delivers it: Alt+Button1 on a
     * managed window, then one or more motions. However the motions are
     * split, the window ends up displaced by the last pointer position
     * minus the press position.
     */
    method Drag(w: Window, state: Mask, pressX: int, pressY: int, motions: seq<(int, int)>,
                registry: ClientManager, out: Outbox)
      modifies this`mouseDragging, this`dragWindow, this`dragStartX, this`dragStartY
      modifies registry.clients.Values`x, registry.clients.Values`y, out
      requires registry.Valid() && w in registry.clients && w != NONE
      requires state & MOD1_MASK != 0 && motions != []
      ensures mouseDragging && dragWindow == w
      ensures dragStartX == LastX(motions) && dragStartY == LastY(motions)
      ensures registry.clients[w].x == old(registry.clients[w].x) + (LastX(motions) - pressX)
      ensures registry.clients[w].y == old(registry.clients[w].y) + (LastY(motions) - pressY)
      ensures forall v | v in registry.clients.Values && v.window != w :: v.x == old(v.x) && v.y == old(v.y)
      ensures forall v | v in registry.clients.Values :: v.Attributes() == old(v.Attributes())
    {
      var c := registry.clients[w];
      ghost var x0, y0 := c.x, c.y;
      HandleButton(BUTTON1, state, w, pressX, pressY, out);
      var i := 0;
      while i < |motions|
        invariant 0 <= i <= |motions|
        invariant mouseDragging && dragWindow == w
        invariant c.x - dragStartX == x0 - pressX && c.y - dragStartY == y0 - pressY
        invariant i > 0 ==> dragStartX == motions[i - 1].0 && dragStartY == motions[i - 1].1
        invariant forall v | v in registry.clients.Values && v.window != w :: v.x == old(v.x) && v.y == old(v.y)
      {
        HandleMotion(motions[i].0, motions[i].1, registry, out);
        i := i + 1;
      }
    }
  }
}
