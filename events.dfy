/**
 * The second event dispatcher of the window manager, handle_event
 * (CanopyWM/src/events.c). It shares the registry, the input state and the
 * window-manager record with wm_handle_event but follows rules of its own:
 * configure requests are forwarded without the margin clamp, the map path
 * honours the attribute query, unmaps, motion, button release, FocusIn and
 * RandR screen changes are handled, and `_NET_WM_NAME` counts as a title.
 */
module Events {
  import opened Wrappers
  import opened Foreign
  import opened Clients
  import opened Registry
  import opened Input
  import opened Geometry
  import opened WindowManagement

  /** The window changes handle_event copies out of a configure request, field by field. */
  function Requested(req: ConfigureReq): WindowChanges {
    WindowChanges(req.x, req.y, req.width, req.height, req.borderWidth, req.above, req.detail)
  }

  /** Inside the margins the two dispatchers configure a window identically. */
  lemma {:induction false} ForwardAgreesWithClampInside(req: ConfigureReq, screenWidth: int, screenHeight: int)
    requires Inside(req, screenWidth, screenHeight)
    ensures Clamp(req, screenWidth, screenHeight) == Requested(req)
  {
    ClampKeepsInside(req, screenWidth, screenHeight);
  }

  /**
   * Outside them they differ: a window that fits but asks for a place under
   * the panel keeps that place here, while wm_handle_event moves it down.
   */
  lemma {:induction false} ForwardIgnoresPanel(req: ConfigureReq, screenWidth: int, screenHeight: int)
    requires req.y < UI_BUFFER_TOP
    requires req.height <= screenHeight - UI_BUFFER_BOTTOM - UI_BUFFER_TOP
    ensures Requested(req).y < UI_BUFFER_TOP <= Clamp(req, screenWidth, screenHeight).y
  {
  }

  /** The atoms whose change refreshes a title here: WM_NAME and _NET_WM_NAME. */
  predicate TitleAtom(atoms: Atoms, atom: Atom) {
    atom == XA_WM_NAME || atom == atoms.netWmName
  }

  /**
   * The RandR case as written: the switch selects event type
   * RRScreenChangeNotify itself, and the body then also asks that the type
   * minus the extension's event base be RRScreenChangeNotify.
   */
  predicate ScreenChangeFires(code: int, base: int) {
    code == RR_SCREEN_CHANGE_NOTIFY && code - base == RR_SCREEN_CHANGE_NOTIFY
  }

  /**
   * Both tests hold together only when the extension's event base is 0, so
   * the screen-change event RandR delivers (type `base + 0`, with a
   * positive base) never reaches the refresh.
   */
  lemma {:induction false} ScreenChangeNeedsZeroBase(code: int, base: int)
    ensures ScreenChangeFires(code, base) <==> code == RR_SCREEN_CHANGE_NOTIFY && base == 0
    ensures base > 0 ==> !ScreenChangeFires(base + RR_SCREEN_CHANGE_NOTIFY, base)
  {
  }

  /** The map case: only a window whose attributes could be read and that is not override-redirect is managed. */
  method OnMapRequest(wm: WindowManager, w: Window, queryOk: bool, overrideRedirect: bool)
    modifies wm.registry, wm.out
    requires wm.Valid()
    ensures wm.Valid()
    ensures wm.registry.focused == old(wm.registry.focused)
    ensures !(queryOk && !overrideRedirect) ==>
      wm.registry.clients == old(wm.registry.clients) && wm.out.sent == old(wm.out.sent)
    ensures queryOk && !overrideRedirect ==>
      wm.registry.clients.Keys == old(wm.registry.clients).Keys + {w} &&
      (forall v | v in old(wm.registry.clients) :: wm.registry.clients[v] == old(wm.registry.clients)[v]) &&
      wm.out.sent == old(wm.out.sent) + [MapWindow(w)]
  {
    if queryOk {
      if !overrideRedirect {
        wm.out.sent := wm.out.sent + [MapWindow(w)];
        wm.registry.Add(w);
      }
    }
  }

  /** The unmap case: only an unmap reported to the root window (not a child's echo) unmanages the window. */
  method OnUnmapNotify(wm: WindowManager, event: Window, w: Window)
    modifies wm.registry
    requires wm.Valid()
    ensures wm.Valid()
    ensures event == wm.root ==>
      wm.registry.clients == old(wm.registry.clients) - {w} &&
      wm.registry.focused == (if old(wm.registry.focused) == Some(w) then None else old(wm.registry.focused))
    ensures event != wm.root ==>
      wm.registry.clients == old(wm.registry.clients) && wm.registry.focused == old(wm.registry.focused)
  {
    if event == wm.root {
      wm.registry.Remove(w);
    }
  }

  /** The configure case: the requested geometry and stacking are applied as asked. */
  method OnConfigureRequest(wm: WindowManager, req: ConfigureReq)
    modifies wm.out
    ensures wm.out.sent == old(wm.out.sent) + [ConfigureWindow(req.window, req.valueMask, Requested(req))]
  {
    var changes := WindowChanges(req.x, req.y, req.width, req.height, req.borderWidth, req.above, req.detail);
    wm.out.sent := wm.out.sent + [ConfigureWindow(req.window, req.valueMask, changes)];
  }

  /** The motion case: forwarded to the drag code only while a drag is in progress. */
  method OnMotionNotify(wm: WindowManager, xRoot: int, yRoot: int)
    modifies wm.input`dragStartX, wm.input`dragStartY, wm.registry.clients.Values`x, wm.registry.clients.Values`y, wm.out
    requires wm.Valid()
    ensures wm.input.mouseDragging == old(wm.input.mouseDragging) && wm.input.dragWindow == old(wm.input.dragWindow)
    ensures !(wm.input.mouseDragging && wm.input.dragWindow in wm.registry.clients) ==>
      wm.out.sent == old(wm.out.sent) &&
      wm.input.dragStartX == old(wm.input.dragStartX) && wm.input.dragStartY == old(wm.input.dragStartY)
    ensures wm.input.mouseDragging && wm.input.dragWindow in wm.registry.clients ==>
      var c := wm.registry.clients[wm.input.dragWindow];
      c.x == old(c.x) + (xRoot - old(wm.input.dragStartX)) && c.y == old(c.y) + (yRoot - old(wm.input.dragStartY)) &&
      wm.input.dragStartX == xRoot && wm.input.dragStartY == yRoot &&
      wm.out.sent == old(wm.out.sent) + [MoveWindow(wm.input.dragWindow, c.x, c.y)]
    ensures forall v | v in wm.registry.clients.Values && !(wm.input.mouseDragging && v.window == wm.input.dragWindow) ::
      v.x == old(v.x) && v.y == old(v.y)
    ensures forall v | v in wm.registry.clients.Values :: v.Attributes() == old(v.Attributes())
  {
    if wm.input.mouseDragging {
      wm.input.HandleMotion(xRoot, yRoot, wm.registry, wm.out);
    }
  }

  /** The release case: only releasing Button1 ends a drag; any other button leaves it running. */
  method OnButtonRelease(wm: WindowManager, button: nat)
    modifies wm.input`mouseDragging
    ensures wm.input.mouseDragging == (if button == BUTTON1 then false else old(wm.input.mouseDragging))
  {
    if button == BUTTON1 {
      wm.input.mouseDragging := false;
    }
  }

  /** The property case: a WM_NAME or _NET_WM_NAME change on a managed window refreshes its title. */
  method OnPropertyNotify(wm: WindowManager, w: Window, atom: Atom)
    modifies wm.out
    requires wm.Valid()
    ensures wm.out.sent == old(wm.out.sent) +
      (if TitleAtom(wm.atoms, atom) && w in wm.registry.clients then [UpdateClientTitle(w)] else [])
  {
    if atom == XA_WM_NAME || atom == wm.atoms.netWmName {
      var c := wm.registry.Find(w);
      if c != null {
        wm.out.sent := wm.out.sent + [UpdateClientTitle(w)];
      }
    }
  }

  /**
   * The client-message case: a WM_PROTOCOLS message whose first datum is
   * WM_DELETE_WINDOW closes a managed window (ICCCM, section 4.2.8.1).
   */
  method OnClientMessage(wm: WindowManager, w: Window, messageType: Atom, data0: int)
    modifies wm.out
    requires wm.Valid()
    ensures wm.out.sent == old(wm.out.sent) +
      (if messageType == wm.atoms.wmProtocols && data0 == wm.atoms.wmDeleteWindow && w in wm.registry.clients
       then [CloseClient(w)] else [])
  {
    if messageType == wm.atoms.wmProtocols {
      if data0 == wm.atoms.wmDeleteWindow {
        var c := wm.registry.Find(w);
        if c != null {
          wm.out.sent := wm.out.sent + [CloseClient(w)];
        }
      }
    }
  }

  /** The enter case: an ordinary crossing into a managed window focuses it. */
  method OnEnterNotify(wm: WindowManager, w: Window, mode: int)
    modifies wm.out
    requires wm.Valid()
    ensures wm.out.sent == old(wm.out.sent) +
      (if mode == NOTIFY_NORMAL && w in wm.registry.clients then [FocusClient(w)] else [])
  {
    if mode == NOTIFY_NORMAL {
      var c := wm.registry.Find(w);
      if c != null {
        wm.out.sent := wm.out.sent + [FocusClient(w)];
      }
    }
  }

  /** The FocusIn case: the registry records a managed window as focused; no focus request is sent. */
  method OnFocusIn(wm: WindowManager, w: Window)
    modifies wm.registry`focused
    requires wm.Valid()
    ensures wm.Valid()
    ensures wm.registry.focused == if w in wm.registry.clients then Some(w) else old(wm.registry.focused)
  {
    var c := wm.registry.Find(w);
    if c != null {
      wm.registry.focused := Some(w);
    }
  }

  /** The RandR case: the display table is rebuilt and the wallpaper redrawn when both tests pass. */
  method OnScreenChange(wm: WindowManager, code: int)
    modifies wm.out
    ensures wm.out.sent == old(wm.out.sent) +
      (if ScreenChangeFires(code, wm.randrEventBase) then [UpdateDisplays, RenderWallpaper] else [])
  {
    if code == RR_SCREEN_CHANGE_NOTIFY {
      if code - wm.randrEventBase == RR_SCREEN_CHANGE_NOTIFY {
        wm.out.sent := wm.out.sent + [UpdateDisplays, RenderWallpaper];
      }
    }
  }

  /** The events of the keyboard and the pointer, the ones that reach the input dispatcher. */
  predicate PointerEvent(e: Event) {
    e.KeyPress? || e.ButtonPress? || e.MotionNotify? || e.ButtonRelease?
  }

  /** The cases of handle_event that go to the input dispatcher; the registry's map and focus stay as they are. */
  method HandlePointerEvent(wm: WindowManager, e: Event)
    modifies wm.out, wm.registry.clients.Values`x, wm.registry.clients.Values`y
    modifies wm.input`mouseDragging, wm.input`dragWindow, wm.input`dragStartX, wm.input`dragStartY
    requires wm.Valid() && PointerEvent(e)
    ensures !e.MotionNotify? ==> forall v | v in wm.registry.clients.Values :: v.x == old(v.x) && v.y == old(v.y)
    ensures forall v | v in wm.registry.clients.Values :: v.Attributes() == old(v.Attributes())
    ensures e.KeyPress? ==>
      wm.DragState() == old(wm.DragState()) &&
      wm.out.sent == old(wm.out.sent) + Fired(wm.input.Bindings(), e.keysym, e.state)
    ensures e.ButtonPress? ==>
      if e.subwindow != NONE && e.button == BUTTON1 && e.state & MOD1_MASK != 0 then
        wm.DragState() == (true, e.subwindow, e.xRoot, e.yRoot) && wm.out.sent == old(wm.out.sent) + [RaiseWindow(e.subwindow)]
      else
        wm.DragState() == old(wm.DragState()) && wm.out.sent == old(wm.out.sent)
    ensures e.MotionNotify? ==>
      wm.input.mouseDragging == old(wm.input.mouseDragging) && wm.input.dragWindow == old(wm.input.dragWindow)
    ensures e.MotionNotify? && !(wm.input.mouseDragging && wm.input.dragWindow in wm.registry.clients) ==>
      wm.DragState() == old(wm.DragState()) && wm.out.sent == old(wm.out.sent) &&
      forall v | v in wm.registry.clients.Values :: v.x == old(v.x) && v.y == old(v.y)
    ensures e.MotionNotify? && wm.input.mouseDragging && wm.input.dragWindow in wm.registry.clients ==>
      var c := wm.registry.clients[wm.input.dragWindow];
      c.x == old(c.x) + (e.xRoot - old(wm.input.dragStartX)) &&
      c.y == old(c.y) + (e.yRoot - old(wm.input.dragStartY)) &&
      wm.input.dragStartX == e.xRoot && wm.input.dragStartY == e.yRoot &&
      wm.out.sent == old(wm.out.sent) + [MoveWindow(wm.input.dragWindow, c.x, c.y)] &&
      forall v | v in wm.registry.clients.Values && v.window != wm.input.dragWindow :: v.x == old(v.x) && v.y == old(v.y)
    ensures e.ButtonRelease? ==>
      wm.out.sent == old(wm.out.sent) &&
      wm.input.mouseDragging == (if e.button == BUTTON1 then false else old(wm.input.mouseDragging)) &&
      wm.input.dragWindow == old(wm.input.dragWindow) &&
      wm.input.dragStartX == old(wm.input.dragStartX) && wm.input.dragStartY == old(wm.input.dragStartY)
  {
    match e
    case KeyPress(keysym, state) => wm.input.HandleKey(keysym, state, wm.out);
    case ButtonPress(button, state, subwindow, xRoot, yRoot) =>
      wm.input.HandleButton(button, state, subwindow, xRoot, yRoot, wm.out);
    case MotionNotify(xRoot, yRoot) => OnMotionNotify(wm, xRoot, yRoot);
    case ButtonRelease(button) => OnButtonRelease(wm, button);
  }

  /** The other cases of handle_event: they leave the drag state and every client record alone. */
  method HandleWindowEvent(wm: WindowManager, e: Event)
    modifies wm.out, wm.registry
    requires wm.Valid() && !PointerEvent(e)
    ensures wm.Valid()
    ensures !(e.MapRequest? || e.UnmapNotify? || e.DestroyNotify? || e.FocusIn?) ==>
      wm.RegistryState() == old(wm.RegistryState())
    ensures e.ConfigureNotify? || e.ReparentNotify? ==> wm.out.sent == old(wm.out.sent)
    ensures e.MapRequest? ==>
      wm.registry.focused == old(wm.registry.focused) &&
      (!(e.queryOk && !e.overrideRedirect) ==>
        wm.registry.clients == old(wm.registry.clients) && wm.out.sent == old(wm.out.sent)) &&
      (e.queryOk && !e.overrideRedirect ==>
        wm.registry.clients.Keys == old(wm.registry.clients).Keys + {e.window} &&
        (forall v | v in old(wm.registry.clients) :: wm.registry.clients[v] == old(wm.registry.clients)[v]) &&
        wm.out.sent == old(wm.out.sent) + [MapWindow(e.window)])
    ensures e.UnmapNotify? || e.DestroyNotify? ==> wm.out.sent == old(wm.out.sent)
    ensures e.DestroyNotify? || (e.UnmapNotify? && e.event == wm.root) ==>
      wm.registry.clients == old(wm.registry.clients) - {e.window} &&
      wm.registry.focused == (if old(wm.registry.focused) == Some(e.window) then None else old(wm.registry.focused))
    ensures e.UnmapNotify? && e.event != wm.root ==> wm.RegistryState() == old(wm.RegistryState())
    ensures e.ConfigureRequest? ==>
      wm.out.sent == old(wm.out.sent) + [ConfigureWindow(e.req.window, e.req.valueMask, Requested(e.req))]
    ensures e.PropertyNotify? ==>
      wm.out.sent == old(wm.out.sent) +
        (if TitleAtom(wm.atoms, e.atom) && e.window in wm.registry.clients then [UpdateClientTitle(e.window)] else [])
    ensures e.ClientMessage? ==>
      wm.out.sent == old(wm.out.sent) +
        (if e.messageType == wm.atoms.wmProtocols && e.data0 == wm.atoms.wmDeleteWindow && e.window in wm.registry.clients
         then [CloseClient(e.window)] else [])
    ensures e.EnterNotify? ==>
      wm.out.sent == old(wm.out.sent) +
        (if e.mode == NOTIFY_NORMAL && e.window in wm.registry.clients then [FocusClient(e.window)] else [])
    ensures e.FocusIn? ==>
      wm.out.sent == old(wm.out.sent) && wm.registry.clients == old(wm.registry.clients) &&
      wm.registry.focused == (if e.window in wm.registry.clients then Some(e.window) else old(wm.registry.focused))
    ensures e.Other? ==>
      wm.out.sent == old(wm.out.sent) +
        (if ScreenChangeFires(e.code, wm.randrEventBase) then [UpdateDisplays, RenderWallpaper] else [])
  {
    match e
    case MapRequest(w, queryOk, overrideRedirect) => OnMapRequest(wm, w, queryOk, overrideRedirect);
    case UnmapNotify(event, w) => OnUnmapNotify(wm, event, w);
    case ConfigureRequest(req) => OnConfigureRequest(wm, req);
    case PropertyNotify(w, atom) => OnPropertyNotify(wm, w, atom);
    case ClientMessage(w, messageType, _, data0) => OnClientMessage(wm, w, messageType, data0);
    case DestroyNotify(w) => wm.registry.Remove(w);
    case EnterNotify(w, mode) => OnEnterNotify(wm, w, mode);
    case FocusIn(w) => OnFocusIn(wm, w);
    case Other(code) => OnScreenChange(wm, code);
    case ConfigureNotify =>
    case ReparentNotify =>
  }

  /**
   * handle_event. `None` stands for a NULL event pointer, which is ignored;
   * ConfigureNotify, ReparentNotify and unlisted types fall through.
   */
  method HandleEvent(wm: WindowManager, ev: Option<Event>)
    modifies wm.out, wm.registry, wm.registry.clients.Values`x, wm.registry.clients.Values`y
    modifies wm.input`mouseDragging, wm.input`dragWindow, wm.input`dragStartX, wm.input`dragStartY
    requires wm.Valid()
    ensures wm.Valid()
    ensures forall v | v in old(wm.registry.clients.Values) :: v.Attributes() == old(v.Attributes())
    ensures !(ev.Some? && ev.value.MotionNotify?) ==>
      forall v | v in old(wm.registry.clients.Values) :: v.x == old(v.x) && v.y == old(v.y)
    ensures !(ev.Some? && (ev.value.ButtonPress? || ev.value.MotionNotify? || ev.value.ButtonRelease?)) ==>
      wm.DragState() == old(wm.DragState())
    ensures !(ev.Some? && (ev.value.MapRequest? || ev.value.UnmapNotify? || ev.value.DestroyNotify? || ev.value.FocusIn?)) ==>
      wm.RegistryState() == old(wm.RegistryState())
    ensures ev.None? || ev.value.ConfigureNotify? || ev.value.ReparentNotify? ==> wm.out.sent == old(wm.out.sent)
    ensures ev.Some? && ev.value.MapRequest? ==>
      wm.registry.focused == old(wm.registry.focused) &&
      (!(ev.value.queryOk && !ev.value.overrideRedirect) ==>
        wm.registry.clients == old(wm.registry.clients) && wm.out.sent == old(wm.out.sent)) &&
      (ev.value.queryOk && !ev.value.overrideRedirect ==>
        wm.registry.clients.Keys == old(wm.registry.clients).Keys + {ev.value.window} &&
        (forall v | v in old(wm.registry.clients) :: wm.registry.clients[v] == old(wm.registry.clients)[v]) &&
        wm.out.sent == old(wm.out.sent) + [MapWindow(ev.value.window)])
    ensures ev.Some? && (ev.value.UnmapNotify? || ev.value.DestroyNotify?) ==> wm.out.sent == old(wm.out.sent)
    ensures ev.Some? && (ev.value.DestroyNotify? || (ev.value.UnmapNotify? && ev.value.event == wm.root)) ==>
      wm.registry.clients == old(wm.registry.clients) - {ev.value.window} &&
      wm.registry.focused == (if old(wm.registry.focused) == Some(ev.value.window) then None else old(wm.registry.focused))
    ensures ev.Some? && ev.value.UnmapNotify? && ev.value.event != wm.root ==>
      wm.RegistryState() == old(wm.RegistryState())
    ensures ev.Some? && ev.value.ConfigureRequest? ==>
      wm.out.sent == old(wm.out.sent) + [ConfigureWindow(ev.value.req.window, ev.value.req.valueMask, Requested(ev.value.req))]
    ensures ev.Some? && ev.value.KeyPress? ==>
      wm.out.sent == old(wm.out.sent) + Fired(wm.input.Bindings(), ev.value.keysym, ev.value.state)
    ensures ev.Some? && ev.value.ButtonPress? ==>
      var e := ev.value;
      if e.subwindow != NONE && e.button == BUTTON1 && e.state & MOD1_MASK != 0 then
        wm.DragState() == (true, e.subwindow, e.xRoot, e.yRoot) && wm.out.sent == old(wm.out.sent) + [RaiseWindow(e.subwindow)]
      else
        wm.DragState() == old(wm.DragState()) && wm.out.sent == old(wm.out.sent)
    ensures ev.Some? && ev.value.MotionNotify? ==>
      wm.input.mouseDragging == old(wm.input.mouseDragging) && wm.input.dragWindow == old(wm.input.dragWindow)
    ensures ev.Some? && ev.value.MotionNotify? && !(wm.input.mouseDragging && wm.input.dragWindow in wm.registry.clients) ==>
      wm.DragState() == old(wm.DragState()) && wm.out.sent == old(wm.out.sent) &&
      forall v | v in wm.registry.clients.Values :: v.x == old(v.x) && v.y == old(v.y)
    ensures ev.Some? && ev.value.MotionNotify? && wm.input.mouseDragging && wm.input.dragWindow in wm.registry.clients ==>
      var c := wm.registry.clients[wm.input.dragWindow];
      c.x == old(c.x) + (ev.value.xRoot - old(wm.input.dragStartX)) &&
      c.y == old(c.y) + (ev.value.yRoot - old(wm.input.dragStartY)) &&
      wm.input.dragStartX == ev.value.xRoot && wm.input.dragStartY == ev.value.yRoot &&
      wm.out.sent == old(wm.out.sent) + [MoveWindow(wm.input.dragWindow, c.x, c.y)] &&
      forall v | v in wm.registry.clients.Values && v.window != wm.input.dragWindow :: v.x == old(v.x) && v.y == old(v.y)
    ensures ev.Some? && ev.value.ButtonRelease? ==>
      wm.out.sent == old(wm.out.sent) &&
      wm.input.mouseDragging == (if ev.value.button == BUTTON1 then false else old(wm.input.mouseDragging)) &&
      wm.input.dragWindow == old(wm.input.dragWindow) &&
      wm.input.dragStartX == old(wm.input.dragStartX) && wm.input.dragStartY == old(wm.input.dragStartY)
    ensures ev.Some? && ev.value.PropertyNotify? ==>
      wm.out.sent == old(wm.out.sent) +
        (if TitleAtom(wm.atoms, ev.value.atom) && ev.value.window in wm.registry.clients
         then [UpdateClientTitle(ev.value.window)] else [])
    ensures ev.Some? && ev.value.ClientMessage? ==>
      wm.out.sent == old(wm.out.sent) +
        (if ev.value.messageType == wm.atoms.wmProtocols && ev.value.data0 == wm.atoms.wmDeleteWindow &&
            ev.value.window in wm.registry.clients
         then [CloseClient(ev.value.window)] else [])
    ensures ev.Some? && ev.value.EnterNotify? ==>
      wm.out.sent == old(wm.out.sent) +
        (if ev.value.mode == NOTIFY_NORMAL && ev.value.window in wm.registry.clients then [FocusClient(ev.value.window)] else [])
    ensures ev.Some? && ev.value.FocusIn? ==>
      wm.out.sent == old(wm.out.sent) && wm.registry.clients == old(wm.registry.clients) &&
      wm.registry.focused == (if ev.value.window in wm.registry.clients then Some(ev.value.window) else old(wm.registry.focused))
    ensures ev.Some? && ev.value.Other? ==>
      wm.out.sent == old(wm.out.sent) +
        (if ScreenChangeFires(ev.value.code, wm.randrEventBase) then [UpdateDisplays, RenderWallpaper] else [])
  {
    if ev.None? {
      return;
    }
    if PointerEvent(ev.value) {
      HandlePointerEvent(wm, ev.value);
    } else {
      HandleWindowEvent(wm, ev.value);
    }
  }
}
