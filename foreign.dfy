/**
 * The vocabulary shared by every component: X11 handles and masks, the
 * events the X server delivers, and the calls the program makes into code
 * that is not part of this model (Xlib, GTK, ALSA, libnotify, sd-bus, the
 * process spawner). Each such call is recorded as a `Call` value in the
 * ghost log of an `Outbox`, so that contracts can say exactly which calls an
 * operation makes and in which order.
 */
module Foreign {

  type Window = nat   // an X resource id; 0 is `None`
  type Atom = nat
  type KeySym = nat
  type Mask = bv32    // an `unsigned int` modifier or event mask

  const NONE: Window := 0

  // Modifier masks and buttons (X11/X.h)
  const SHIFT_MASK: Mask := 1
  const MOD1_MASK: Mask := 8
  const BUTTON1: nat := 1
  const BUTTON3: nat := 3

  // Crossing-event mode (X11/X.h)
  const NOTIFY_NORMAL: int := 0

  // Predefined atoms (X11/Xatom.h)
  const XA_ATOM: Atom := 4
  const XA_WINDOW: Atom := 33
  const XA_WM_NAME: Atom := 39

  // Key symbols (X11/keysymdef.h)
  const XK_TAB: KeySym := 0xff09
  const XK_F4: KeySym := 0xffc1
  const XK_F11: KeySym := 0xffc8
  const XK_LOWER_F: KeySym := 0x66
  const XK_LOWER_Q: KeySym := 0x71

  // Event masks (X11/X.h)
  const BUTTON_PRESS_MASK: int := 4
  const BUTTON_RELEASE_MASK: int := 8
  const POINTER_MOTION_MASK: int := 64
  const SUBSTRUCTURE_NOTIFY_MASK: int := 0x80000
  const SUBSTRUCTURE_REDIRECT_MASK: int := 0x100000

  /** The RandR screen-change event number, relative to the extension's event base. */
  const RR_SCREEN_CHANGE_NOTIFY: int := 0

  /** The fields of an XConfigureRequestEvent the window manager reads. */
  datatype ConfigureReq = ConfigureReq(
    window: Window, x: int, y: int, width: int, height: int,
    borderWidth: int, above: Window, detail: int, valueMask: int)

  /** XWindowChanges, the argument of XConfigureWindow. */
  datatype WindowChanges = WindowChanges(
    x: int, y: int, width: int, height: int,
    borderWidth: int, sibling: Window, stackMode: int)

  /**
   * An XEvent, reduced to the fields the program reads. Answers to the
   * queries a handler makes while processing an event travel with it:
   * `queryOk`/`overrideRedirect` are the result of XGetWindowAttributes on the
   * mapped window, and `keysym` is the level-0 key symbol of the pressed key
   * code.
   */
  datatype Event =
    | MapRequest(window: Window, queryOk: bool, overrideRedirect: bool)
    | UnmapNotify(event: Window, window: Window)
    | ConfigureRequest(req: ConfigureReq)
    | KeyPress(keysym: KeySym, state: Mask)
    | ButtonPress(button: nat, state: Mask, subwindow: Window, xRoot: int, yRoot: int)
    | MotionNotify(xRoot: int, yRoot: int)
    | ButtonRelease(button: nat)
    | PropertyNotify(window: Window, atom: Atom)
    | ClientMessage(window: Window, messageType: Atom, format: int, data0: int)
    | DestroyNotify(window: Window)
    | EnterNotify(window: Window, mode: int)
    | FocusIn(window: Window)
    | ConfigureNotify
    | ReparentNotify
    | Other(code: int)   // any other event type, by its number

  /** A ClientMessage the program sends with XSendEvent. */
  datatype Message = Message(window: Window, messageType: Atom, format: int, data: seq<int>)

  datatype Call =
    // Xlib requests
    | MapWindow(w: Window)
    | ConfigureWindow(w: Window, valueMask: int, changes: WindowChanges)
    | RaiseWindow(w: Window)
    | MoveWindow(w: Window, x: int, y: int)
    | ResizeWindow(w: Window, width: nat, height: nat)
    | StoreName(w: Window, name: string)
    | CreateSimpleWindow(parent: Window, x: int, y: int, width: nat, height: nat)
    | DestroyWindow(w: Window)
    | SetInputFocus(w: Window)
    | IconifyWindow(w: Window)
    | UngrabAllKeys
    | GrabKey(keysym: KeySym, modifiers: Mask)
    | UngrabAllButtons
    | GrabButton(button: nat, modifiers: Mask)
    | ChangeProperty(w: Window, property: Atom, propertyType: Atom, format: int, data: seq<int>)
    | DeleteProperty(w: Window, property: Atom)
    | SendEvent(destination: Window, eventMask: int, message: Message)
    | Flush
    // calls into window-manager code whose body is not part of the model
    | FocusClient(w: Window)
    | CloseClient(w: Window)
    | UpdateClientTitle(w: Window)
    // keybinding callbacks, also outside the model
    | FocusNext
    | CycleFocus
    | CloseFocused
    | ToggleFullscreenFocused
    | UpdateDisplays
    | RenderWallpaper
    // libnotify
    | NotifyShow(handle: nat, summary: string, body: string, timeout: int)
    | NotifyClose(handle: nat)
    | NotifyUninit
    // sd-bus (systemd-logind)
    | SetBrightness(output: string, level: int)
    // ALSA
    | MixerClose
    | SetPlaybackVolume(level: int)
    // processes and files
    | Terminate(pid: int)               // kill(pid, SIGTERM) then waitpid
    | Unlink(path: string)
    | CloseDisplay(display: string)     // XCloseDisplay of a display that could be opened
    | StartXephyr(display: string)      // fork and exec of the nested X server
    | SetDisplayEnv(display: string)    // setenv("DISPLAY", ...)
    // glib / GTK
    | Spawn(command: string)
    | ErrorDialog(text: string)
    | Beep
    | PlayEventSound
    | PrintTriggered(description: string)
    | PrintAdded(description: string, time: int)   // g_print of the new event and its ctime

  /** The ghost record of every call the program has made so far. */
  class Outbox {
    ghost var sent: seq<Call>

    constructor ()
      ensures sent == []
    {
      sent := [];
    }
  }
}
