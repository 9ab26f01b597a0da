/**
 * The window manager's own event dispatcher and start-up grabs
 * (CanopyWM/src/wm.c, CanopyWM/include/wm.h). The global `wm` record becomes
 * a `WindowManager` object; the registry and the input dispatcher it drives
 * are the objects of the Registry and Input modules.
 */
module WindowManagement {
  import opened Wrappers
  import opened Foreign
  import opened Clients
  import opened Registry
  import opened Input
  import opened Geometry

  /** The interned atoms the handlers compare against. */
  datatype Atoms = Atoms(wmProtocols: Atom, wmDeleteWindow: Atom, netWmName: Atom)

  /** XGetModifierMapping's answer: `maxKeypermod` key codes for each of the 8 modifiers. */
  datatype ModifierMap = ModifierMap(maxKeypermod: nat, keycodes: seq<nat>)

  predicate WellFormed(m: ModifierMap) {
    |m.keycodes| == 8 * m.maxKeypermod
  }

  /** The single-bit masks of the 8 modifiers, Shift (bit 0) to Mod5 (bit 7). */
  const ModifierBits: set<Mask> := {1, 2, 4, 8, 16, 32, 64, 128}

  /** `1 << k`, the mask of modifier `k`. */
  function Bit(k: nat): Mask
    requires k < 8
  {
    [1, 2, 4, 8, 16, 32, 64, 128][k]
  }

  /** The last slot of the modifier map holding key code `target`, if any. */
  function LastSlot(entries: seq<nat>, target: nat): (r: Option<nat>)
    ensures r.Some? ==> r.value < |entries| && entries[r.value] == target
    ensures r.None? ==> target !in entries
  {
    if entries == [] then None
    else if entries[|entries| - 1] == target then Some(|entries| - 1)
    else LastSlot(entries[..|entries| - 1], target)
  }

  /** No slot after the one LastSlot reports holds the target: later slots overwrite earlier ones. */
  lemma {:induction false} LastSlotIsLast(entries: seq<nat>, target: nat, j: nat)
    requires LastSlot(entries, target).Some? && LastSlot(entries, target).value < j < |entries|
    ensures entries[j] != target
  {
    var last := |entries| - 1;
    if entries[last] != target && j < last {
      LastSlotIsLast(entries[..last], target, j);
    }
  }

  /**
   * The slot that decides a lock's mask: its last slot, unless an earlier
   * branch of the if-chain claims the same key code.
   */
  function EffectiveSlot(entries: seq<nat>, target: nat, earlier: set<nat>): Option<nat> {
    if target in earlier then None else LastSlot(entries, target)
  }

  lemma {:induction false} LastSlotStep(entries: seq<nat>, i: nat, target: nat)
    requires i < |entries|
    ensures LastSlot(entries[..i + 1], target) ==
      if entries[i] == target then Some(i) else LastSlot(entries[..i], target)
  {
    assert entries[..i + 1][..i] == entries[..i];
  }

  /** The mask a lock gets from the slot found for it: that slot's modifier bit, or `init`. */
  function LockMask(slot: Option<nat>, perMod: nat, init: Mask): Mask
    requires 0 < perMod && (slot.Some? ==> slot.value < 8 * perMod)
  {
    if slot.None? then init
    else
      DivBelow(slot.value, perMod);
      Bit(slot.value / perMod)
  }

  /**
   * A lock's mask after the scan, starting from 0 as wm_init does: 0 exactly
   * when no slot claims the lock's key code, and otherwise the single bit of
   * the modifier that slot belongs to.
   */
  lemma {:induction false} LockMaskIsModifier(keycodes: seq<nat>, perMod: nat, target: nat, earlier: set<nat>)
    requires 0 < perMod && |keycodes| <= 8 * perMod
    ensures var slot := EffectiveSlot(keycodes, target, earlier);
      var m := LockMask(slot, perMod, 0);
      (m == 0 <==> slot.None?) && (slot.Some? ==> m in ModifierBits && m == Bit(slot.value / perMod))
  {
    var slot := EffectiveSlot(keycodes, target, earlier);
    if slot.Some? {
      DivBelow(slot.value, perMod);
      var k := slot.value / perMod;
      assert Bit(k) in ModifierBits && Bit(k) != 0 by {
        assert k == 0 || k == 1 || k == 2 || k == 3 || k == 4 || k == 5 || k == 6 || k == 7;
      }
    }
  }

  /** Scanning slot `i` moves a lock's mask from the first `i` slots' value to the first `i + 1`'s. */
  lemma {:induction false} MaskStep(entries: seq<nat>, i: nat, perMod: nat, target: nat, earlier: set<nat>,
                                    before: Mask, after: Mask, init: Mask)
    requires 0 < perMod && i < |entries| <= 8 * perMod
    requires before == LockMask(EffectiveSlot(entries[..i], target, earlier), perMod, init)
    requires i / perMod < 8
    requires after == if entries[i] == target && target !in earlier then Bit(i / perMod) else before
    ensures after == LockMask(EffectiveSlot(entries[..i + 1], target, earlier), perMod, init)
  {
    LastSlotStep(entries, i, target);
  }

  lemma {:induction false} DivBelow(i: nat, perMod: nat)
    requires 0 < perMod && i < 8 * perMod
    ensures i / perMod < 8
  {
  }

  /** A lock combination with Alt added. */
  function WithAlt(lock: Mask): (m: Mask)
    ensures m & MOD1_MASK == MOD1_MASK
  {
    MOD1_MASK | lock
  }

  /** One grab of `key` with Alt per lock combination, in order. */
  function KeyGrabs(key: KeySym, locks: seq<Mask>): (r: seq<Call>)
    ensures |r| == |locks|
  {
    if locks == [] then []
    else KeyGrabs(key, locks[..|locks| - 1]) + [GrabKey(key, WithAlt(locks[|locks| - 1]))]
  }

  /** The i-th key grab is for the i-th lock combination. */
  lemma {:induction false} KeyGrabsAt(key: KeySym, locks: seq<Mask>, i: nat)
    requires i < |locks|
    ensures KeyGrabs(key, locks)[i] == GrabKey(key, WithAlt(locks[i]))
  {
    var last := |locks| - 1;
    if i < last {
      KeyGrabsAt(key, locks[..last], i);
    }
  }

  /** One grab of `button` with Alt per lock combination, in order. */
  function ButtonGrabs(button: nat, locks: seq<Mask>): (r: seq<Call>)
    ensures |r| == |locks|
  {
    if locks == [] then []
    else ButtonGrabs(button, locks[..|locks| - 1]) + [GrabButton(button, WithAlt(locks[|locks| - 1]))]
  }

  /** The i-th button grab is for the i-th lock combination. */
  lemma {:induction false} ButtonGrabsAt(button: nat, locks: seq<Mask>, i: nat)
    requires i < |locks|
    ensures ButtonGrabs(button, locks)[i] == GrabButton(button, WithAlt(locks[i]))
  {
    var last := |locks| - 1;
    if i < last {
      ButtonGrabsAt(button, locks[..last], i);
    }
  }

  /** The calls wm_grab_keys makes: Alt+Tab and Alt+F4 under every lock combination. */
  function KeyGrabCalls(locks: seq<Mask>): (r: seq<Call>)
    ensures |r| == 1 + 2 * |locks|
  {
    [UngrabAllKeys] + KeyGrabs(XK_TAB, locks) + KeyGrabs(XK_F4, locks)
  }

  /** The calls wm_grab_buttons makes: Alt+Button1 and Alt+Button3 under every lock combination. */
  function ButtonGrabCalls(locks: seq<Mask>): (r: seq<Call>)
    ensures |r| == 1 + 2 * |locks|
  {
    [UngrabAllButtons] + ButtonGrabs(BUTTON1, locks) + ButtonGrabs(BUTTON3, locks)
  }

  /** The lock-key combinations every grab is repeated for: none, Caps, Num, and both. */
  function LockCombos(caps: Mask, num: Mask): (mods: seq<Mask>)
    ensures |mods| == 4 && mods[0] == 0
  {
    [0, caps, num, caps | num]
  }

  /** The event types wm_handle_event hands to a handler. */
  predicate Routed(ev: Event) {
    ev.MapRequest? || ev.ConfigureRequest? || ev.PropertyNotify? || ev.ClientMessage? ||
    ev.DestroyNotify? || ev.EnterNotify? || ev.ButtonPress? || ev.KeyPress?
  }

  class WindowManager {
    const out: Outbox
    const registry: ClientManager
    const input: InputManager
    const root: Window
    const atoms: Atoms
    var desktopWidth: int
    var desktopHeight: int
    var randrEventBase: int
    var numLockMask: Mask
    var scrollLockMask: Mask
    var capsLockMask: Mask
    var running: bool
    var focusedWindow: Window

    ghost predicate Valid()
      reads this, registry, input
    {
      registry.Valid() && input.Valid()
    }

    /** What the registry holds: the managed windows with their records, and the focus. */
    ghost function RegistryState(): (map<Window, Client>, Option<Window>)
      reads registry
    {
      (registry.clients, registry.focused)
    }

    /** The drag state of the input dispatcher. */
    ghost function DragState(): (bool, Window, int, int)
      reads input
    {
      (input.mouseDragging, input.dragWindow, input.dragStartX, input.dragStartY)
    }

    /**
     * wm_init, from the point the display is open: the desktop size is the
     * screen size, the lock masks are read from the modifier map, RandR's
     * event base is -1 when the extension is missing, and the global key
     * and button grabs are installed. The desktop window, the Cairo
     * surfaces and the system-bus connection are not part of the model.
     */
    constructor Init(out: Outbox, registry: ClientManager, input: InputManager, root: Window, atoms: Atoms,
                     screenWidth: int, screenHeight: int, randrBase: Option<int>,
                     modmap: Option<ModifierMap>, numLock: nat, scrollLock: nat, capsLock: nat)
      modifies out
      requires registry.Valid() && input.Valid()
      requires modmap.Some? ==> WellFormed(modmap.value)
      ensures Valid()
      ensures this.out == out && this.registry == registry && this.input == input
      ensures this.root == root && this.atoms == atoms
      ensures desktopWidth == screenWidth && desktopHeight == screenHeight
      ensures randrEventBase == if randrBase.Some? then randrBase.value else -1
      ensures running && focusedWindow == NONE
      ensures modmap.None? || modmap.value.maxKeypermod == 0 ==>
        numLockMask == 0 && scrollLockMask == 0 && capsLockMask == 0
      ensures modmap.Some? && modmap.value.maxKeypermod > 0 ==>
        Scanned(modmap.value.keycodes, modmap.value.maxKeypermod, numLock, scrollLock, capsLock, 0, 0, 0)
      ensures out.sent == old(out.sent) + KeyGrabCalls(LockCombos(capsLockMask, numLockMask)) +
        ButtonGrabCalls(LockCombos(capsLockMask, numLockMask))
    {
      this.out := out;
      this.registry := registry;
      this.input := input;
      this.root := root;
      this.atoms := atoms;
      desktopWidth := screenWidth;
      desktopHeight := screenHeight;
      numLockMask := 0;
      scrollLockMask := 0;
      capsLockMask := 0;
      randrEventBase := if randrBase.Some? then randrBase.value else -1;
      running := true;
      focusedWindow := NONE;
      new;
      InitMasks(modmap, numLock, scrollLock, capsLock);
      GrabKeys();
      GrabButtons();
    }

    /**
     * wm_init_masks: every modifier-map slot holding a lock key's code sets
     * that lock's mask to the slot's modifier bit; the if-chain gives Num
     * Lock precedence over Scroll Lock over Caps Lock, and a later slot
     * overwrites an earlier one. No map, or an empty one, changes nothing.
     */
    method InitMasks(modmap: Option<ModifierMap>, numLock: nat, scrollLock: nat, capsLock: nat)
      modifies this`numLockMask, this`scrollLockMask, this`capsLockMask
      requires modmap.Some? ==> WellFormed(modmap.value)
      ensures modmap.None? || modmap.value.maxKeypermod == 0 ==>
        numLockMask == old(numLockMask) && scrollLockMask == old(scrollLockMask) && capsLockMask == old(capsLockMask)
      ensures modmap.Some? && modmap.value.maxKeypermod > 0 ==>
        Scanned(modmap.value.keycodes, modmap.value.maxKeypermod, numLock, scrollLock, capsLock,
                old(numLockMask), old(scrollLockMask), old(capsLockMask))
    {
      if modmap.Some? && modmap.value.maxKeypermod > 0 {
        ScanMap(modmap.value.keycodes, modmap.value.maxKeypermod, numLock, scrollLock, capsLock);
      }
    }

    /**
     * The masks after scanning the slots `keycodes`, starting from
     * `num0`/`scroll0`/`caps0`.
     */
    ghost predicate Scanned(keycodes: seq<nat>, perMod: nat, numLock: nat, scrollLock: nat, capsLock: nat,
                            num0: Mask, scroll0: Mask, caps0: Mask)
      reads this
      requires 0 < perMod && |keycodes| <= 8 * perMod
    {
      numLockMask == LockMask(EffectiveSlot(keycodes, numLock, {}), perMod, num0) &&
      scrollLockMask == LockMask(EffectiveSlot(keycodes, scrollLock, {numLock}), perMod, scroll0) &&
      capsLockMask == LockMask(EffectiveSlot(keycodes, capsLock, {numLock, scrollLock}), perMod, caps0)
    }

    /** The loop of wm_init_masks over the `8 * perMod` slots of a non-empty modifier map. */
    method ScanMap(keycodes: seq<nat>, perMod: nat, numLock: nat, scrollLock: nat, capsLock: nat)
      modifies this`numLockMask, this`scrollLockMask, this`capsLockMask
      requires 0 < perMod && |keycodes| == 8 * perMod
      ensures Scanned(keycodes, perMod, numLock, scrollLock, capsLock,
                      old(numLockMask), old(scrollLockMask), old(capsLockMask))
    {
      ghost var num0, scroll0, caps0 := numLockMask, scrollLockMask, capsLockMask;
      var i := 0;
      while i < 8 * perMod
        invariant 0 <= i <= 8 * perMod
        invariant Scanned(keycodes[..i], perMod, numLock, scrollLock, capsLock, num0, scroll0, caps0)
      {
        DivBelow(i, perMod);
        ScanSlot(keycodes, i, perMod, Bit(i / perMod), numLock, scrollLock, capsLock, num0, scroll0, caps0);
        i := i + 1;
      }
      assert keycodes[..i] == keycodes;
    }

    /** One iteration of wm_init_masks' loop: slot `i` belongs to modifier `i / perMod`. */
    method ScanSlot(keycodes: seq<nat>, i: nat, perMod: nat, bit: Mask, numLock: nat, scrollLock: nat, capsLock: nat,
                    ghost num0: Mask, ghost scroll0: Mask, ghost caps0: Mask)
      modifies this`numLockMask, this`scrollLockMask, this`capsLockMask
      requires 0 < perMod && i < |keycodes| == 8 * perMod
      requires i / perMod < 8 && bit == Bit(i / perMod)
      requires Scanned(keycodes[..i], perMod, numLock, scrollLock, capsLock, num0, scroll0, caps0)
      ensures Scanned(keycodes[..i + 1], perMod, numLock, scrollLock, capsLock, num0, scroll0, caps0)
    {
      var num, scroll, caps := numLockMask, scrollLockMask, capsLockMask;
      if keycodes[i] == numLock {
        num := bit;
      } else if keycodes[i] == scrollLock {
        scroll := bit;
      } else if keycodes[i] == capsLock {
        caps := bit;
      }
      MaskStep(keycodes, i, perMod, numLock, {}, numLockMask, num, num0);
      MaskStep(keycodes, i, perMod, scrollLock, {numLock}, scrollLockMask, scroll, scroll0);
      MaskStep(keycodes, i, perMod, capsLock, {numLock, scrollLock}, capsLockMask, caps, caps0);
      numLockMask, scrollLockMask, capsLockMask := num, scroll, caps;
    }

    /**
     * wm_grab_keys: drop every key grab on the root, then grab Alt+Tab and
     * Alt+F4 under each of the four lock combinations, so the shortcuts
     * work whatever the state of Caps Lock and Num Lock.
     */
    method GrabKeys()
      modifies out
      ensures out.sent == old(out.sent) + KeyGrabCalls(LockCombos(capsLockMask, numLockMask))
    {
      var modifiers := LockCombos(capsLockMask, numLockMask);
      out.sent := out.sent + [UngrabAllKeys];
      GrabKeyUnderLocks(XK_TAB, modifiers);
      GrabKeyUnderLocks(XK_F4, modifiers);
    }

    /** One inner loop of wm_grab_keys: `key` with Alt under each lock combination, in order. */
    method GrabKeyUnderLocks(key: KeySym, locks: seq<Mask>)
      modifies out
      ensures out.sent == old(out.sent) + KeyGrabs(key, locks)
    {
      var i := 0;
      while i < |locks|
        invariant 0 <= i <= |locks|
        invariant out.sent == old(out.sent) + KeyGrabs(key, locks[..i])
      {
        assert locks[..i + 1][..i] == locks[..i];
        out.sent := out.sent + [GrabKey(key, WithAlt(locks[i]))];
        i := i + 1;
      }
      assert locks[..i] == locks;
    }

    /** wm_grab_buttons: the same cross product for Alt+Button1 (move) and Alt+Button3 (resize). */
    method GrabButtons()
      modifies out
      ensures out.sent == old(out.sent) + ButtonGrabCalls(LockCombos(capsLockMask, numLockMask))
    {
      var modifiers := LockCombos(capsLockMask, numLockMask);
      out.sent := out.sent + [UngrabAllButtons];
      GrabButtonUnderLocks(BUTTON1, modifiers);
      GrabButtonUnderLocks(BUTTON3, modifiers);
    }

    /** One inner loop of wm_grab_buttons: `button` with Alt under each lock combination, in order. */
    method GrabButtonUnderLocks(button: nat, locks: seq<Mask>)
      modifies out
      ensures out.sent == old(out.sent) + ButtonGrabs(button, locks)
    {
      var i := 0;
      while i < |locks|
        invariant 0 <= i <= |locks|
        invariant out.sent == old(out.sent) + ButtonGrabs(button, locks[..i])
      {
        assert locks[..i + 1][..i] == locks[..i];
        out.sent := out.sent + [GrabButton(button, WithAlt(locks[i]))];
        i := i + 1;
      }
      assert locks[..i] == locks;
    }

    /**
     * wm_handle_map_request: the attribute query's status is not checked,
     * so only the override-redirect flag decides; a managed window is mapped
     * and then registered.
     */
    method HandleMapRequest(w: Window, overrideRedirect: bool)
      modifies registry, out
      requires Valid()
      ensures Valid()
      ensures registry.focused == old(registry.focused)
      ensures overrideRedirect ==> registry.clients == old(registry.clients) && out.sent == old(out.sent)
      ensures !overrideRedirect ==>
        registry.clients.Keys == old(registry.clients).Keys + {w} &&
        (forall v | v in old(registry.clients) :: registry.clients[v] == old(registry.clients)[v]) &&
        out.sent == old(out.sent) + [MapWindow(w)]
    {
      if !overrideRedirect {
        out.sent := out.sent + [MapWindow(w)];
        registry.Add(w);
      }
    }

    /** wm_handle_configure_request: the request, clamped to the desktop's margins, is applied. */
    method HandleConfigureRequest(req: ConfigureReq)
      modifies out
      ensures out.sent == old(out.sent) + [ConfigureWindow(req.window, req.valueMask, Clamp(req, desktopWidth, desktopHeight))]
    {
      var changes := Clamp(req, desktopWidth, desktopHeight);
      out.sent := out.sent + [ConfigureWindow(req.window, req.valueMask, changes)];
    }

    /** wm_handle_property_notify: only a WM_NAME change on a managed window refreshes its title. */
    method HandlePropertyNotify(w: Window, atom: Atom)
      modifies out
      requires Valid()
      ensures out.sent == old(out.sent) +
        (if atom == XA_WM_NAME && w in registry.clients then [UpdateClientTitle(w)] else [])
    {
      if atom == XA_WM_NAME {
        var c := registry.Find(w);
        if c != null {
          out.sent := out.sent + [UpdateClientTitle(w)];
        }
      }
    }

    /**
     * wm_handle_client_message: a WM_PROTOCOLS message whose first datum is
     * WM_DELETE_WINDOW asks to close a managed window (section 4.2.8.1 of
     * the ICCCM); every other message is ignored.
     */
    method HandleClientMessage(w: Window, messageType: Atom, data0: int)
      modifies out
      requires Valid()
      ensures out.sent == old(out.sent) +
        (if messageType == atoms.wmProtocols && data0 == atoms.wmDeleteWindow && w in registry.clients
         then [CloseClient(w)] else [])
    {
      if messageType == atoms.wmProtocols && data0 == atoms.wmDeleteWindow {
        var c := registry.Find(w);
        if c != null {
          out.sent := out.sent + [CloseClient(w)];
        }
      }
    }

    /** wm_handle_destroy_notify: a destroyed window is no longer managed. */
    method HandleDestroyNotify(w: Window)
      modifies registry
      requires Valid()
      ensures Valid()
      ensures registry.clients == old(registry.clients) - {w}
      ensures registry.focused == if old(registry.focused) == Some(w) then None else old(registry.focused)
    {
      registry.Remove(w);
    }

    /** wm_handle_enter_notify: focus follows the pointer, for ordinary crossings into managed windows. */
    method HandleEnterNotify(w: Window, mode: int)
      modifies out
      requires Valid()
      ensures out.sent == old(out.sent) +
        (if mode == NOTIFY_NORMAL && w in registry.clients then [FocusClient(w)] else [])
    {
      if mode == NOTIFY_NORMAL {
        var c := registry.Find(w);
        if c != null {
          out.sent := out.sent + [FocusClient(w)];
        }
      }
    }

    /**
     * wm_handle_event: exactly the eight routed event types reach a
     * handler; every other event (UnmapNotify, MotionNotify, ButtonRelease
     * and FocusIn among them) changes nothing and sends nothing.
     */
    method HandleEvent(ev: Event)
      modifies out, registry, input`mouseDragging, input`dragWindow, input`dragStartX, input`dragStartY
      requires Valid()
      ensures Valid()
      ensures !Routed(ev) ==>
        out.sent == old(out.sent) && RegistryState() == old(RegistryState()) && DragState() == old(DragState())
      ensures !ev.ButtonPress? ==> DragState() == old(DragState())
      ensures !(ev.MapRequest? || ev.DestroyNotify?) ==> RegistryState() == old(RegistryState())
      ensures ev.MapRequest? ==> registry.focused == old(registry.focused)
      ensures ev.MapRequest? && ev.overrideRedirect ==>
        registry.clients == old(registry.clients) && out.sent == old(out.sent)
      ensures ev.MapRequest? && !ev.overrideRedirect ==>
        registry.clients.Keys == old(registry.clients).Keys + {ev.window} &&
        (forall v | v in old(registry.clients) :: registry.clients[v] == old(registry.clients)[v]) &&
        out.sent == old(out.sent) + [MapWindow(ev.window)]
      ensures ev.ConfigureRequest? ==>
        out.sent == old(out.sent) + [ConfigureWindow(ev.req.window, ev.req.valueMask, Clamp(ev.req, desktopWidth, desktopHeight))]
      ensures ev.PropertyNotify? ==>
        out.sent == old(out.sent) +
        (if ev.atom == XA_WM_NAME && ev.window in registry.clients then [UpdateClientTitle(ev.window)] else [])
      ensures ev.ClientMessage? ==>
        out.sent == old(out.sent) +
        (if ev.messageType == atoms.wmProtocols && ev.data0 == atoms.wmDeleteWindow && ev.window in registry.clients
         then [CloseClient(ev.window)] else [])
      ensures ev.DestroyNotify? ==>
        out.sent == old(out.sent) && registry.clients == old(registry.clients) - {ev.window} &&
        registry.focused == (if old(registry.focused) == Some(ev.window) then None else old(registry.focused))
      ensures ev.EnterNotify? ==>
        out.sent == old(out.sent) +
        (if ev.mode == NOTIFY_NORMAL && ev.window in registry.clients then [FocusClient(ev.window)] else [])
      ensures ev.ButtonPress? && ev.subwindow != NONE && ev.button == BUTTON1 && ev.state & MOD1_MASK != 0 ==>
        DragState() == (true, ev.subwindow, ev.xRoot, ev.yRoot) &&
        out.sent == old(out.sent) + [RaiseWindow(ev.subwindow)]
      ensures ev.ButtonPress? && !(ev.subwindow != NONE && ev.button == BUTTON1 && ev.state & MOD1_MASK != 0) ==>
        DragState() == old(DragState()) && out.sent == old(out.sent)
      ensures ev.KeyPress? ==> out.sent == old(out.sent) + Fired(input.Bindings(), ev.keysym, ev.state)
    {
      match ev
      case MapRequest(w, _, overrideRedirect) => HandleMapRequest(w, overrideRedirect);
      case ConfigureRequest(req) => HandleConfigureRequest(req);
      case PropertyNotify(w, atom) => HandlePropertyNotify(w, atom);
      case ClientMessage(w, messageType, _, data0) => HandleClientMessage(w, messageType, data0);
      case DestroyNotify(w) => HandleDestroyNotify(w);
      case EnterNotify(w, mode) => HandleEnterNotify(w, mode);
      case ButtonPress(button, state, subwindow, xRoot, yRoot) =>
        input.HandleButton(button, state, subwindow, xRoot, yRoot, out);
      case KeyPress(keysym, state) => input.HandleKey(keysym, state, out);
      case _ =>
    }
  }
}
