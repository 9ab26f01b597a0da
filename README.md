# CanopyWM and CanopyDE in Dafny

A model of the logic at the core of CanopyWM, an X11 window manager, and of
CanopyDE, the GTK desktop shell that runs under it. Every call into Xlib,
GTK, ALSA, libnotify, UPower, NetworkManager, sd-bus or the operating system
becomes a value of the `Call` datatype (foreign.dfy). The call is appended to
the ghost log `Outbox.sent`, so a contract can say exactly which requests a
handler sends and in what order. The answers to queries become parameters
of the modelled operation. Examples are an attribute query that may fail, a
window name, `time(NULL)`, `access(path, X_OK)`, a spawn that may fail, and
the devices UPower or NetworkManager report.

One module models each source file:

- **Window manager** (`WindowManagement`, wm.c)
  - the lock-modifier scan of the modifier map;
  - the key and button grabs under every lock combination;
  - the configure clamp against the panel margins (`Geometry`);
  - the dispatcher `wm_handle_event` and its handlers.
- **Second dispatcher** (`Events`, events.c): `handle_event`. It is kept apart from `wm_handle_event`, whose rules differ:
  - configure requests are forwarded without the clamp;
  - unmap, motion, release, focus-in and RandR events are handled.
- **Input** (`Input`, input.c): the growable keybinding table with first-match dispatch, and the Alt-drag state machine.
- **Clients** (`Clients`, client.c): the client record.
- **Client registry** (`Registry`): specified abstractly. Only its call sites are part of the source.
- **Peer handshake** (`PeerInterface`, wm_interface.c): the ready flag and acknowledgements.
- **Notifications** (`Notifications`, notifications.c): the 32-slot notification buffer.
- **Display table** (`DisplayManagement`, display_manager.c): the table of connected outputs.
- **INI reader** (`Ini`, ini.c), modelled on a NUL-terminated character buffer.
- **Mixer level** (`Audio`, audio.c).
- **Front end** (`Session`, main.c):
  - argument parsing;
  - the search for the desktop environment;
  - the lockfile name;
  - the debug display search;
  - the supervision loop's flags.
- **Desktop shell:**
  - the taskbar (`Taskbar`);
  - the application menu (`AppMenu`);
  - the clock and calendar (`Calendar`);
  - the volume, battery and network widgets (`Volume`, `Battery`, `Network`).

C arithmetic is written out:
- `CInt.CDiv` is C's truncating division;
- `DisplayManagement.U32` is the conversion to `unsigned int`;
- `Session.Snprintf` is truncation to a buffer.

Behaviours of the code as written that the model keeps, with the lemma that states each:

- **Configure clamp** (`Geometry.Clamp`). The clamp to the right and bottom runs after the clamp to the left and top. So a window wider than the usable area ends up left of the margin.
- **RandR test in events.c** (`Events.ScreenChangeNeedsZeroBase`). The RandR case of `handle_event` selects on the event type itself, then also asks that the type minus the extension's event base be the same code. It therefore fires only when the event base is 0.
- **Display hit test** (`DisplayManagement.HitMissesNegative`). `display_get_at` compares `x` against `d->x + d->width`, which has type `unsigned int`. A display left of or above the origin therefore misses points it covers.
- **INI names** (`Ini.PairShape`). The INI reader never writes a NUL over the `=`. So the name a handler receives runs on to the end of the value, and the value is a suffix of it.
- **Taskbar flags** (`Taskbar.ActiveIsCurrent`). An entry is active only for the active window. An entry added after its window became active stays inactive, so only one direction of that relation is kept.
- **Mixer level** (`Audio.LevelUnclamped`). `audio_set_volume` does not clamp its argument.

## Model

| member | source | states |
|---|---|---|
| Geometry.ClampAxis | CanopyWM/src/wm.c:248-257 | one axis of the clamp: the far edge always ends within the high margin, the near edge reaches the low margin exactly when the window fits, an in-range position is kept, and the result is the position or one of the two margins |
| Geometry.Clamp | CanopyWM/src/wm.c:236-267 | width, height, border width, sibling and stack mode pass through; the right and bottom edges always end inside the margins; the left and top edges do exactly when the window fits |
| Geometry.ClampKeepsInside | CanopyWM/src/wm.c:248-257 | a request already inside the margins is placed where it asked |
| Geometry.ClampIdempotent | CanopyWM/src/wm.c:248-257 | clamping an already clamped placement changes nothing |
| Geometry.AxisIdempotent | CanopyWM/src/wm.c:248-251 | the one-axis clamp is idempotent |
| WindowManagement.LockMaskIsModifier | CanopyWM/src/wm.c:55-62 | starting from 0, a lock's scanned mask is 0 exactly when no slot claims its keycode, and otherwise the single modifier bit `1 << (slot / max_keypermod)` of the claiming slot, one of the eight modifier masks |
| WindowManagement.LastSlot | CanopyWM/src/wm.c:55-62 | the last modifier-map slot holding a keycode, or none when the keycode is absent |
| WindowManagement.LastSlotIsLast | CanopyWM/src/wm.c:55-62 | no later slot holds that keycode, so later entries overwrite earlier ones |
| WindowManagement.WindowManager.InitMasks | CanopyWM/src/wm.c:48-66 | without a modifier map, or with zero keys per modifier, the masks keep their values; otherwise each lock mask becomes the bit of the last slot holding its keycode, and keeps its value when no slot does; when two lock keys share a keycode, the else-if order gives it to Num Lock before Scroll Lock before Caps Lock |
| WindowManagement.WindowManager.ScanMap | CanopyWM/src/wm.c:55-62 | the scan loop leaves each mask as the specification of the whole map says |
| WindowManagement.WithAlt | CanopyWM/src/wm.c:324 | every grab modifier includes Mod1 |
| WindowManagement.LockCombos | CanopyWM/src/wm.c:318-319 | four lock combinations, the first being no lock |
| WindowManagement.KeyGrabs | CanopyWM/src/wm.c:323-326 | one grab per lock combination |
| WindowManagement.KeyGrabsAt | CanopyWM/src/wm.c:323-326 | grab i is the key with Mod1 OR lock combination i |
| WindowManagement.ButtonGrabs | CanopyWM/src/wm.c:341-345 | one grab per lock combination |
| WindowManagement.ButtonGrabsAt | CanopyWM/src/wm.c:341-345 | grab i is the button with Mod1 OR lock combination i |
| WindowManagement.KeyGrabCalls | CanopyWM/src/wm.c:316-333 | an ungrab followed by 4 grabs for Tab and 4 for F4 |
| WindowManagement.ButtonGrabCalls | CanopyWM/src/wm.c:336-352 | an ungrab followed by 4 grabs for Button1 and 4 for Button3 |
| WindowManagement.WindowManager.GrabKeys | CanopyWM/src/wm.c:316-333 | sends exactly the key ungrab and grabs over the current lock masks |
| WindowManagement.WindowManager.GrabKeyUnderLocks | CanopyWM/src/wm.c:323-326 | the grab loop for one key sends one grab per lock combination, in order |
| WindowManagement.WindowManager.GrabButtons | CanopyWM/src/wm.c:336-352 | sends exactly the button ungrab and grabs over the current lock masks |
| WindowManagement.WindowManager.GrabButtonUnderLocks | CanopyWM/src/wm.c:341-345 | the grab loop for one button sends one grab per lock combination, in order |
| WindowManagement.WindowManager.Init | CanopyWM/src/wm.c:69-146 | records the root, atoms and desktop size; the RandR event base, or -1 when the extension is missing; running and no focused window; the lock masks start at 0 and are exactly what the modifier-map scan gives from 0, or stay 0 without a map or with an empty one; the grabs of both grab functions over those masks as its requests |
| WindowManagement.WindowManager.HandleMapRequest | CanopyWM/src/wm.c:225-233 | an override-redirect window changes nothing; any other window is mapped and registered, and the clients already registered are kept |
| WindowManagement.WindowManager.HandleConfigureRequest | CanopyWM/src/wm.c:236-267 | sends one configure request with the clamped changes and the request's value mask |
| WindowManagement.WindowManager.HandlePropertyNotify | CanopyWM/src/wm.c:270-277 | a title update only for `WM_NAME` on a managed window, nothing otherwise |
| WindowManagement.WindowManager.HandleClientMessage | CanopyWM/src/wm.c:280-288 | a close only for `WM_PROTOCOLS` whose first datum is `WM_DELETE_WINDOW` on a managed window |
| WindowManagement.WindowManager.HandleDestroyNotify | CanopyWM/src/wm.c:291-293 | the window leaves the registry and focus on it is dropped |
| WindowManagement.WindowManager.HandleEnterNotify | CanopyWM/src/wm.c:296-303 | focus only on a normal-mode enter into a managed window |
| WindowManagement.WindowManager.HandleEvent | CanopyWM/src/wm.c:180-210 | every event outside the eight routed types changes nothing and sends nothing; each routed type has the effect of its handler: a map request maps and registers a non-override-redirect window, a configure request is clamped, WM_NAME refreshes a managed title, WM_DELETE_WINDOW closes a managed window, a destroy unregisters the window, a normal enter focuses a managed window, Alt+Button1 on a subwindow starts a drag and raises it, a key press fires the first matching binding; only map and destroy change the registry and only a button press changes the drag state |
| Events.ForwardAgreesWithClampInside | CanopyWM/src/events.c:39-55 | inside the margins the forwarded request equals the clamped one |
| Events.ForwardIgnoresPanel | CanopyWM/src/events.c:39-55 | a window that fits but asks to sit over the top panel is placed there by `handle_event` and below the panel by the clamp |
| Events.ScreenChangeNeedsZeroBase | CanopyWM/src/events.c:124-129 | the RandR branch fires exactly when the event type is the RandR code and the event base is 0, so never for a positive base |
| Events.OnMapRequest | CanopyWM/src/events.c:16-29 | only a successful attribute query of a window that is not override-redirect maps and registers it |
| Events.OnUnmapNotify | CanopyWM/src/events.c:31-37 | a client is removed only when the unmap is reported on the root |
| Events.OnConfigureRequest | CanopyWM/src/events.c:39-55 | the request is forwarded verbatim, without a clamp |
| Events.OnMotionNotify | CanopyWM/src/events.c:65-70 | a motion while not dragging, or while dragging an unmanaged window, sends nothing and keeps the anchor; otherwise the dragged client moves by the pointer delta and the anchor follows; no other client moves, and no client field besides the position changes |
| Events.OnButtonRelease | CanopyWM/src/events.c:72-76 | dragging ends on a Button1 release only |
| Events.OnPropertyNotify | CanopyWM/src/events.c:78-87 | a title update for `WM_NAME` or `_NET_WM_NAME` on a managed window only |
| Events.OnClientMessage | CanopyWM/src/events.c:89-100 | a close only for `WM_PROTOCOLS` carrying `WM_DELETE_WINDOW` for a managed window |
| Events.OnEnterNotify | CanopyWM/src/events.c:106-114 | focus only on a normal-mode enter into a managed window |
| Events.OnFocusIn | CanopyWM/src/events.c:116-122 | the focused client becomes the window when it is managed and is unchanged otherwise; nothing is sent |
| Events.OnScreenChange | CanopyWM/src/events.c:124-129 | the display table is rebuilt and the wallpaper redrawn exactly when the double test passes |
| Events.HandleEvent | CanopyWM/src/events.c:12-140 | every one of the fifteen cases has its handler's effect: a NULL event and the ConfigureNotify and ReparentNotify cases do nothing; a queried non-override-redirect window is mapped and registered; an unmap on the root and a destroy unregister the window; a configure request is forwarded unclamped; key, button, motion and release events act as the input dispatcher says; WM_NAME or _NET_WM_NAME refreshes a managed title; WM_DELETE_WINDOW closes; a normal enter focuses; FocusIn records the focus; the RandR test refreshes the displays. Client fields other than the position never change, positions change only on motion, the registry only on map, unmap, destroy and FocusIn, and the drag state only on button and motion events |
| Events.HandlePointerEvent | CanopyWM/src/events.c:57-77 | the key, button, motion and release cases: the effect of the input dispatcher on the outbox, the drag state and the dragged client's position |
| Events.HandleWindowEvent | CanopyWM/src/events.c:16-56 | the window cases: map, unmap, configure, property, client message, destroy, enter, FocusIn, RandR and the ignored types, each with its handler's effect on the outbox and the registry |
| Input.FirstMatch | CanopyWM/src/input.c:55-61 | the first binding whose key and modifiers equal the event's, none before it matching, or none at all |
| Input.Fired | CanopyWM/src/input.c:51-62 | at most one callback runs, and none exactly when no binding matches |
| Input.InputManager.Init | CanopyWM/src/input.c:12-34 | capacity 32, no drag, and the four default bindings registered and grabbed in order: Alt+F11, Alt+Tab, Alt+Shift+q, Alt+f |
| Input.InputManager.Register | CanopyWM/src/input.c:94-113 | the binding is appended after the existing ones, which are unchanged; the capacity doubles exactly when the table was full; the key is grabbed with the given modifiers |
| Input.InputManager.FindKeybind | CanopyWM/src/input.c:55-61 | the search loop returns the first match of the table |
| Input.InputManager.HandleKey | CanopyWM/src/input.c:51-62 | the calls made are exactly those of the first matching binding |
| Input.InputManager.HandleButton | CanopyWM/src/input.c:64-76 | an Alt+Button1 press on a subwindow starts a drag anchored at the root coordinates and raises the window; any other press changes nothing |
| Input.InputManager.HandleMotion | CanopyWM/src/input.c:78-92 | no drag or an unmanaged target changes nothing; otherwise the target moves by the pointer's displacement from the anchor, the anchor becomes the pointer, and the offset between window and anchor is kept; no other client moves and no client field besides the position changes |
| Input.InputManager.Drag | CanopyWM/src/input.c:83-90 | over a press and a series of motions the window moves by the last pointer position minus the press position, the anchor ends at the last position, no other client moves, and no client field besides the position changes |
| Clients.Client.Init | CanopyWM/src/client.c:12-22 | the record holds the given window, frame and geometry, with no flags set and no title |
| Clients.Create | CanopyWM/src/client.c:8-25 | a failed allocation gives NULL and creates no frame; otherwise a fresh record with a frame window created at the given geometry |
| Clients.Client.Destroy | CanopyWM/src/client.c:27-33 | the frame window is destroyed |
| Clients.FromWindow | CanopyWM/src/client.c:35-40 | always NULL |
| Clients.Client.SetTitle | CanopyWM/src/client.c:42-46 | the title becomes the new string and is stored on the window |
| Clients.Client.Focus | CanopyWM/src/client.c:48-50 | input focus is set to the client's window |
| Clients.Client.Resize | CanopyWM/src/client.c:52-56 | only width and height change |
| Clients.Client.Move | CanopyWM/src/client.c:58-62 | only x and y change |
| Registry.ClientManager.constructor | CanopyWM/src/main.c:313 | an empty registry with no focused client |
| Registry.ClientManager.Find | CanopyWM/src/wm.c:272 | a client is found exactly for a registered window, and it is that window's client |
| Registry.ClientManager.Add | CanopyWM/src/wm.c:231 | the window becomes registered, the other clients are kept, and the focus is unchanged |
| Registry.ClientManager.Remove | CanopyWM/src/wm.c:292 | the window is unregistered and focus on it is dropped |
| PeerInterface.CountDeReady | CanopyWM/src/wm_interface.c:32-35 | counts the readiness messages, and is zero exactly when there are none |
| PeerInterface.Replies | CanopyWM/src/wm_interface.c:35-51 | two calls per readiness message |
| PeerInterface.OneAckPerMessage | CanopyWM/src/wm_interface.c:35-51 | exactly one acknowledgement per readiness message, and nothing but acknowledgements and flushes |
| PeerInterface.Interface.constructor | CanopyWM/src/wm_interface.c:6-11 | the static record starts zeroed |
| PeerInterface.Interface.Init | CanopyWM/src/wm_interface.c:13-23 | stores the atoms and the root, clears the ready flag, and writes the root id into the WM-ready property |
| PeerInterface.Interface.Cleanup | CanopyWM/src/wm_interface.c:25-29 | the property is deleted only while a display is open |
| PeerInterface.Interface.HandleMessage | CanopyWM/src/wm_interface.c:31-53 | a readiness message sets the flag and sends one acknowledgement and a flush; anything else changes nothing |
| PeerInterface.Interface.IsReady | CanopyWM/src/wm_interface.c:55-57 | reports the flag |
| PeerInterface.Interface.HandleAll | CanopyWM/src/wm_interface.c:31-53 | over a stream of events the flag ends set exactly when it was set or a readiness message came, and the replies are one acknowledgement per message |
| CInt.CDivTruncates | CanopyWM/src/notifications.c:61 | C's `/` divides the magnitudes and applies the sign, so the quotient truncates toward zero |
| CInt.CDivOfNegative | CanopyWM/src/notifications.c:61 | for every negative dividend and positive divisor, C's quotient is the negated quotient of the magnitude: equal to Dafny's when the division is exact, and one more when it is not |
| Notifications.Live | CanopyWM/src/notifications.c:54-77 | the survivors of clearing, never more than the entries |
| Notifications.LiveExactly | CanopyWM/src/notifications.c:61 | an entry survives exactly when it is not expired by the C-division test |
| Notifications.LiveIdempotent | CanopyWM/src/notifications.c:54-77 | clearing twice at the same time removes nothing more |
| Notifications.NotificationManager.constructor | CanopyWM/src/notifications.c:9 | the global record starts empty and uninitialised |
| Notifications.NotificationManager.Init | CanopyWM/src/notifications.c:11-19 | initialised with an empty buffer only when libnotify initialises |
| Notifications.NotificationManager.CloseAll | CanopyWM/src/notifications.c:22-28 | closes exactly the entries that hold a notification object, in order |
| Notifications.NotificationManager.Cleanup | CanopyWM/src/notifications.c:21-33 | all notifications are closed, the buffer emptied, the manager uninitialised and libnotify shut down |
| Notifications.NotificationManager.ClearAll | CanopyWM/src/notifications.c:79-89 | all notifications are closed and the buffer emptied; the initialised flag is kept |
| Notifications.NotificationManager.Show | CanopyWM/src/notifications.c:35-52 | before initialisation or with 32 entries nothing happens; otherwise the entry stamped with `now` is appended and shown |
| Notifications.NotificationManager.ClearExpired | CanopyWM/src/notifications.c:54-77 | the buffer becomes exactly the unexpired entries in their order, and one close is sent per expired entry |
| Notifications.NotificationManager.ClearAt | CanopyWM/src/notifications.c:58-76 | one loop pass: an expired entry is closed and dropped with the index kept; a live one is stepped over |
| Notifications.NotificationManager.ShiftDown | CanopyWM/src/notifications.c:68-72 | the memmove: slot i is dropped and the later entries move up one place |
| DisplayManagement.Connected | CanopyWM/src/display_manager.c:46-68 | the rebuilt table, never longer than the outputs |
| DisplayManagement.ConnectedOnly | CanopyWM/src/display_manager.c:54-64 | every slot comes from a connected output at brightness 100, and every connected output has a slot |
| DisplayManagement.HitIsRect | CanopyWM/src/display_manager.c:74-75 | on non-negative coordinates the C test is the half-open rectangle |
| DisplayManagement.HitMissesNegative | CanopyWM/src/display_manager.c:74-75 | a display left of the origin misses a point it covers |
| DisplayManagement.ClampBrightness | CanopyWM/src/display_manager.c:86-87 | the request clamped to 0..100, an in-range value kept |
| DisplayManagement.DisplayManager.Init | CanopyWM/src/display_manager.c:9-15 | a 16-slot table filled with the connected outputs |
| DisplayManagement.DisplayManager.UpdateAll | CanopyWM/src/display_manager.c:35-69 | the table becomes exactly the connected outputs, in order, at brightness 100 |
| DisplayManagement.DisplayManager.GetAt | CanopyWM/src/display_manager.c:71-80 | the first display whose test holds the point, or none exactly when no display's does |
| DisplayManagement.DisplayManager.SetBrightness | CanopyWM/src/display_manager.c:82-106 | no display or no output information changes nothing; otherwise the clamped value is stored in that slot alone and sent to logind for the output |
| Ini.Nul | CanopyWM/src/ini.c:11 | the position strlen reaches: the first NUL or the end |
| Ini.SkipSpaces | CanopyWM/src/ini.c:17-21 | lskip stops at the first non-space |
| Ini.FindFrom | CanopyWM/src/ini.c:23-27 | find_char_or_comment stops at the character, a comment character or the end |
| Ini.FindFirst | CanopyWM/src/ini.c:23-27 | no earlier position holds any of those |
| Ini.TrimEnd | CanopyWM/src/ini.c:10-15 | rstrip stops after the last non-space |
| Ini.TrimAll | CanopyWM/src/ini.c:10-15 | everything rstrip cuts is whitespace |
| Ini.Truncate | CanopyWM/src/ini.c:50-51 | strncpy into the section buffer keeps a prefix of at most 49 characters |
| Ini.RightStripped | CanopyWM/src/ini.c:10-15 | the line after rstrip has no trailing whitespace |
| Ini.Trimmed | CanopyWM/src/ini.c:42 | the line after rstrip and lskip has neither leading nor trailing whitespace |
| Ini.CommentsSkipped | CanopyWM/src/ini.c:42-44 | blank and comment lines give nothing |
| Ini.SectionShape | CanopyWM/src/ini.c:46-55 | a section name is at most 49 characters taken from after the `[`, and holds no `]` and no comment character |
| Ini.PairShape | CanopyWM/src/ini.c:57-66 | the value has no surrounding whitespace and no comment character; the name is the line from its start, holds the `=`, and ends with the value |
| Ini.Run | CanopyWM/src/ini.c:29-72 | the parse of a stream returns 0 or 1 |
| Ini.RunCallsBounded | CanopyWM/src/ini.c:35-70 | at most one handler call per line |
| Ini.RunStopsAtRefusal | CanopyWM/src/ini.c:68-69 | the result is 0 exactly when the last call was refused, and no earlier call was refused |
| Ini.StrLen | CanopyWM/src/ini.c:11 | strlen on the buffer, as Nul says |
| Ini.LSkipBuf | CanopyWM/src/ini.c:17-21 | the buffer walk of lskip, as SkipSpaces says |
| Ini.FindBuf | CanopyWM/src/ini.c:23-27 | the buffer walk of find_char_or_comment, as FindFrom says |
| Ini.RStripBuf | CanopyWM/src/ini.c:10-15 | rstrip overwrites exactly the trailing whitespace with NULs |
| Ini.NulBack | CanopyWM/src/ini.c:12-13 | the backward loop of rstrip writes NULs from the end down to the last non-space |
| Ini.CopySection | CanopyWM/src/ini.c:50-51 | the section buffer receives the truncated name |
| Ini.ScanLine | CanopyWM/src/ini.c:36-66 | the in-place buffer surgery on one line yields what ParseLine says |
| Ini.ScanSection | CanopyWM/src/ini.c:46-55 | the `[` branch on the buffer, as SectionLine says |
| Ini.ScanKey | CanopyWM/src/ini.c:57-66 | the key branch on the buffer, as KeyLine says |
| Ini.CutComment | CanopyWM/src/ini.c:63-65 | the value is cut at its first comment character |
| Ini.ParseStream | CanopyWM/src/ini.c:29-72 | the line loop makes the calls and returns the result that Run says, starting in the empty section |
| Ini.Parse | CanopyWM/src/ini.c:74-81 | -1 with no calls when the file cannot be opened; otherwise the stream's result |
| Audio.LevelEnds | CanopyWM/src/audio.c:30 | volume 0 gives the minimum and 100 the maximum |
| Audio.LevelInRange | CanopyWM/src/audio.c:30 | a volume in 0..100 gives a level in the range |
| Audio.LevelMonotone | CanopyWM/src/audio.c:30 | the level does not decrease as the volume grows |
| Audio.LevelUnclamped | CanopyWM/src/audio.c:27-31 | volumes outside 0..100 give levels outside the range |
| Audio.AudioManager.constructor | CanopyWM/src/audio.c:4 | the static record starts with no mixer, no element and not muted |
| Audio.AudioManager.Init | CanopyWM/src/audio.c:6-19 | stores the mixer and the Master element, and clears muted |
| Audio.AudioManager.Cleanup | CanopyWM/src/audio.c:20-26 | the mixer is closed only if open; both handles become NULL |
| Audio.AudioManager.SetVolume | CanopyWM/src/audio.c:27-32 | sets the playback volume to the converted level |
| Session.ArgsAppend | CanopyWM/src/main.c:284-295 | the argument loop over a concatenation continues from where the first part left it |
| Session.LastDePathWins | CanopyWM/src/main.c:288-289 | a later `--de-path X` overrides the path and keeps the rest |
| Session.HelpIgnoresRest | CanopyWM/src/main.c:291-294 | after `--help` nothing later matters |
| Session.IgnoredArguments | CanopyWM/src/main.c:284-295 | an argument other than the options, including a trailing `--de-path`, changes nothing |
| Session.ParseArgs | CanopyWM/src/main.c:284-295 | the loop computes the argument specification |
| Session.FirstExecutable | CanopyWM/src/main.c:197-204 | the first executable path, none before it being executable, or none at all |
| Session.FindDesktopEnvironment | CanopyWM/src/main.c:196-205 | the first executable of the four default paths |
| Session.StartUp | CanopyWM/src/main.c:284-303 | `--help` exits with 0; otherwise the given path or the first executable default is launched, and exit 1 when there is neither |
| Session.Snprintf | CanopyWM/src/main.c:97 | at most size - 1 characters, a prefix of the text, the whole text when it fits |
| Session.LockfileOfLocalDisplay | CanopyWM/src/main.c:94-99 | a lockfile exists exactly for a display starting with `:`, and is `/tmp/.X` + the rest + `-lock` |
| Session.CleanupChildren | CanopyWM/src/main.c:82-102 | each child with a positive pid is terminated; the lockfile is removed only after Xephyr and for a local display |
| Session.StaleLocks | CanopyWM/src/main.c:225-229 | one unlink per display 0..9 |
| Session.FirstFree | CanopyWM/src/main.c:231-266 | the first display from n to 9 that cannot be opened, or none |
| Session.Probed | CanopyWM/src/main.c:235-239 | the probe closes again each display 1 .. n-1 it could open, in order |
| Session.StartDebugSession | CanopyWM/src/main.c:223-270 | removes the ten stale locks, closes each display it could open on the way, then starts Xephyr and sets DISPLAY on the first free display; it fails when none is free or fork fails |
| Session.RoundsRun | CanopyWM/src/main.c:333-363 | the loop runs up to and including the first round in which the DE exits |
| Session.Supervisor.constructor | CanopyWM/src/main.c:40 | not loaded, running |
| Session.Supervisor.Round | CanopyWM/src/main.c:341-355 | loaded once 5 seconds have elapsed, never reset; running stops when the DE is reaped |
| Session.Supervisor.Loop | CanopyWM/src/main.c:333-363 | runs the rounds until the DE exits; loaded exactly when it was loaded or some run round had 5 seconds elapsed |
| Taskbar.Find | CanopyDE/src/taskbar.c:40-48 | the first entry of the window, or none exactly when no entry has it |
| Taskbar.AtMostOneActive | CanopyDE/src/taskbar.c:137-157 | with unique windows, at most one entry is active |
| Taskbar.Without | CanopyDE/src/taskbar.c:110-118 | the list without the window's entry, never longer |
| Taskbar.WithoutExactly | CanopyDE/src/taskbar.c:110-118 | removal keeps the windows unique and keeps exactly the other entries |
| Taskbar.Reflagged | CanopyDE/src/taskbar.c:141-156 | each entry reflagged, in place |
| Taskbar.ReflaggedExclusive | CanopyDE/src/taskbar.c:137-157 | after a change of active window exactly the new window's entry is active, and windows and titles are kept |
| Taskbar.TaskbarState.constructor | CanopyDE/src/taskbar.c:15 | no taskbar yet |
| Taskbar.TaskbarState.Create | CanopyDE/src/taskbar.c:61-87 | an empty taskbar with no active window |
| Taskbar.TaskbarState.FindWindow | CanopyDE/src/taskbar.c:40-48 | the search loop returns the first entry of the window |
| Taskbar.TaskbarState.UpdateTitle | CanopyDE/src/taskbar.c:121-134 | only the window's title changes, and only when the name query succeeds |
| Taskbar.TaskbarState.AddWindow | CanopyDE/src/taskbar.c:90-107 | no taskbar or a window already present changes nothing; otherwise one inactive entry is appended; windows stay unique |
| Taskbar.TaskbarState.RemoveWindow | CanopyDE/src/taskbar.c:110-118 | the list loses exactly that window's entry |
| Taskbar.TaskbarState.SetActiveWindow | CanopyDE/src/taskbar.c:137-157 | the active window becomes the window; nothing else changes when it already was; otherwise the old flag is cleared and the new one set |
| Taskbar.TaskbarState.UpdateAll | CanopyDE/src/taskbar.c:160-169 | a NULL bar changes nothing; otherwise each entry's title is refreshed where the query succeeds; windows and flags are kept |
| Taskbar.TaskbarState.Click | CanopyDE/src/taskbar.c:18-37 | an active entry is iconified; an inactive one gets `_NET_ACTIVE_WINDOW` with source 2 and is raised |
| Taskbar.TaskbarState.Cleanup | CanopyDE/src/taskbar.c:172-178 | the taskbar and its list are gone |
| AppMenu.RowOf | CanopyDE/src/widgets/menu_button.c:110-117 | a row stores the command and the terminal flag only for an application with an executable |
| AppMenu.LowerAll | CanopyDE/src/widgets/menu_button.c:141-142 | case folding, character by character |
| AppMenu.FindCI | CanopyDE/src/widgets/menu_button.c:141-142 | strcasestr: the first position holding the needle ignoring case, or none |
| AppMenu.FindCIFinds | CanopyDE/src/widgets/menu_button.c:141-142 | the search succeeds exactly when the text contains the needle ignoring case |
| AppMenu.ContainsIgnoresCase | CanopyDE/src/widgets/menu_button.c:141-142 | the case of the needle does not matter |
| AppMenu.ShownIff | CanopyDE/src/widgets/menu_button.c:140-142 | an application is shown exactly when the search is empty or its name or description contains it ignoring case |
| AppMenu.Matches | CanopyDE/src/widgets/menu_button.c:135-146 | the rows of the shown applications, never more than the applications |
| AppMenu.MatchesExactly | CanopyDE/src/widgets/menu_button.c:135-146 | a row is listed exactly for a shown application, and every application for an empty search |
| AppMenu.CollectFilesHas | CanopyDE/src/widgets/menu_button.c:159-168 | reading a directory adds exactly its kept applications |
| AppMenu.CollectDirsHas | CanopyDE/src/widgets/menu_button.c:154-172 | reading the directories adds exactly the kept applications of those that open |
| AppMenu.Insert | CanopyDE/src/widgets/menu_button.c:174 | insertion keeps the list sorted and adds exactly the one application |
| AppMenu.Sort | CanopyDE/src/widgets/menu_button.c:174 | sorted by the collation rank and a permutation of the input |
| AppMenu.LaunchCommandShape | CanopyDE/src/widgets/menu_button.c:53-60 | a command exists exactly with an executable; a terminal application gets the terminal prefix before its executable; any other runs its executable verbatim |
| AppMenu.OnRowActivated | CanopyDE/src/widgets/menu_button.c:47-68 | a row without a command does nothing; otherwise the command is spawned, and a failed spawn shows the error |
| AppMenu.ShowErrorDialog | CanopyDE/src/widgets/menu_button.c:30-44 | a dialog, and a beep only when there is a display |
| AppMenu.SystemCommandsDistinct | CanopyDE/src/widgets/menu_button.c:179-207 | logout, shutdown and restart run three distinct commands |
| AppMenu.OnSystemClicked | CanopyDE/src/widgets/menu_button.c:179-207 | the action's command is spawned and a failure reported with the action's message |
| AppMenu.AnchorCentred | CanopyDE/src/widgets/menu_button.c:240-248 | a 2x2 anchor straddling the button's horizontal middle, 30 pixels below its bottom edge |
| AppMenu.Menu.constructor | CanopyDE/src/widgets/menu_button.c:230 | no applications, no rows |
| AppMenu.Menu.FilterApps | CanopyDE/src/widgets/menu_button.c:123-149 | the rows become exactly the matches of all applications, in their order |
| AppMenu.Menu.LoadApplications | CanopyDE/src/widgets/menu_button.c:152-176 | the applications become the kept ones, added to those already there and sorted; the rows are then filtered |
| AppMenu.LoadedApps | CanopyDE/src/widgets/menu_button.c:152-176 | after loading, the list is sorted and holds exactly the earlier applications and the kept ones |
| Calendar.TwoDigits | CanopyDE/src/widgets/clock.c:16 | a two-digit field |
| Calendar.ClockTextReadsBack | CanopyDE/src/widgets/clock.c:11-19 | the label is `HH:MM:SS`, and the hour, minute and second read back from it |
| Calendar.Pending | CanopyDE/src/widgets/clock.c:51-72 | the events kept by a check, never more than there were |
| Calendar.CountDue | CanopyDE/src/widgets/clock.c:57 | the due events and the kept ones add up to all |
| Calendar.PendingExactly | CanopyDE/src/widgets/clock.c:57-69 | an event is kept exactly when it is not due |
| Calendar.OneSoundPerEvent | CanopyDE/src/widgets/clock.c:57-59 | one sound per due event, and two calls per due event in all |
| Calendar.DueAnnounced | CanopyDE/src/widgets/clock.c:59 | every due event is announced by its description |
| Calendar.PendingLater | CanopyDE/src/widgets/clock.c:51-72 | a check at a later time after one at an earlier time keeps what a single later check keeps |
| Calendar.EventTm | CanopyDE/src/widgets/clock.c:78-84 | the year less 1900, the month unchanged, the given day, hour and minute, second 0 |
| Calendar.EventList.constructor | CanopyDE/src/widgets/clock.c:40 | no events |
| Calendar.EventList.CheckEvents | CanopyDE/src/widgets/clock.c:51-72 | the list becomes exactly the events not due, in order; each due event plays the sound and is printed |
| Calendar.EventList.CheckAt | CanopyDE/src/widgets/clock.c:56-69 | one loop pass: a due event is announced and unlinked; another is stepped over |
| Calendar.EventList.AddEvent | CanopyDE/src/widgets/clock.c:76-92 | the event is appended at the end at the mktime result, and the addition is printed with that time |
| Calendar.EventList.OnAddEventClicked | CanopyDE/src/widgets/clock.c:96-111 | an empty description changes nothing; otherwise an event at 09:00 on the chosen day is appended and announced, and the entry cleared |
| Volume.PercentInRange | CanopyDE/src/widgets/volume.c:44-47 | a level in a non-empty range is a percentage in 0..100, its ends giving 0 and 100 |
| Volume.Icon | CanopyDE/src/widgets/volume.c:49-57 | one of the four icon names for every percentage |
| Volume.IconBands | CanopyDE/src/widgets/volume.c:50-57 | muted exactly at 0, low below 33, medium below 66, high from 66 on |
| Volume.EmptyRangeMuted | CanopyDE/src/widgets/volume.c:45-51 | an empty range shows the muted icon |
| Volume.VolumeWidget.constructor | CanopyDE/src/widgets/volume.c:91-95 | the mixer, element and range stored, the high icon shown |
| Volume.VolumeWidget.UpdateIcon | CanopyDE/src/widgets/volume.c:39-60 | the icon of the current percentage |
| Volume.New | CanopyDE/src/widgets/volume.c:63-128 | NULL exactly when opening, attaching or finding Master fails, the mixer being closed after an open succeeded; otherwise a widget over that mixer and Master element and its range, showing the current level's icon |
| Volume.Update | CanopyDE/src/widgets/volume.c:131-136 | with data attached, the icon of the current percentage, the mixer, element and range kept; without, nothing |
| Battery.Icon | CanopyDE/src/widgets/battery.c:33-52 | a charging icon while charging and a plain one otherwise |
| Battery.IconBands | CanopyDE/src/widgets/battery.c:35-51 | caution below 10, low below 30, good below 60, full from 60 on |
| Battery.IconMarksCharging | CanopyDE/src/widgets/battery.c:34-52 | the name ends in `-charging-symbolic` exactly while charging |
| Battery.IconMonotone | CanopyDE/src/widgets/battery.c:35-51 | a higher percentage never gives a lower band |
| Battery.FirstBattery | CanopyDE/src/widgets/battery.c:79-89 | the first device of kind battery, or none |
| Battery.BatteryWidget.constructor | CanopyDE/src/widgets/battery.c:68 | no device, no icon |
| Battery.BatteryWidget.UpdateStatus | CanopyDE/src/widgets/battery.c:12-61 | no device or an absent battery hides the widget and keeps the icon; otherwise it is shown with the classified icon and the percentage |
| Battery.BatteryWidget.SelectDevice | CanopyDE/src/widgets/battery.c:79-89 | the loop with its break selects the first battery |
| Battery.New | CanopyDE/src/widgets/battery.c:67-98 | the first battery is selected; without one, or when it is not present, the widget is hidden with an empty icon and a zero charge; otherwise it shows the charge and its icon |
| Battery.Update | CanopyDE/src/widgets/battery.c:100-105 | with data attached, the device is kept; with no device or a missing one the widget is hidden and the icon and shown charge kept; otherwise it is shown with the charge and the icon of its band and charging state; without data, nothing |
| Network.FirstConnected | CanopyDE/src/widgets/network.c:25-44 | the first qualifying device, none before it qualifying |
| Network.StatusIff | CanopyDE/src/widgets/network.c:23-46 | "Disconnected" exactly when no device qualifies; "WiFi" or "Ethernet" exactly when the first qualifying device is of that kind |
| Network.SkippedNotConnected | CanopyDE/src/widgets/network.c:29-43 | a device that does not qualify never changes the status |
| Network.NetworkWidget.constructor | CanopyDE/src/widgets/network.c:59-74 | an empty label, and whether the client was created |
| Network.NetworkWidget.Update | CanopyDE/src/widgets/network.c:18-48 | without a client nothing changes; otherwise the label is the status |
| Network.NetworkWidget.OnPreferencesClicked | CanopyDE/src/widgets/network.c:9-16 | spawns `nm-connection-editor` |

## Left out

- X server, GTK, ALSA, libnotify, UPower, NetworkManager and sd-bus calls are not interpreted. Each is a `Call` value in the log, and query answers are parameters.
- Cairo drawing is not modelled: the desktop background, the wallpaper, and the loading animation of CanopyWM/src/main.c:104-194, with its floating-point fading and trigonometry.
- GTK widget construction, packing and CSS are not modelled: menu_button_new, the popover and notebook, taskbar_new's styling, and update_button_state. The same goes for panel.c, menu.c, desktop.c, systray.c and CanopyDE/src/main.c.
- CanopyDE/src/settings.c is a JSON file wrapper and is not part of this model. CanopyDE/src/wm_interface.c is a thin X property wrapper and is not part of this model either.
- CanopyWM/src/config.c holds constant defaults and a stub loader, and is not part of this model.
- Process supervision is reduced to its effects:
  - fork and exec, kill and waitpid, signals, `sleep`, `select` and `setenv` become `Call` values or round parameters;
  - start_desktop_environment is not modelled;
  - wm_init's `exit(1)` when the display cannot be opened (CanopyWM/src/wm.c:72-75) or the desktop window cannot be created (CanopyWM/src/wm.c:102-105) is not modelled: WindowManager.Init starts from an open display and a created desktop window;
  - the exit code 1 after a failed debug session (CanopyWM/src/main.c:305-307) comes from composing StartUp with StartDebugSession, and no single member states it.
- The supervision loop is not modelled as an event source. The events, loading animation and notification clearing inside each round are modelled by their own modules.
- Clock time, `localtime`, `mktime` and the formatting of the clock label are parameters. ClockText models only the `%H:%M:%S` layout.
- The registry's own code (`client_add`, `client_remove`, `client_find_by_window`, `client_close`, `client_update_title`, the keybinding callbacks) is not part of this model. Registry states only what the handlers need of it, and the calls it makes to unseen code are logged as abstract calls.
- input.c:88 calls a three-argument `client_move`, which is modelled with the two-coordinate Client.Move of client.c.
- input_manager_cleanup and the XIM input method and context are not modelled. They free memory and close X handles.
- The INI reader is given the lines fgets would deliver: lines longer than 999 characters, which fgets splits, are not modelled. The unused `prev_name` and `lineno` and the handler's user pointer are left out.
- Ini.Run: lines are given as strings, and a line holding a NUL is cut there, as the C string functions cut it.
- AppMenu.Sort: the collation order `g_utf8_collate` is an integer rank parameter. Sortedness and permutation are proved; stability of `g_list_sort` is not.
- AppMenu.Menu.LoadApplications: directory reading, `.desktop` parsing and `should_show` are inputs (`DesktopFile`). Prepending is modelled, and the order before sorting is not stated beyond the permutation.
- Battery.BatteryWidget.UpdateStatus: the `"%.0f%%"` label is modelled as the real percentage shown, not as formatted text.
- Volume: the slider callback `on_volume_changed` works on doubles and is not modelled. Neither are `audio_toggle_mute` and `audio_get_volume`, which are declared but have no body.
- Audio.Level: `long` overflow of `volume * (max - min)` is not modelled; the arithmetic is unbounded.
- Volume.Percent: likewise unbounded, with no `long` overflow.
- Network.NetworkWidget.Update: the `connected` local, which is written but never read, is not modelled.
- Notifications: the timestamp is the parameter `now`, and each libnotify object is a handle number, 0 standing for NULL.
- DisplayManagement.DisplayManager.UpdateAll: requires at most 16 connected outputs, because the source writes past its 16-slot buffer otherwise. Freeing the old output information is not modelled.
