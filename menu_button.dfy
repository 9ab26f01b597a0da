/**
 * The application menu of the shell's panel
 * (CanopyDE/src/widgets/menu_button.c): the applications found in the
 * system's `.desktop` files, sorted by name; the rows shown for a search
 * text; the command a row launches; the buttons of the "System" page; and
 * where the popover points. What GIO reports about a desktop file is an
 * `App` value, and the directory listings are parameters.
 */
module AppMenu {
  import opened Wrappers
  import opened Foreign
  import opened CInt

  /** What GAppInfo reports for one application; None stands for a NULL string. */
  datatype App = App(name: Option<string>, description: Option<string>, executable: Option<string>, terminal: bool)

  /** The data create_app_row attaches to a row: the command and the terminal flag, both only when there is an executable. */
  datatype Row = Row(app: App, exec: Option<string>, terminal: bool)

  function RowOf(app: App): (r: Row)
    ensures r.exec == app.executable
    ensures r.terminal <==> app.executable.Some? && app.terminal
  {
    if app.executable.Some? then Row(app, app.executable, app.terminal) else Row(app, None, false)
  }

  // -----------------------------------------------------------------------
  // Case-insensitive search (strcasestr in the C locale)

  /** tolower in the C locale. */
  function Lower(c: char): char {
    if 'A' <= c <= 'Z' then (c as int + 32) as char else c
  }

  function LowerAll(s: string): (r: string)
    ensures |r| == |s| && forall k | 0 <= k < |s| :: r[k] == Lower(s[k])
  {
    seq(|s|, k requires 0 <= k < |s| => Lower(s[k]))
  }

  /** The needle occurs at position i of the haystack, ignoring case. */
  predicate MatchesAt(h: string, n: string, i: nat) {
    i + |n| <= |h| && forall k | 0 <= k < |n| :: Lower(h[i + k]) == Lower(n[k])
  }

  /** The reference meaning: some position holds the needle, ignoring case. */
  predicate ContainsCI(h: string, n: string) {
    exists i: nat | i <= |h| :: MatchesAt(h, n, i)
  }

  /** strcasestr: the first position from `i` on that holds the needle, if any. */
  function FindCI(h: string, n: string, i: nat): (r: Option<nat>)
    ensures r.Some? ==> i <= r.value && MatchesAt(h, n, r.value) && forall j | i <= j < r.value :: !MatchesAt(h, n, j)
    ensures r.None? ==> forall j: nat | i <= j :: !MatchesAt(h, n, j)
    decreases |h| - i
  {
    if i + |n| > |h| then None
    else if forall k | 0 <= k < |n| :: Lower(h[i + k]) == Lower(n[k]) then Some(i)
    else FindCI(h, n, i + 1)
  }

  /** strcasestr finds the needle exactly when it occurs; an empty needle is found in every string. */
  lemma {:induction false} FindCIFinds(h: string, n: string)
    ensures FindCI(h, n, 0).Some? <==> ContainsCI(h, n)
    ensures n == [] ==> FindCI(h, n, 0) == Some(0)
  {
    if n == [] {
      assert MatchesAt(h, n, 0);
    }
  }

  /** Lower-casing the needle changes nothing. */
  lemma {:induction false} ContainsIgnoresCase(h: string, n: string)
    ensures ContainsCI(h, n) <==> ContainsCI(h, LowerAll(n))
  {
    if ContainsCI(h, n) {
      var i: nat :| i <= |h| && MatchesAt(h, n, i);
      assert MatchesAt(h, LowerAll(n), i);
    }
    if ContainsCI(h, LowerAll(n)) {
      var i: nat :| i <= |h| && MatchesAt(h, LowerAll(n), i);
      assert MatchesAt(h, n, i);
    }
  }

  /** The test of filter_apps: an empty search shows everything; otherwise the name or the description must hold it. */
  predicate Shown(app: App, search: string) {
    search == [] ||
    (app.name.Some? && FindCI(app.name.value, search, 0).Some?) ||
    (app.description.Some? && FindCI(app.description.value, search, 0).Some?)
  }

  /** An application is shown exactly when the search is empty or its name or description contains it, whatever the case of either. */
  lemma {:induction false} ShownIff(app: App, search: string)
    ensures Shown(app, search) <==>
      search == [] ||
      (app.name.Some? && ContainsCI(app.name.value, search)) ||
      (app.description.Some? && ContainsCI(app.description.value, search))
    ensures Shown(app, search) <==> Shown(app, LowerAll(search))
  {
    if app.name.Some? {
      FindCIFinds(app.name.value, search);
      FindCIFinds(app.name.value, LowerAll(search));
      ContainsIgnoresCase(app.name.value, search);
    }
    if app.description.Some? {
      FindCIFinds(app.description.value, search);
      FindCIFinds(app.description.value, LowerAll(search));
      ContainsIgnoresCase(app.description.value, search);
    }
  }

  /** The rows filter_apps inserts: one per shown application, in list order. */
  function Matches(apps: seq<App>, search: string): (rows: seq<Row>)
    ensures |rows| <= |apps|
  {
    if apps == [] then []
    else
      var last := apps[|apps| - 1];
      Matches(apps[..|apps| - 1], search) + (if Shown(last, search) then [RowOf(last)] else [])
  }

  /** The rows are the shown applications and nothing else; an empty search shows one row per application. */
  lemma {:induction false} MatchesExactly(apps: seq<App>, search: string)
    ensures forall r :: r in Matches(apps, search) <==> exists a | a in apps :: Shown(a, search) && r == RowOf(a)
    ensures search == [] ==> |Matches(apps, search)| == |apps|
  {
    if apps != [] {
      var init := apps[..|apps| - 1];
      MatchesExactly(init, search);
      assert apps == init + [apps[|apps| - 1]];
    }
  }

  // -----------------------------------------------------------------------
  // Loading the applications

  /** One directory entry: its file name, what parsing it as a desktop file gives, and whether it should be shown. */
  datatype DesktopFile = DesktopFile(fileName: string, info: Option<App>, shouldShow: bool)

  predicate HasDesktopSuffix(name: string) {
    |name| >= 8 && name[|name| - 8..] == ".desktop"
  }

  /** load_applications keeps a `.desktop` file that parses and should be shown. */
  predicate Kept(f: DesktopFile) {
    HasDesktopSuffix(f.fileName) && f.info.Some? && f.shouldShow
  }

  /** The list after the files of one directory from `j` on are prepended to `acc`. */
  function CollectFiles(files: seq<DesktopFile>, j: nat, acc: seq<App>): (r: seq<App>)
    decreases |files| - j
  {
    if j >= |files| then acc
    else CollectFiles(files, j + 1, if Kept(files[j]) then [files[j].info.value] + acc else acc)
  }

  /** The list after the directories from `i` on are read; None is a directory that cannot be opened. */
  function CollectDirs(dirs: seq<Option<seq<DesktopFile>>>, i: nat, acc: seq<App>): (r: seq<App>)
    decreases |dirs| - i
  {
    if i >= |dirs| then acc
    else CollectDirs(dirs, i + 1, if dirs[i].Some? then CollectFiles(dirs[i].value, 0, acc) else acc)
  }

  /** File f of directory d is kept and describes `a`. */
  predicate KeptAt(dirs: seq<Option<seq<DesktopFile>>>, d: nat, f: nat, a: App) {
    d < |dirs| && dirs[d].Some? && f < |dirs[d].value| && Kept(dirs[d].value[f]) && dirs[d].value[f].info.value == a
  }

  /** Reading a directory's files adds exactly its kept applications to the list. */
  lemma {:induction false} CollectFilesHas(files: seq<DesktopFile>, j: nat, acc: seq<App>)
    ensures forall a :: a in CollectFiles(files, j, acc) <==>
      a in acc || exists f | j <= f < |files| :: Kept(files[f]) && files[f].info.value == a
    decreases |files| - j
  {
    if j < |files| {
      var acc' := if Kept(files[j]) then [files[j].info.value] + acc else acc;
      CollectFilesHas(files, j + 1, acc');
    }
  }

  /** Some directory from `i` on holds a kept file describing `a`. */
  ghost predicate KeptFrom(dirs: seq<Option<seq<DesktopFile>>>, i: nat, a: App) {
    exists d: nat, f: nat | i <= d :: KeptAt(dirs, d, f, a)
  }

  /** Reading the directories adds exactly the kept applications of those that open. */
  lemma {:induction false} CollectDirsHas(dirs: seq<Option<seq<DesktopFile>>>, i: nat, acc: seq<App>)
    ensures forall a :: a in CollectDirs(dirs, i, acc) <==> a in acc || KeptFrom(dirs, i, a)
    decreases |dirs| - i
  {
    if i < |dirs| {
      if dirs[i].Some? {
        var acc' := CollectFiles(dirs[i].value, 0, acc);
        CollectFilesHas(dirs[i].value, 0, acc);
        CollectDirsHas(dirs, i + 1, acc');
        forall a | a in acc' && a !in acc
          ensures KeptFrom(dirs, i, a)
        {
          var f :| 0 <= f < |dirs[i].value| && Kept(dirs[i].value[f]) && dirs[i].value[f].info.value == a;
          assert KeptAt(dirs, i, f, a);
        }
        forall a | KeptFrom(dirs, i, a) && !KeptFrom(dirs, i + 1, a)
          ensures a in acc'
        {
          var d: nat, f: nat :| i <= d && KeptAt(dirs, d, f, a);
          assert d == i;
        }
        forall a | KeptFrom(dirs, i + 1, a)
          ensures KeptFrom(dirs, i, a)
        {
          var d: nat, f: nat :| i + 1 <= d && KeptAt(dirs, d, f, a);
          assert i <= d;
        }
      } else {
        CollectDirsHas(dirs, i + 1, acc);
        forall a | KeptFrom(dirs, i, a)
          ensures KeptFrom(dirs, i + 1, a)
        {
          var d: nat, f: nat :| i <= d && KeptAt(dirs, d, f, a);
          assert d != i;
          assert i + 1 <= d;
        }
        forall a | KeptFrom(dirs, i + 1, a)
          ensures KeptFrom(dirs, i, a)
        {
          var d: nat, f: nat :| i + 1 <= d && KeptAt(dirs, d, f, a);
          assert i <= d;
        }
      }
    }
  }

  /** In order of the collation key (g_utf8_collate of the display names compares the names' keys). */
  predicate SortedBy(s: seq<App>, rank: App -> int) {
    forall i, j | 0 <= i < j < |s| :: rank(s[i]) <= rank(s[j])
  }

  /** `x` placed before the first element that does not rank below it. */
  function Insert(x: App, s: seq<App>, rank: App -> int): (r: seq<App>)
    requires SortedBy(s, rank)
    ensures SortedBy(r, rank) && multiset(r) == multiset(s) + multiset{x}
  {
    if s == [] || rank(x) <= rank(s[0]) then [x] + s
    else
      var rest := Insert(x, s[1..], rank);
      assert s == [s[0]] + s[1..];
      assert rest[0] in multiset(rest);
      [s[0]] + rest
  }

  /** g_list_sort by the collation order: a stable sort, here written as insertion sort. */
  function Sort(s: seq<App>, rank: App -> int): (r: seq<App>)
    ensures SortedBy(r, rank) && multiset(r) == multiset(s)
  {
    if s == [] then []
    else
      assert s == [s[0]] + s[1..];
      Insert(s[0], Sort(s[1..], rank), rank)
  }

  // -----------------------------------------------------------------------
  // Launching

  const TERMINAL_PREFIX: string := "x-terminal-emulator -e "

  /** The command line a row launches, if it has an executable. */
  function LaunchCommand(row: Row): Option<string> {
    match row.exec
    case None => None
    case Some(e) => Some(if row.terminal then TERMINAL_PREFIX + e else e)
  }

  /** A terminal application's command is the terminal prefix followed by its executable; any other runs its executable verbatim. */
  lemma {:induction false} LaunchCommandShape(app: App)
    ensures LaunchCommand(RowOf(app)).Some? <==> app.executable.Some?
    ensures app.executable.Some? && app.terminal ==>
      var c := LaunchCommand(RowOf(app)).value;
      c[..|TERMINAL_PREFIX|] == TERMINAL_PREFIX && c[|TERMINAL_PREFIX|..] == app.executable.value
    ensures app.executable.Some? && !app.terminal ==> LaunchCommand(RowOf(app)) == app.executable
  {
    if app.executable.Some? && app.terminal {
      var c := TERMINAL_PREFIX + app.executable.value;
      assert c[..|TERMINAL_PREFIX|] == TERMINAL_PREFIX;
      assert c[|TERMINAL_PREFIX|..] == app.executable.value;
    }
  }

  /** show_error_dialog: a modal dialog with the message, then a beep when there is a default display. */
  function ErrorCalls(message: string, hasDisplay: bool): seq<Call> {
    [ErrorDialog(message)] + (if hasDisplay then [Beep] else [])
  }

  /**
   * on_app_row_activated: a row without a command does nothing; otherwise
   * the command is spawned, and when that fails (`spawnOk` false, `error`
   * the GError message) an error dialog reports it.
   */
  method OnRowActivated(row: Row, spawnOk: bool, error: string, hasDisplay: bool, out: Outbox)
    modifies out
    ensures LaunchCommand(row).None? ==> out.sent == old(out.sent)
    ensures LaunchCommand(row).Some? ==>
      out.sent == old(out.sent) + [Spawn(LaunchCommand(row).value)] +
      (if spawnOk then [] else ErrorCalls("Error launching application:\n" + error, hasDisplay))
  {
    if row.exec.Some? {
      var command;
      if row.terminal {
        command := TERMINAL_PREFIX + row.exec.value;
      } else {
        command := row.exec.value;
      }
      out.sent := out.sent + [Spawn(command)];
      if !spawnOk {
        ShowErrorDialog("Error launching application:\n" + error, hasDisplay, out);
      }
    }
  }

  method ShowErrorDialog(message: string, hasDisplay: bool, out: Outbox)
    modifies out
    ensures out.sent == old(out.sent) + ErrorCalls(message, hasDisplay)
  {
    out.sent := out.sent + [ErrorDialog(message)];
    if hasDisplay {
      out.sent := out.sent + [Beep];
    }
  }

  /** The three buttons of the "System" page. */
  datatype SystemAction = Logout | Shutdown | Restart

  function SystemCommand(a: SystemAction): string {
    match a
    case Logout => "gnome-session-quit --logout --no-prompt"
    case Shutdown => "systemctl poweroff"
    case Restart => "systemctl reboot"
  }

  function SystemError(a: SystemAction): string {
    match a
    case Logout => "Error logging out:\n"
    case Shutdown => "Error shutting down:\n"
    case Restart => "Error restarting:\n"
  }

  /** The three system buttons run three different commands. */
  lemma {:induction false} SystemCommandsDistinct(a: SystemAction, b: SystemAction)
    ensures SystemCommand(a) == SystemCommand(b) <==> a == b
  {
    if a != b {
      var ca, cb := SystemCommand(a), SystemCommand(b);
      assert ca[0] != cb[0] || ca[7] != cb[7] || ca[10] != cb[10];
    }
  }

  /** on_logout_clicked, on_shutdown_clicked and on_restart_clicked. */
  method OnSystemClicked(a: SystemAction, spawnOk: bool, error: string, hasDisplay: bool, out: Outbox)
    modifies out
    ensures out.sent == old(out.sent) + [Spawn(SystemCommand(a))] +
      (if spawnOk then [] else ErrorCalls(SystemError(a) + error, hasDisplay))
  {
    out.sent := out.sent + [Spawn(SystemCommand(a))];
    if !spawnOk {
      ShowErrorDialog(SystemError(a) + error, hasDisplay, out);
    }
  }

  // -----------------------------------------------------------------------
  // The popover's anchor

  const POPOVER_OFFSET: int := 10

  datatype Rect = Rect(x: int, y: int, width: int, height: int)

  /** The rectangle the popover points to, for the button's allocation. */
  function Anchor(alloc: Rect): Rect {
    Rect(alloc.x + CDiv(alloc.width, 2) - 1, alloc.y + alloc.height + POPOVER_OFFSET + 20, 2, 2)
  }

  /** The anchor is a 2x2 square straddling the button's horizontal middle, 30 pixels below its bottom edge. */
  lemma {:induction false} AnchorCentred(alloc: Rect)
    requires alloc.width >= 0
    ensures var r := Anchor(alloc);
      r.width == 2 && r.height == 2 && r.y == alloc.y + alloc.height + 30 &&
      2 * (r.x + 1) <= 2 * alloc.x + alloc.width <= 2 * (r.x + 1) + 1
  {
    CDivAgreesOnNonNegative(alloc.width, 2);
  }

  // -----------------------------------------------------------------------
  // The menu's state

  class Menu {
    /** The loaded applications, in collation order. */
    var allApps: seq<App>
    /** The rows in the list box, top to bottom. */
    var rows: seq<Row>

    constructor ()
      ensures allApps == [] && rows == []
    {
      allApps := [];
      rows := [];
    }

    /**
     * filter_apps: every row is destroyed, then one row is inserted at the
     * end for each application the search shows, in list order.
     */
    method FilterApps(search: string)
      modifies this`rows
      ensures rows == Matches(allApps, search)
    {
      while rows != []
        decreases |rows|
      {
        rows := rows[1..];
      }
      var i := 0;
      while i < |allApps|
        invariant i <= |allApps|
        invariant rows == Matches(allApps[..i], search)
      {
        assert allApps[..i + 1][..i] == allApps[..i];
        var app := allApps[i];
        if search == [] ||
           (app.name.Some? && FindCI(app.name.value, search, 0).Some?) ||
           (app.description.Some? && FindCI(app.description.value, search, 0).Some?) {
          rows := rows + [RowOf(app)];
        }
        i := i + 1;
      }
      assert allApps[..i] == allApps;
    }

    /**
     * load_applications: the `applications` directory of each system data
     * directory is read (`dirs`, None where it cannot be opened); each kept
     * file is prepended; the list is sorted and the rows filtered with the
     * current search text.
     */
    method LoadApplications(dirs: seq<Option<seq<DesktopFile>>>, rank: App -> int, search: string)
      modifies this
      ensures allApps == Sort(CollectDirs(dirs, 0, old(allApps)), rank)
      ensures rows == Matches(allApps, search)
    {
      var i := 0;
      while i < |dirs|
        invariant i <= |dirs|
        invariant CollectDirs(dirs, i, allApps) == CollectDirs(dirs, 0, old(allApps))
      {
        if dirs[i].Some? {
          var files := dirs[i].value;
          ghost var start := allApps;
          var j := 0;
          while j < |files|
            invariant j <= |files|
            invariant CollectFiles(files, j, allApps) == CollectFiles(files, 0, start)
          {
            if HasDesktopSuffix(files[j].fileName) && files[j].info.Some? && files[j].shouldShow {
              allApps := [files[j].info.value] + allApps;
            }
            j := j + 1;
          }
        }
        i := i + 1;
      }
      allApps := Sort(allApps, rank);
      FilterApps(search);
    }
  }

  /** After loading, the list is in collation order and holds exactly the kept applications (and whatever it held before). */
  lemma {:induction false} LoadedApps(dirs: seq<Option<seq<DesktopFile>>>, rank: App -> int, before: seq<App>)
    ensures SortedBy(Sort(CollectDirs(dirs, 0, before), rank), rank)
    ensures forall a :: a in Sort(CollectDirs(dirs, 0, before), rank) <==>
      a in before || KeptFrom(dirs, 0, a)
  {
    CollectDirsHas(dirs, 0, before);
    var c := CollectDirs(dirs, 0, before);
    forall a ensures a in Sort(c, rank) <==> a in c {
      assert a in multiset(Sort(c, rank)) <==> a in multiset(c);
    }
  }
}
