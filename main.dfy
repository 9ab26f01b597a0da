/**
 * The window manager's process front end (CanopyWM/src/main.c), logic
 * only: the command line, the search for the desktop shell's executable,
 * the display picked for a nested debug server, the lockfile name removed
 * at exit, and the supervision loop's "shell loaded" flag and stop
 * condition. Which paths are executable, which displays can be opened and
 * what the clock and `waitpid` report come in as parameters; processes and
 * files are touched through logged calls.
 */
module Session {
  import opened Wrappers
  import opened Foreign

  // -----------------------------------------------------------------------
  // The command line

  datatype Options = Options(debug: bool, dePath: Option<string>)

  /** What the argument loop decides: print the usage and exit 0, or run with these options. */
  datatype Args = Help | Run(opts: Options)

  const NO_OPTIONS: Options := Options(false, None)

  /**
   * The argument loop from index `i` with the options so far: `--debug`
   * sets debug mode, `--de-path` takes the next argument when there is
   * one, `--help` ends the loop, and anything else is skipped.
   */
  function ArgsFrom(argv: seq<string>, i: nat, o: Options): Args
    decreases |argv| - i
  {
    if i >= |argv| then Run(o)
    else if argv[i] == "--debug" then ArgsFrom(argv, i + 1, o.(debug := true))
    else if argv[i] == "--de-path" && i + 1 < |argv| then ArgsFrom(argv, i + 2, o.(dePath := Some(argv[i + 1])))
    else if argv[i] == "--help" then Help
    else ArgsFrom(argv, i + 1, o)
  }

  /** Arguments that do not end in a `--de-path` still waiting for its value. */
  predicate Complete(a: seq<string>) {
    a == [] || a[|a| - 1] != "--de-path"
  }

  /** The loop over a + b runs over `a` first; when `a` leaves the loop running it continues into `b` with the options `a` set. */
  lemma {:induction false} ArgsAppend(a: seq<string>, b: seq<string>, i: nat, o: Options)
    requires i <= |a| && Complete(a)
    ensures ArgsFrom(a + b, i, o) ==
      match ArgsFrom(a, i, o)
      case Help => Help
      case Run(o') => ArgsFrom(a + b, |a|, o')
    decreases |a| - i
  {
    if i < |a| {
      assert (a + b)[i] == a[i];
      if a[i] == "--debug" {
        ArgsAppend(a, b, i + 1, o.(debug := true));
      } else if a[i] == "--de-path" && i + 1 < |a| {
        assert (a + b)[i + 1] == a[i + 1];
        ArgsAppend(a, b, i + 2, o.(dePath := Some(a[i + 1])));
      } else if a[i] == "--help" {
      } else {
        ArgsAppend(a, b, i + 1, o);
      }
    }
  }

  /** A later `--de-path X` replaces an earlier one: the last occurrence wins. */
  lemma {:induction false} LastDePathWins(a: seq<string>, path: string, o: Options)
    requires 1 <= |a| && Complete(a) && ArgsFrom(a, 1, o).Run?
    ensures ArgsFrom(a + ["--de-path", path], 1, o) == Run(ArgsFrom(a, 1, o).opts.(dePath := Some(path)))
  {
    var b := ["--de-path", path];
    ArgsAppend(a, b, 1, o);
    assert (a + b)[|a|] == "--de-path" && (a + b)[|a| + 1] == path;
  }

  /** `--help` ends the loop: whatever follows it is never looked at. */
  lemma {:induction false} HelpIgnoresRest(a: seq<string>, rest: seq<string>, o: Options)
    requires 1 <= |a| && Complete(a) && ArgsFrom(a, 1, o).Run?
    ensures ArgsFrom(a + ["--help"] + rest, 1, o) == Help
  {
    var b := ["--help"] + rest;
    assert a + ["--help"] + rest == a + b;
    ArgsAppend(a, b, 1, o);
    assert (a + b)[|a|] == "--help";
  }

  /** A trailing `--de-path` without a value, and any argument the loop does not know, change nothing. */
  lemma {:induction false} IgnoredArguments(a: seq<string>, x: string, o: Options)
    requires 1 <= |a| && Complete(a) && ArgsFrom(a, 1, o).Run?
    requires x !in {"--debug", "--help"}
    ensures ArgsFrom(a + [x], 1, o) == ArgsFrom(a, 1, o)
  {
    ArgsAppend(a, [x], 1, o);
    assert (a + [x])[|a|] == x;
  }

  /** The argument loop of main (argv[0] is the program name). */
  method ParseArgs(argv: seq<string>) returns (r: Args)
    ensures r == ArgsFrom(argv, 1, NO_OPTIONS)
  {
    var debug := false;
    var dePath: Option<string> := None;
    var i := 1;
    while i < |argv|
      invariant 1 <= i
      invariant ArgsFrom(argv, i, Options(debug, dePath)) == ArgsFrom(argv, 1, NO_OPTIONS)
      decreases |argv| - i
    {
      if argv[i] == "--debug" {
        debug := true;
      } else if argv[i] == "--de-path" && i + 1 < |argv| {
        i := i + 1;
        dePath := Some(argv[i]);
      } else if argv[i] == "--help" {
        return Help;
      }
      i := i + 1;
    }
    return Run(Options(debug, dePath));
  }

  // -----------------------------------------------------------------------
  // The desktop shell's executable

  const DEFAULT_DE_PATHS: seq<string> := [
    "/usr/local/bin/canopy-de",
    "/usr/bin/canopy-de",
    "./canopy-de",
    "../CanopyDE/build/canopy-de"
  ]

  /** The first of `paths` from `i` on that `executable` accepts (access with X_OK), if any. */
  function FirstExecutable(paths: seq<string>, executable: string -> bool, i: nat): (r: Option<string>)
    ensures r.Some? ==> exists j | i <= j < |paths| ::
      r.value == paths[j] && executable(paths[j]) && forall k | i <= k < j :: !executable(paths[k])
    ensures r.None? ==> forall j | i <= j < |paths| :: !executable(paths[j])
    decreases |paths| - i
  {
    if i >= |paths| then None
    else if executable(paths[i]) then Some(paths[i])
    else FirstExecutable(paths, executable, i + 1)
  }

  /** find_desktop_environment: the first default path that is executable, or NULL. */
  method FindDesktopEnvironment(executable: string -> bool) returns (r: Option<string>)
    ensures r == FirstExecutable(DEFAULT_DE_PATHS, executable, 0)
  {
    var i := 0;
    while i < |DEFAULT_DE_PATHS|
      invariant i <= |DEFAULT_DE_PATHS|
      invariant FirstExecutable(DEFAULT_DE_PATHS, executable, i) == FirstExecutable(DEFAULT_DE_PATHS, executable, 0)
    {
      if executable(DEFAULT_DE_PATHS[i]) {
        return Some(DEFAULT_DE_PATHS[i]);
      }
      i := i + 1;
    }
    return None;
  }

  /** How main proceeds after its argument loop and path search. */
  datatype Start = Exit(code: int) | Launch(debug: bool, dePath: string)

  /**
   * main up to the start of the subsystems: `--help` exits with 0; without
   * `--de-path` the default paths are searched, and exit status 1 reports
   * that none is executable.
   */
  method StartUp(argv: seq<string>, executable: string -> bool) returns (s: Start)
    ensures ArgsFrom(argv, 1, NO_OPTIONS).Help? ==> s == Exit(0)
    ensures ArgsFrom(argv, 1, NO_OPTIONS).Run? ==>
      var o := ArgsFrom(argv, 1, NO_OPTIONS).opts;
      s == match o.dePath
        case Some(p) => Launch(o.debug, p)
        case None =>
          match FirstExecutable(DEFAULT_DE_PATHS, executable, 0)
          case Some(p) => Launch(o.debug, p)
          case None => Exit(1)
  {
    var args := ParseArgs(argv);
    if args.Help? {
      return Exit(0);
    }
    var dePath := args.opts.dePath;
    if dePath.None? {
      dePath := FindDesktopEnvironment(executable);
      if dePath.None? {
        return Exit(1);
      }
    }
    return Launch(args.opts.debug, dePath.value);
  }

  // -----------------------------------------------------------------------
  // Lockfiles and the debug display

  /** snprintf into a buffer of `size` bytes keeps at most size - 1 characters. */
  function Snprintf(s: string, size: nat): (r: string)
    requires size > 0
    ensures |r| < size && |r| <= |s| && r == s[..|r|]
    ensures |s| < size ==> r == s
  {
    if |s| < size then s else s[..size - 1]
  }

  /**
   * The lockfile cleanup_children removes for a DISPLAY value: only a
   * local display, one starting with `:`, has one; its name is formatted
   * into 256 bytes.
   */
  function LockfileName(display: Option<string>): Option<string> {
    if display.Some? && |display.value| > 0 && display.value[0] == ':' then
      Some(Snprintf("/tmp/.X" + display.value[1..] + "-lock", 256))
    else None
  }

  /** Only a display starting with `:` names a lockfile, and the display number can be read back from the name. */
  lemma {:induction false} LockfileOfLocalDisplay(display: Option<string>)
    ensures LockfileName(display).Some? <==> display.Some? && display.value != [] && display.value[0] == ':'
    ensures LockfileName(display).Some? && |display.value| <= 244 ==>
      var name := LockfileName(display).value;
      |name| == |display.value| + 11 && name[..7] == "/tmp/.X" && name[|name| - 5..] == "-lock" &&
      name[7..|name| - 5] == display.value[1..]
  {
    if LockfileName(display).Some? && |display.value| <= 244 {
      var name := "/tmp/.X" + display.value[1..] + "-lock";
      assert name[..7] == "/tmp/.X";
      assert name[|name| - 5..] == "-lock";
      assert name[7..|name| - 5] == display.value[1..];
    }
  }

  /**
   * cleanup_children: the shell and then the nested server are terminated
   * when running (a positive pid); after the server, its lockfile is
   * removed when DISPLAY names a local display.
   */
  method CleanupChildren(dePid: int, xephyrPid: int, display: Option<string>, out: Outbox)
    modifies out
    ensures out.sent == old(out.sent) +
      (if dePid > 0 then [Terminate(dePid)] else []) +
      (if xephyrPid > 0 then
         [Terminate(xephyrPid)] + (if LockfileName(display).Some? then [Unlink(LockfileName(display).value)] else [])
       else [])
  {
    if dePid > 0 {
      out.sent := out.sent + [Terminate(dePid)];
    }
    if xephyrPid > 0 {
      out.sent := out.sent + [Terminate(xephyrPid)];
      if display.Some? && |display.value| > 0 && display.value[0] == ':' {
        var lockfile := Snprintf("/tmp/.X" + display.value[1..] + "-lock", 256);
        out.sent := out.sent + [Unlink(lockfile)];
      }
    }
  }

  /** The one-digit decimal form of 0..9, as "%d" prints it. */
  function Digit(n: nat): string
    requires n < 10
  {
    [('0' as int + n) as char]
  }

  /** The stale lockfiles of displays 0 .. n-1, removed in that order. */
  function StaleLocks(n: nat): (r: seq<Call>)
    requires n <= 10
    ensures |r| == n
  {
    if n == 0 then [] else StaleLocks(n - 1) + [Unlink("/tmp/.X" + Digit(n - 1) + "-lock")]
  }

  /** The first display number from `n` to 9 that cannot be opened, if any. */
  function FirstFree(canOpen: nat -> bool, n: nat): (r: Option<nat>)
    requires n >= 1
    ensures r.Some? ==> n <= r.value <= 9 && !canOpen(r.value) && forall k | n <= k < r.value :: canOpen(k)
    ensures r.None? ==> forall k | n <= k <= 9 :: canOpen(k)
    decreases 10 - n
  {
    if n > 9 then None
    else if !canOpen(n) then Some(n)
    else FirstFree(canOpen, n + 1)
  }

  /** The connections the probe opens and closes again on displays 1 .. `n` - 1, in order. */
  function Probed(n: nat): (r: seq<Call>)
    requires 1 <= n <= 10
    ensures |r| == n - 1
    ensures forall k | 0 <= k < |r| :: r[k] == CloseDisplay(":" + Digit(k + 1))
  {
    if n == 1 then [] else Probed(n - 1) + [CloseDisplay(":" + Digit(n - 1))]
  }

  /**
   * start_debug_session: the lockfiles of displays 0..9 are removed, then
   * the nested server is started on the first display in 1..9 that cannot
   * be opened, and DISPLAY set to it; each display that could be opened
   * on the way is closed again. `forkOk` is whether fork succeeded. The
   * result is whether a session was started, and on which display.
   */
  method StartDebugSession(canOpen: nat -> bool, forkOk: bool, out: Outbox) returns (r: Option<nat>)
    modifies out
    ensures r.Some? <==> FirstFree(canOpen, 1).Some? && forkOk
    ensures r.Some? ==> r == FirstFree(canOpen, 1)
    ensures var free := FirstFree(canOpen, 1);
      out.sent == old(out.sent) + StaleLocks(10) + Probed(if free.Some? then free.value else 10) +
        (if free.None? || !forkOk then []
         else [StartXephyr(":" + Digit(free.value)), SetDisplayEnv(":" + Digit(free.value))])
  {
    var i := 0;
    while i < 10
      invariant i <= 10 && out.sent == old(out.sent) + StaleLocks(i)
    {
      out.sent := out.sent + [Unlink("/tmp/.X" + Digit(i) + "-lock")];
      i := i + 1;
    }
    var n := 1;
    while n < 10
      invariant 1 <= n <= 10 && FirstFree(canOpen, n) == FirstFree(canOpen, 1)
      invariant out.sent == old(out.sent) + StaleLocks(10) + Probed(n)
    {
      if canOpen(n) {
        out.sent := out.sent + [CloseDisplay(":" + Digit(n))];
        n := n + 1;
        continue;
      }
      if !forkOk {
        return None;
      }
      var display := ":" + Digit(n);
      out.sent := out.sent + [StartXephyr(display), SetDisplayEnv(display)];
      return Some(n);
    }
    return None;
  }

  // -----------------------------------------------------------------------
  // The supervision loop

  /** What one round of the main loop observes: seconds since the shell was started, and whether waitpid reaped it. */
  datatype Round = Round(elapsed: int, deExited: bool)

  /** How many rounds run: up to and including the first in which the shell was reaped. */
  function RoundsRun(rounds: seq<Round>, i: nat): (n: nat)
    requires i <= |rounds|
    ensures i <= n <= |rounds|
    ensures forall k | i <= k < n - 1 :: !rounds[k].deExited
    ensures n < |rounds| ==> n > i && rounds[n - 1].deExited
    decreases |rounds| - i
  {
    if i == |rounds| then i
    else if rounds[i].deExited then i + 1
    else RoundsRun(rounds, i + 1)
  }

  /** Whether some round among the first n saw five seconds elapse. */
  predicate LoadedWithin(rounds: seq<Round>, n: nat)
    requires n <= |rounds|
  {
    exists k | 0 <= k < n :: rounds[k].elapsed >= 5
  }

  class Supervisor {
    var deLoaded: bool
    var running: bool

    constructor ()
      ensures !deLoaded && running
    {
      deLoaded := false;
      running := true;
    }

    /**
     * The bookkeeping of one round of the main loop: the shell counts as
     * loaded once five seconds have passed, and the loop stops when the
     * shell has been reaped. Event handling and notification expiry in the
     * same round are modelled by the window-manager and notification
     * modules.
     */
    method Round(r: Round)
      modifies this
      ensures deLoaded == (old(deLoaded) || r.elapsed >= 5)
      ensures running == (old(running) && !r.deExited)
    {
      if !deLoaded && r.elapsed >= 5 {
        deLoaded := true;
      }
      if r.deExited {
        running := false;
      }
    }

    /**
     * The main loop over the rounds observed while it runs: it stops after
     * the round in which the shell was reaped, and the loaded flag, once
     * set, is never cleared.
     */
    method Loop(rounds: seq<Round>) returns (n: nat)
      modifies this
      requires running
      ensures n == RoundsRun(rounds, 0)
      ensures deLoaded == (old(deLoaded) || LoadedWithin(rounds, n))
      ensures running == !(n > 0 && rounds[n - 1].deExited)
    {
      n := 0;
      while n < |rounds| && running
        invariant n <= |rounds|
        invariant running ==> RoundsRun(rounds, n) == RoundsRun(rounds, 0)
        invariant !running ==> n > 0 && n == RoundsRun(rounds, 0) && rounds[n - 1].deExited
        invariant running == !(n > 0 && rounds[n - 1].deExited)
        invariant deLoaded == (old(deLoaded) || LoadedWithin(rounds, n))
      {
        Round(rounds[n]);
        n := n + 1;
      }
    }
  }
}
