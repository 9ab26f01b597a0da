/**
 * The shell's taskbar (CanopyDE/src/taskbar.c, CanopyDE/include/taskbar.h):
 * one entry per client window, in the order they were added, each with its
 * title and an "active" flag, and the window the manager last reported
 * active. The GTK buttons and their styling are not part of the model; an
 * entry's `active` flag is what decides its button's style.
 */
module Taskbar {
  import opened Wrappers
  import opened Foreign

  /** One TaskbarWindow. `title` is None while the pointer is NULL. */
  datatype Entry = Entry(window: Window, title: Option<string>, active: bool)

  /** `_NET_ACTIVE_WINDOW` source indication for a pager. */
  const SOURCE_PAGER: int := 2
  /** CurrentTime. */
  const CURRENT_TIME: int := 0

  /** The index of the first entry for `w`, as find_taskbar_window walks the list. */
  function Find(ws: seq<Entry>, w: Window): (r: Option<nat>)
    ensures r.Some? ==> r.value < |ws| && ws[r.value].window == w && forall j | 0 <= j < r.value :: ws[j].window != w
    ensures r.None? <==> forall j | 0 <= j < |ws| :: ws[j].window != w
  {
    FindFrom(ws, w, 0)
  }

  function FindFrom(ws: seq<Entry>, w: Window, i: nat): (r: Option<nat>)
    ensures r.Some? ==> i <= r.value < |ws| && ws[r.value].window == w && forall j | i <= j < r.value :: ws[j].window != w
    ensures r.None? <==> forall j | i <= j < |ws| :: ws[j].window != w
    decreases |ws| - i
  {
    if i >= |ws| then None
    else if ws[i].window == w then Some(i)
    else FindFrom(ws, w, i + 1)
  }

  /** No window has two entries. */
  predicate Unique(ws: seq<Entry>) {
    forall i, j | 0 <= i < j < |ws| :: ws[i].window != ws[j].window
  }

  /** Every active entry belongs to the active window, which is not None. */
  predicate ActiveIsCurrent(ws: seq<Entry>, current: Window) {
    forall i | 0 <= i < |ws| :: ws[i].active ==> ws[i].window == current && current != NONE
  }

  /** With one entry per window, at most one entry is active. */
  lemma {:induction false} AtMostOneActive(ws: seq<Entry>, current: Window)
    requires Unique(ws) && ActiveIsCurrent(ws, current)
    ensures forall i, j | 0 <= i < |ws| && 0 <= j < |ws| && ws[i].active && ws[j].active :: i == j
  {
  }

  /** The entries without the one for `w` (g_list_remove of the entry found). */
  function Without(ws: seq<Entry>, w: Window): (r: seq<Entry>)
    ensures |r| <= |ws|
  {
    match Find(ws, w)
    case None => ws
    case Some(i) => ws[..i] + ws[i + 1..]
  }

  /** Removing keeps every other entry, in order, and drops the one for `w`. */
  lemma {:induction false} WithoutExactly(ws: seq<Entry>, w: Window)
    requires Unique(ws)
    ensures Unique(Without(ws, w))
    ensures forall e :: e in Without(ws, w) <==> e in ws && e.window != w
  {
    match Find(ws, w)
    case None =>
    case Some(i) =>
      var r := ws[..i] + ws[i + 1..];
      forall a, b | 0 <= a < b < |r|
        ensures r[a].window != r[b].window
      {
        var a' := if a < i then a else a + 1;
        var b' := if b < i then b else b + 1;
        assert r[a] == ws[a'] && r[b] == ws[b'];
      }
      forall e
        ensures e in r <==> e in ws && e.window != w
      {
        if e in r {
          var k :| 0 <= k < |r| && r[k] == e;
          var k' := if k < i then k else k + 1;
          assert ws[k'] == e;
          if k' < i {
            assert ws[k'].window != ws[i].window;
          } else {
            assert ws[i].window != ws[k'].window;
          }
        }
        if e in ws && e.window != w {
          var k :| 0 <= k < |ws| && ws[k] == e;
          assert k != i;
          if k < i {
            assert r[k] == e;
          } else {
            assert r[k - 1] == e;
          }
        }
      }
  }

  /** The flag an entry ends with after the active window changes from `previous` to `next`. */
  function Reflag(e: Entry, previous: Window, next: Window): Entry {
    if next != NONE && e.window == next then e.(active := true)
    else if previous != NONE && e.window == previous then e.(active := false)
    else e
  }

  /** The entries after the active window changes: the old window's flag cleared, the new one's set. */
  function Reflagged(ws: seq<Entry>, previous: Window, next: Window): (r: seq<Entry>)
    ensures |r| == |ws|
    ensures forall i | 0 <= i < |ws| :: r[i] == Reflag(ws[i], previous, next)
  {
    seq(|ws|, i requires 0 <= i < |ws| => Reflag(ws[i], previous, next))
  }

  /** After a change of active window only the new window's entry is active, and every entry keeps its window and title. */
  lemma {:induction false} ReflaggedExclusive(ws: seq<Entry>, previous: Window, next: Window)
    requires ActiveIsCurrent(ws, previous) && previous != next
    ensures ActiveIsCurrent(Reflagged(ws, previous, next), next)
    ensures forall i | 0 <= i < |ws| ::
      Reflagged(ws, previous, next)[i].active <==> ws[i].window == next && next != NONE
    ensures forall i | 0 <= i < |ws| ::
      Reflagged(ws, previous, next)[i].window == ws[i].window && Reflagged(ws, previous, next)[i].title == ws[i].title
  {
  }

  /** What a click on an entry's button does: iconify it when active, otherwise ask for it to be activated and raise it. */
  function ClickCalls(e: Entry, root: Window, netActiveWindow: Atom): seq<Call> {
    if e.active then [IconifyWindow(e.window)]
    else [SendEvent(root, SUBSTRUCTURE_NOTIFY_MASK + SUBSTRUCTURE_REDIRECT_MASK,
                    Message(e.window, netActiveWindow, 32, [SOURCE_PAGER, CURRENT_TIME])),
          RaiseWindow(e.window)]
  }

  class TaskbarState {
    /** Whether the static `taskbar` pointer is set. */
    var created: bool
    var windows: seq<Entry>
    var activeWindow: Window

    ghost predicate Valid()
      reads this
    {
      Unique(windows) && ActiveIsCurrent(windows, activeWindow) &&
      (!created ==> windows == [])
    }

    /** The static pointer starts NULL. */
    constructor ()
      ensures !created && windows == [] && activeWindow == NONE && Valid()
    {
      created := false;
      windows := [];
      activeWindow := NONE;
    }

    /** taskbar_new: a fresh taskbar with no entries and no active window. */
    method Create()
      modifies this
      ensures created && windows == [] && activeWindow == NONE && Valid()
    {
      created := true;
      windows := [];
      activeWindow := NONE;
    }

    /** find_taskbar_window. */
    method FindWindow(w: Window) returns (r: Option<nat>)
      ensures r == Find(windows, w)
    {
      var i := 0;
      while i < |windows|
        invariant i <= |windows|
        invariant FindFrom(windows, w, i) == Find(windows, w)
      {
        if windows[i].window == w {
          return Some(i);
        }
        i := i + 1;
      }
      return None;
    }

    /**
     * taskbar_update_window_title: `name` is what XGetWMName reports for
     * the window, None when the query fails; the title changes only when it
     * succeeds.
     */
    method UpdateTitle(w: Window, name: Option<string>)
      modifies this`windows
      requires Valid()
      ensures Valid()
      ensures windows == match Find(old(windows), w)
        case Some(i) => if name.Some? then old(windows)[i := old(windows)[i].(title := name)] else old(windows)
        case None => old(windows)
    {
      var i := FindWindow(w);
      if i.None? {
        return;
      }
      if name.Some? {
        windows := windows[i.value := windows[i.value].(title := name)];
      }
    }

    /**
     * taskbar_add_window: nothing happens before the taskbar exists or when
     * the window already has an entry; otherwise an inactive entry without a
     * title is appended and its title then read (`name`, as in UpdateTitle).
     */
    method AddWindow(w: Window, name: Option<string>)
      modifies this`windows
      requires Valid()
      ensures Valid()
      ensures !created || Find(old(windows), w).Some? ==> windows == old(windows)
      ensures created && Find(old(windows), w).None? ==> windows == old(windows) + [Entry(w, name, false)]
    {
      if !created {
        return;
      }
      var found := FindWindow(w);
      if found.Some? {
        return;
      }
      windows := windows + [Entry(w, None, false)];
      assert windows[|windows| - 1].window == w;
      assert forall j | 0 <= j < |windows| - 1 :: windows[j] == old(windows)[j];
      assert Find(windows, w) == Some(|windows| - 1);
      UpdateTitle(w, name);
      if name.None? {
        assert windows == old(windows) + [Entry(w, name, false)];
      }
    }

    /** taskbar_remove_window: the window's entry, if any, is dropped and the rest keep their order. */
    method RemoveWindow(w: Window)
      modifies this`windows
      requires created && Valid()
      ensures Valid()
      ensures windows == Without(old(windows), w)
    {
      var found := FindWindow(w);
      if found.Some? {
        var i := found.value;
        WithoutExactly(windows, w);
        windows := windows[..i] + windows[i + 1..];
        forall k | 0 <= k < |windows| && windows[k].active
          ensures windows[k].window == activeWindow && activeWindow != NONE
        {
          assert windows[k] in old(windows);
        }
      }
    }

    /**
     * taskbar_set_active_window: the same window again changes nothing;
     * otherwise the previous window's entry, if present, is cleared, the
     * new window recorded even when it has no entry, and its entry, if
     * present, set.
     */
    method SetActiveWindow(w: Window)
      modifies this`windows, this`activeWindow
      requires created && Valid()
      ensures Valid()
      ensures activeWindow == w
      ensures w == old(activeWindow) ==> windows == old(windows)
      ensures w != old(activeWindow) ==> windows == Reflagged(old(windows), old(activeWindow), w)
    {
      if activeWindow == w {
        return;
      }
      ghost var ws := windows;
      ghost var previous := activeWindow;
      if activeWindow != NONE {
        var oldWin := FindWindow(activeWindow);
        if oldWin.Some? {
          windows := windows[oldWin.value := windows[oldWin.value].(active := false)];
        }
      }
      activeWindow := w;
      if w != NONE {
        var newWin := FindWindow(w);
        if newWin.Some? {
          windows := windows[newWin.value := windows[newWin.value].(active := true)];
        }
      }
      ReflaggedExclusive(ws, previous, w);
      assert windows == Reflagged(ws, previous, w);
    }

    /** taskbar_update: a NULL bar returns at once; otherwise every entry's title is read again, `names` being what XGetWMName reports per window. */
    method UpdateAll(names: Window -> Option<string>)
      modifies this`windows
      requires Valid()
      ensures Valid() && |windows| == |old(windows)|
      ensures !created ==> windows == old(windows)
      ensures forall i | 0 <= i < |windows| ::
        windows[i].window == old(windows)[i].window && windows[i].active == old(windows)[i].active &&
        windows[i].title == (if names(windows[i].window).Some? then names(windows[i].window) else old(windows)[i].title)
    {
      if !created {
        return;
      }
      var i := 0;
      while i < |windows|
        invariant i <= |windows| == |old(windows)| && Valid()
        invariant forall k | 0 <= k < |windows| ::
          windows[k].window == old(windows)[k].window && windows[k].active == old(windows)[k].active
        invariant forall k | 0 <= k < i ::
          windows[k].title == (if names(windows[k].window).Some? then names(windows[k].window) else old(windows)[k].title)
        invariant forall k | i <= k < |windows| :: windows[k].title == old(windows)[k].title
      {
        var w := windows[i].window;
        assert Find(windows, w) == Some(i) by {
          forall j | 0 <= j < i ensures windows[j].window != w {
            assert windows[j].window != windows[i].window;
          }
        }
        UpdateTitle(w, names(w));
        i := i + 1;
      }
    }

    /** on_button_clicked for the entry at `i`; `netActiveWindow` is the interned `_NET_ACTIVE_WINDOW` atom. */
    method Click(i: nat, root: Window, netActiveWindow: Atom, out: Outbox)
      modifies out
      requires i < |windows|
      ensures out.sent == old(out.sent) + ClickCalls(windows[i], root, netActiveWindow)
    {
      var win := windows[i];
      if win.active {
        out.sent := out.sent + [IconifyWindow(win.window)];
      } else {
        var ev := Message(win.window, netActiveWindow, 32, [SOURCE_PAGER, CURRENT_TIME]);
        out.sent := out.sent + [SendEvent(root, SUBSTRUCTURE_NOTIFY_MASK + SUBSTRUCTURE_REDIRECT_MASK, ev)];
        out.sent := out.sent + [RaiseWindow(win.window)];
      }
    }

    /** taskbar_cleanup: the entries are freed and the pointer reset. */
    method Cleanup()
      modifies this
      requires Valid()
      ensures !created && windows == [] && activeWindow == old(activeWindow) && Valid()
    {
      if created {
        windows := [];
        created := false;
      }
    }
  }
}
