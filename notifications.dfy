/**
 * The notification buffer of the window manager
 * (CanopyWM/src/notifications.c, CanopyWM/include/notifications.h): a
 * fixed array of 32 entries with a count, filled at the end and compacted
 * in place when entries expire. The clock is the parameter `now` (seconds,
 * as `time(NULL)` returns them), and each libnotify notification object is
 * represented by a handle, 0 standing for NULL.
 */
module Notifications {
  import opened Foreign
  import opened CInt

  const MAX_NOTIFICATIONS: nat := 32
  const NOTIFICATION_TIMEOUT: int := 5000

  /** One shown notification; `timeout` is in milliseconds, `timestamp` in seconds. */
  datatype Entry = Entry(handle: nat, summary: string, body: string, timestamp: int, timeout: int)

  /** An entry is expired once more whole seconds have passed than its timeout holds (C division). */
  predicate Expired(e: Entry, now: int) {
    now - e.timestamp > CDiv(e.timeout, 1000)
  }

  /** The entries that survive clearing at time `now`, in their original order. */
  function Live(es: seq<Entry>, now: int): (r: seq<Entry>)
    ensures |r| <= |es|
  {
    if es == [] then []
    else Live(es[..|es| - 1], now) + (if Expired(es[|es| - 1], now) then [] else [es[|es| - 1]])
  }

  /** The close calls clearing makes: one per expired entry, in order, whatever its handle. */
  function ExpiredCloses(es: seq<Entry>, now: int): seq<Call> {
    if es == [] then []
    else ExpiredCloses(es[..|es| - 1], now) + (if Expired(es[|es| - 1], now) then [NotifyClose(es[|es| - 1].handle)] else [])
  }

  /** The close calls clearing everything makes: one per entry that has a notification object. */
  function Closes(es: seq<Entry>): seq<Call> {
    if es == [] then []
    else Closes(es[..|es| - 1]) + (if es[|es| - 1].handle != 0 then [NotifyClose(es[|es| - 1].handle)] else [])
  }

  /** Clearing keeps exactly the unexpired entries. */
  lemma {:induction false} LiveExactly(es: seq<Entry>, now: int)
    ensures forall e :: e in Live(es, now) <==> e in es && !Expired(e, now)
  {
    if es != [] {
      LiveExactly(es[..|es| - 1], now);
      assert es == es[..|es| - 1] + [es[|es| - 1]];
    }
  }

  /** Clearing twice at the same time removes nothing more. */
  lemma {:induction false} LiveIdempotent(es: seq<Entry>, now: int)
    ensures Live(Live(es, now), now) == Live(es, now)
  {
    if es != [] {
      var init := es[..|es| - 1];
      LiveIdempotent(init, now);
      if Expired(es[|es| - 1], now) {
        assert Live(es, now) == Live(init, now);
      } else {
        var r := Live(init, now) + [es[|es| - 1]];
        assert Live(es, now) == r;
        assert r[..|r| - 1] == Live(init, now);
        assert Live(r, now) == Live(Live(init, now), now) + [es[|es| - 1]];
      }
    }
  }

  /** The order-preserving step of Live, for a sequence extended by one entry. */
  lemma {:induction false} LiveSnoc(es: seq<Entry>, k: nat, now: int)
    requires k < |es|
    ensures Live(es[..k + 1], now) == Live(es[..k], now) + (if Expired(es[k], now) then [] else [es[k]])
  {
    assert es[..k + 1][..k] == es[..k];
  }

  /** The same step for the close calls. */
  lemma {:induction false} ClosesSnoc(es: seq<Entry>, k: nat, now: int)
    requires k < |es|
    ensures ExpiredCloses(es[..k + 1], now) == ExpiredCloses(es[..k], now) + (if Expired(es[k], now) then [NotifyClose(es[k].handle)] else [])
  {
    assert es[..k + 1][..k] == es[..k];
  }

  /** Splitting a concatenation just before the first element of its second part. */
  lemma {:induction false} SplitAtHead<T>(a: seq<T>, b: seq<T>)
    requires b != []
    ensures (a + b)[|a|] == b[0]
    ensures (a + b)[..|a|] == a && (a + b)[|a| + 1..] == b[1..]
    ensures (a + [b[0]]) + b[1..] == a + b
  {
    assert (a + b)[..|a|] == a;
    assert (a + b)[|a| + 1..] == b[1..];
    assert (a + [b[0]]) + b[1..] == a + ([b[0]] + b[1..]);
    assert [b[0]] + b[1..] == b;
  }

  /**
   * The loop of clear_expired keeps the buffer equal to the survivors
   * among the first `k` original entries followed by the rest unexamined.
   */
  lemma {:induction false} ClearStep(orig: seq<Entry>, k: nat, now: int, cur: seq<Entry>, next: seq<Entry>, removed: bool)
    requires k < |orig| && cur == Live(orig[..k], now) + orig[k..]
    requires removed == Expired(cur[|Live(orig[..k], now)|], now)
    requires var i := |Live(orig[..k], now)|;
      next == if removed then cur[..i] + cur[i + 1..] else cur
    ensures cur[|Live(orig[..k], now)|] == orig[k]
    ensures next == Live(orig[..k + 1], now) + orig[k + 1..]
    ensures |Live(orig[..k + 1], now)| == |Live(orig[..k], now)| + (if removed then 0 else 1)
  {
    var kept := Live(orig[..k], now);
    SplitAtHead(kept, orig[k..]);
    assert orig[k..][0] == orig[k] && orig[k..][1..] == orig[k + 1..];
    LiveSnoc(orig, k, now);
  }

  class NotificationManager {
    const entries: array<Entry>
    var count: nat
    var initialized: bool

    ghost predicate Valid()
      reads this
    {
      entries.Length == MAX_NOTIFICATIONS && count <= MAX_NOTIFICATIONS
    }

    /** The shown notifications, oldest first. */
    ghost function Contents(): seq<Entry>
      reads this, entries
      requires Valid()
    {
      entries[..count]
    }

    /** The global record starts zeroed. */
    constructor ()
      ensures Valid() && count == 0 && !initialized
    {
      entries := new Entry[MAX_NOTIFICATIONS](_ => Entry(0, "", "", 0, 0));
      count := 0;
      initialized := false;
    }

    /** notification_manager_init: `notifyOk` is whether notify_init succeeded; on failure nothing is set. */
    method Init(notifyOk: bool)
      modifies this
      requires Valid()
      ensures Valid()
      ensures notifyOk ==> count == 0 && initialized
      ensures !notifyOk ==> count == old(count) && initialized == old(initialized)
    {
      if !notifyOk {
        return;
      }
      count := 0;
      initialized := true;
    }

    /** The closing loop of cleanup and clear_all. */
    method CloseAll(out: Outbox)
      modifies out
      requires Valid()
      ensures out.sent == old(out.sent) + Closes(Contents())
    {
      var i := 0;
      while i < count
        invariant 0 <= i <= count
        invariant out.sent == old(out.sent) + Closes(entries[..i])
      {
        assert entries[..i + 1][..i] == entries[..i];
        if entries[i].handle != 0 {
          out.sent := out.sent + [NotifyClose(entries[i].handle)];
        }
        i := i + 1;
      }
      assert entries[..i] == Contents();
    }

    /** notification_manager_cleanup: every notification is closed, the buffer emptied and libnotify shut down. */
    method Cleanup(out: Outbox)
      modifies this, out
      requires Valid()
      ensures Valid() && count == 0 && !initialized
      ensures out.sent == old(out.sent) + Closes(old(Contents())) + [NotifyUninit]
    {
      CloseAll(out);
      count := 0;
      initialized := false;
      out.sent := out.sent + [NotifyUninit];
    }

    /** notification_clear_all: as cleanup, but libnotify stays initialised. */
    method ClearAll(out: Outbox)
      modifies this, out
      requires Valid()
      ensures Valid() && count == 0 && initialized == old(initialized)
      ensures out.sent == old(out.sent) + Closes(old(Contents()))
    {
      CloseAll(out);
      count := 0;
    }

    /**
     * notification_show: ignored before initialisation and when the buffer
     * is full; otherwise the entry goes in at slot `count`, stamped with
     * `now`, and is shown. `handle` is the object libnotify creates.
     */
    method Show(summary: string, body: string, timeout: int, now: int, handle: nat, out: Outbox)
      modifies this, entries, out
      requires Valid()
      ensures Valid() && initialized == old(initialized)
      ensures !old(initialized) || old(count) >= MAX_NOTIFICATIONS ==>
        Contents() == old(Contents()) && out.sent == old(out.sent)
      ensures old(initialized) && old(count) < MAX_NOTIFICATIONS ==>
        Contents() == old(Contents()) + [Entry(handle, summary, body, now, timeout)] &&
        out.sent == old(out.sent) + [NotifyShow(handle, summary, body, timeout)]
    {
      if !initialized || count >= MAX_NOTIFICATIONS {
        return;
      }
      entries[count] := Entry(handle, summary, body, now, timeout);
      count := count + 1;
      out.sent := out.sent + [NotifyShow(handle, summary, body, timeout)];
    }

    /**
     * notification_clear_expired: an expired entry is closed and the rest
     * of the buffer moved up over it (the index stays put); a live entry is
     * stepped over. The survivors keep their order.
     */
    method ClearExpired(now: int, out: Outbox)
      modifies this`count, entries, out
      requires Valid()
      ensures Valid()
      ensures Contents() == Live(old(Contents()), now)
      ensures out.sent == old(out.sent) + ExpiredCloses(old(Contents()), now)
    {
      ghost var orig := Contents();
      ghost var k := 0;
      var i := 0;
      while i < count
        invariant Valid() && k <= |orig|
        invariant i == |Live(orig[..k], now)|
        invariant entries[..count] == Live(orig[..k], now) + orig[k..]
        invariant out.sent == old(out.sent) + ExpiredCloses(orig[..k], now)
        decreases count - i
      {
        i := ClearAt(i, k, orig, now, out);
        ClosesSnoc(orig, k, now);
        k := k + 1;
      }
      assert orig[..k] == orig;
    }

    /**
     * One pass of the loop body of clear_expired: the entry at `i`, the
     * `k`-th of the original buffer, is closed and dropped if it has
     * expired, and otherwise stepped over.
     */
    method ClearAt(i: nat, ghost k: nat, ghost orig: seq<Entry>, now: int, out: Outbox) returns (next: nat)
      modifies this`count, entries, out
      requires Valid() && i < count && k < |orig|
      requires i == |Live(orig[..k], now)| && entries[..count] == Live(orig[..k], now) + orig[k..]
      ensures Valid()
      ensures next == |Live(orig[..k + 1], now)| && entries[..count] == Live(orig[..k + 1], now) + orig[k + 1..]
      ensures out.sent == old(out.sent) + (if Expired(orig[k], now) then [NotifyClose(orig[k].handle)] else [])
      ensures count - next < old(count) - i
    {
      ghost var cur := entries[..count];
      var e := entries[i];
      var removed := now - e.timestamp > CDiv(e.timeout, 1000);
      if removed {
        out.sent := out.sent + [NotifyClose(e.handle)];
        ShiftDown(i);
        next := i;
      } else {
        next := i + 1;
      }
      ClearStep(orig, k, now, cur, entries[..count], removed);
    }

    /** The memmove of clear_expired: slot `i` is dropped and everything after it moves up one place. */
    method ShiftDown(i: nat)
      modifies this`count, entries
      requires Valid() && i < count
      ensures Valid() && count == old(count) - 1
      ensures entries[..count] == old(entries[..count])[..i] + old(entries[..count])[i + 1..]
    {
      ghost var before := entries[..count];
      forall j | i <= j < count - 1 {
        entries[j] := entries[j + 1];
      }
      count := count - 1;
      assert entries[..count] == before[..i] + before[i + 1..];
    }
  }
}
