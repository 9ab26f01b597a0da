/**
 * The panel's clock and its calendar reminders
 * (CanopyDE/src/widgets/clock.c): the `HH:MM:SS` label, and the list of
 * calendar events checked by a timer, where an event that has come due
 * plays a sound, is announced on the console and is removed. The clock
 * (`time`), the local-time conversions (`localtime`, `mktime`) and the
 * widgets' contents come in as parameters.
 */
module Calendar {
  import opened Foreign

  // -----------------------------------------------------------------------
  // The clock label

  /** A broken-down time, as `struct tm` holds it. */
  datatype Tm = Tm(year: int, mon: int, mday: int, hour: int, min: int, sec: int)

  /** `%02d`-style two decimal digits. */
  function TwoDigits(n: int): (r: string)
    requires 0 <= n < 100
    ensures |r| == 2 && forall k | 0 <= k < 2 :: '0' <= r[k] <= '9'
  {
    [('0' as int + n / 10) as char, ('0' as int + n % 10) as char]
  }

  /** The value of two decimal digits. */
  function DigitsValue(s: string): int
    requires |s| == 2
  {
    (s[0] as int - '0' as int) * 10 + (s[1] as int - '0' as int)
  }

  /** strftime with "%H:%M:%S". */
  function ClockText(tm: Tm): (r: string)
    requires 0 <= tm.hour < 24 && 0 <= tm.min < 60 && 0 <= tm.sec < 61
  {
    TwoDigits(tm.hour) + ":" + TwoDigits(tm.min) + ":" + TwoDigits(tm.sec)
  }

  /** The label is eight characters, and the three fields can be read back from it. */
  lemma {:induction false} ClockTextReadsBack(tm: Tm)
    requires 0 <= tm.hour < 24 && 0 <= tm.min < 60 && 0 <= tm.sec < 61
    ensures var t := ClockText(tm);
      |t| == 8 && t[2] == ':' && t[5] == ':' &&
      DigitsValue(t[0..2]) == tm.hour && DigitsValue(t[3..5]) == tm.min && DigitsValue(t[6..8]) == tm.sec
  {
    var t := ClockText(tm);
    assert t[0..2] == TwoDigits(tm.hour);
    assert t[3..5] == TwoDigits(tm.min);
    assert t[6..8] == TwoDigits(tm.sec);
  }

  // -----------------------------------------------------------------------
  // Calendar events

  datatype Event = Event(time: int, description: string)

  const EVENT_SOUND: string := "paplay /usr/share/sounds/freedesktop/stereo/complete.oga"

  /** An event is due once its time is not after `now`. */
  predicate Due(e: Event, now: int) {
    e.time <= now
  }

  /** The events check_events keeps, in their order. */
  function Pending(es: seq<Event>, now: int): (r: seq<Event>)
    ensures |r| <= |es|
  {
    if es == [] then []
    else Pending(es[..|es| - 1], now) + (if Due(es[|es| - 1], now) then [] else [es[|es| - 1]])
  }

  /** What check_events does for each due event, in list order: the sound, then the console line. */
  function Triggered(es: seq<Event>, now: int): seq<Call> {
    if es == [] then []
    else
      var e := es[|es| - 1];
      Triggered(es[..|es| - 1], now) + (if Due(e, now) then [Spawn(EVENT_SOUND), PrintTriggered(e.description)] else [])
  }

  /** How many events are due. */
  function CountDue(es: seq<Event>, now: int): (n: nat)
    ensures n + |Pending(es, now)| == |es|
  {
    if es == [] then 0 else CountDue(es[..|es| - 1], now) + (if Due(es[|es| - 1], now) then 1 else 0)
  }

  /** Exactly the events not yet due are kept. */
  lemma {:induction false} PendingExactly(es: seq<Event>, now: int)
    ensures forall e :: e in Pending(es, now) <==> e in es && !Due(e, now)
  {
    if es != [] {
      PendingExactly(es[..|es| - 1], now);
      assert es == es[..|es| - 1] + [es[|es| - 1]];
    }
  }

  /** Every due event plays the sound once and makes two calls in all; nothing else is done. */
  lemma {:induction false} OneSoundPerEvent(es: seq<Event>, now: int)
    ensures multiset(Triggered(es, now))[Spawn(EVENT_SOUND)] == CountDue(es, now)
    ensures |Triggered(es, now)| == 2 * CountDue(es, now)
  {
    if es != [] {
      var init := es[..|es| - 1];
      OneSoundPerEvent(init, now);
      var step := if Due(es[|es| - 1], now) then [Spawn(EVENT_SOUND), PrintTriggered(es[|es| - 1].description)] else [];
      assert Triggered(es, now) == Triggered(init, now) + step;
      assert multiset(Triggered(es, now)) == multiset(Triggered(init, now)) + multiset(step);
    }
  }

  /** Every due event is announced with its description. */
  lemma {:induction false} DueAnnounced(es: seq<Event>, now: int)
    ensures forall e | e in es && Due(e, now) :: PrintTriggered(e.description) in Triggered(es, now)
  {
    if es != [] {
      var init := es[..|es| - 1];
      DueAnnounced(init, now);
      assert es == init + [es[|es| - 1]];
    }
  }

  /** A later check removes everything an earlier one did: checking at `t1` and then at `t2 >= t1` is one check at `t2`. */
  lemma {:induction false} PendingLater(es: seq<Event>, t1: int, t2: int)
    requires t1 <= t2
    ensures Pending(Pending(es, t1), t2) == Pending(es, t2)
  {
    if es != [] {
      var init := es[..|es| - 1];
      var e := es[|es| - 1];
      PendingLater(init, t1, t2);
      if !Due(e, t1) {
        var r := Pending(init, t1) + [e];
        assert r[..|r| - 1] == Pending(init, t1);
        assert Pending(es, t1) == r;
        assert Pending(r, t2) == Pending(Pending(init, t1), t2) + (if Due(e, t2) then [] else [e]);
      } else {
        assert Due(e, t2);
        assert Pending(es, t1) == Pending(init, t1) + [];
        assert Pending(es, t1) == Pending(init, t1);
        assert Pending(es, t2) == Pending(init, t2) + [];
        assert Pending(es, t2) == Pending(init, t2);
      }
    }
  }

  /** The loop step of check_events: the list is the kept events of the first k originals, followed by the rest. */
  lemma {:induction false} CheckStep(orig: seq<Event>, k: nat, now: int, cur: seq<Event>)
    requires k < |orig| && cur == Pending(orig[..k], now) + orig[k..]
    ensures |Pending(orig[..k], now)| < |cur| && cur[|Pending(orig[..k], now)|] == orig[k]
    ensures var i := |Pending(orig[..k], now)|;
      Pending(orig[..k + 1], now) + orig[k + 1..] ==
        if Due(orig[k], now) then cur[..i] + cur[i + 1..] else cur
    ensures Triggered(orig[..k + 1], now) == Triggered(orig[..k], now) +
      (if Due(orig[k], now) then [Spawn(EVENT_SOUND), PrintTriggered(orig[k].description)] else [])
  {
    var kept := Pending(orig[..k], now);
    assert orig[..k + 1][..k] == orig[..k];
    assert cur[..|kept|] == kept;
    assert cur[|kept|..] == orig[k..];
    assert orig[k..] == [orig[k]] + orig[k + 1..];
    assert cur[|kept| + 1..] == orig[k + 1..];
    if !Due(orig[k], now) {
      assert Pending(orig[..k + 1], now) + orig[k + 1..] == kept + ([orig[k]] + orig[k + 1..]);
    }
  }

  /** The struct tm add_calendar_event fills: years counted from 1900, the month as given (0-11), no seconds. */
  function EventTm(year: int, month: int, day: int, hour: int, min: int): (tm: Tm)
    ensures tm.year + 1900 == year && tm.mon == month && tm.mday == day
    ensures tm.hour == hour && tm.min == min && tm.sec == 0
  {
    Tm(year - 1900, month, day, hour, min, 0)
  }

  /** The hour and minute of an event added with the button: 09:00. */
  const BUTTON_HOUR: int := 9
  const BUTTON_MIN: int := 0

  class EventList {
    var events: seq<Event>

    /** The static list starts empty. */
    constructor ()
      ensures events == []
    {
      events := [];
    }

    /**
     * check_events: each due event plays the sound, is announced and is
     * unlinked where it stands; the walk goes on from its successor.
     */
    method CheckEvents(now: int, out: Outbox)
      modifies this, out
      ensures events == Pending(old(events), now)
      ensures out.sent == old(out.sent) + Triggered(old(events), now)
    {
      ghost var orig := events;
      ghost var k := 0;
      var i := 0;
      while i < |events|
        invariant k <= |orig| && i == |Pending(orig[..k], now)|
        invariant events == Pending(orig[..k], now) + orig[k..]
        invariant out.sent == old(out.sent) + Triggered(orig[..k], now)
        decreases |events| - i
      {
        i := CheckAt(i, k, orig, now, out);
        k := k + 1;
      }
      assert orig[..k] == orig;
    }

    /** One pass of the loop of check_events, on the entry at `i`, the k-th of the original list. */
    method CheckAt(i: nat, ghost k: nat, ghost orig: seq<Event>, now: int, out: Outbox) returns (next: nat)
      modifies this, out
      requires k < |orig| && i == |Pending(orig[..k], now)|
      requires events == Pending(orig[..k], now) + orig[k..]
      ensures next == |Pending(orig[..k + 1], now)| && events == Pending(orig[..k + 1], now) + orig[k + 1..]
      ensures var step := if Due(orig[k], now) then [Spawn(EVENT_SOUND), PrintTriggered(orig[k].description)] else [];
        out.sent == old(out.sent) + step && Triggered(orig[..k + 1], now) == Triggered(orig[..k], now) + step
      ensures |events| - next < |old(events)| - i
    {
      CheckStep(orig, k, now, events);
      var event := events[i];
      if event.time <= now {
        out.sent := out.sent + [Spawn(EVENT_SOUND)];
        out.sent := out.sent + [PrintTriggered(event.description)];
        events := events[..i] + events[i + 1..];
        next := i;
      } else {
        next := i + 1;
      }
    }

    /**
     * add_calendar_event: the event's time is what `mktime` makes of the
     * filled-in fields, it goes at the end of the list, and the addition
     * is announced with that time.
     */
    method AddEvent(year: int, month: int, day: int, hour: int, min: int, description: string, mktime: Tm -> int,
                    out: Outbox)
      modifies this, out
      ensures events == old(events) + [Event(mktime(EventTm(year, month, day, hour, min)), description)]
      ensures out.sent == old(out.sent) + [PrintAdded(description, mktime(EventTm(year, month, day, hour, min)))]
    {
      var tm := Tm(year - 1900, month, day, hour, min, 0);
      var eventTime := mktime(tm);
      events := events + [Event(eventTime, description)];
      out.sent := out.sent + [PrintAdded(description, eventTime)];
    }

    /**
     * on_add_event_clicked: with a non-empty description, an event at
     * 09:00 on the selected date is added and the entry cleared; an empty
     * description changes nothing. The result is the entry's new text.
     */
    method OnAddEventClicked(year: nat, month: nat, day: nat, entry: string, mktime: Tm -> int, out: Outbox)
      returns (newEntry: string)
      modifies this, out
      ensures entry == [] ==> events == old(events) && newEntry == entry && out.sent == old(out.sent)
      ensures entry != [] ==>
        var t := mktime(EventTm(year, month, day, BUTTON_HOUR, BUTTON_MIN));
        events == old(events) + [Event(t, entry)] && newEntry == [] &&
        out.sent == old(out.sent) + [PrintAdded(entry, t)]
    {
      if entry != [] {
        AddEvent(year, month, day, BUTTON_HOUR, BUTTON_MIN, entry, mktime, out);
        return [];
      }
      return entry;
    }
  }
}
