/**
 * The table of connected outputs (CanopyWM/src/display_manager.c,
 * CanopyWM/include/display_manager.h): rebuilt from the RandR outputs into
 * a 16-slot buffer, searched for the display under a point, and holding
 * each display's brightness. What RandR reports for an output (its name,
 * whether it is connected, its CRTC's geometry) is an `Output` value.
 */
module DisplayManagement {
  import opened Wrappers
  import opened Foreign

  const MAX_DISPLAYS: nat := 16
  const DEFAULT_BRIGHTNESS: int := 100

  /** What the output and CRTC queries report for one RandR output. */
  datatype Output = Output(name: string, connected: bool, x: int, y: int, width: nat, height: nat)

  /**
   * One slot of the table. `info` is the output's name while the slot holds
   * output information and `None` for a NULL `info` pointer.
   */
  datatype Display = Display(info: Option<string>, x: int, y: int, width: nat, height: nat, brightness: int)

  /** The slot a connected output gets: its own geometry, full brightness. */
  function FromOutput(o: Output): Display {
    Display(Some(o.name), o.x, o.y, o.width, o.height, DEFAULT_BRIGHTNESS)
  }

  /** The table display_update_all builds: the connected outputs, in output order. */
  function Connected(outputs: seq<Output>): (ds: seq<Display>)
    ensures |ds| <= |outputs|
  {
    if outputs == [] then []
    else
      var last := outputs[|outputs| - 1];
      Connected(outputs[..|outputs| - 1]) + (if last.connected then [FromOutput(last)] else [])
  }

  /** Every slot of the rebuilt table comes from a connected output and starts at full brightness. */
  lemma {:induction false} ConnectedOnly(outputs: seq<Output>)
    ensures forall d | d in Connected(outputs) :: d.brightness == DEFAULT_BRIGHTNESS && d.info.Some?
    ensures forall d | d in Connected(outputs) :: exists o | o in outputs :: o.connected && d == FromOutput(o)
    ensures forall o | o in outputs && o.connected :: FromOutput(o) in Connected(outputs)
  {
    if outputs != [] {
      var init := outputs[..|outputs| - 1];
      ConnectedOnly(init);
      assert outputs == init + [outputs[|outputs| - 1]];
    }
  }

  /** `a` converted to `unsigned int`, as C does when an `int` meets an `unsigned int`. */
  function U32(a: int): nat {
    a % 0x1_0000_0000
  }

  /**
   * The containment test of display_get_at as C evaluates it: `d->x +
   * d->width` has type `unsigned int`, so the far-edge comparisons are
   * made on the unsigned conversions of both sides.
   */
  predicate Hit(d: Display, px: int, py: int) {
    px >= d.x && U32(px) < U32(d.x + d.width) &&
    py >= d.y && U32(py) < U32(d.y + d.height)
  }

  /** The half-open rectangle [x, x + width) x [y, y + height) of a display. */
  predicate InRect(d: Display, px: int, py: int) {
    d.x <= px < d.x + d.width && d.y <= py < d.y + d.height
  }

  /** On the non-negative coordinates every screen layout uses, the C test is exactly the rectangle. */
  lemma {:induction false} HitIsRect(d: Display, px: int, py: int)
    requires 0 <= d.x && 0 <= d.y && 0 <= px && 0 <= py
    requires d.x + d.width < 0x1_0000_0000 && d.y + d.height < 0x1_0000_0000
    requires px < 0x1_0000_0000 && py < 0x1_0000_0000
    ensures Hit(d, px, py) <==> InRect(d, px, py)
  {
  }

  /**
   * Left of or above the origin the unsigned comparison misses points the
   * rectangle holds: a display at x = -100 that is 1920 wide does not
   * report the point (-50, 10).
   */
  lemma {:induction false} HitMissesNegative()
    ensures var d := Display(Some("left"), -100, 0, 1920, 1080, 100);
      InRect(d, -50, 10) && !Hit(d, -50, 10)
  {
  }

  /** The stored brightness: the request clamped to 0..100. */
  function ClampBrightness(b: int): (r: int)
    ensures 0 <= r <= 100
    ensures 0 <= b <= 100 ==> r == b
    ensures b < 0 ==> r == 0
    ensures b > 100 ==> r == 100
  {
    var low := if b < 0 then 0 else b;
    if low > 100 then 100 else low
  }

  class DisplayManager {
    const displays: array<Display>
    var numDisplays: nat

    ghost predicate Valid()
      reads this
    {
      displays.Length == MAX_DISPLAYS && numDisplays <= MAX_DISPLAYS
    }

    /** The displays in the table, in slot order. */
    ghost function Table(): seq<Display>
      reads this, displays
      requires Valid()
    {
      displays[..numDisplays]
    }

    /**
     * display_manager_init: an empty table of 16 slots, then a rebuild from
     * `outputs`. The screen-resources handle is not part of the model.
     */
    constructor Init(outputs: seq<Output>)
      requires |Connected(outputs)| <= MAX_DISPLAYS
      ensures Valid() && fresh(displays)
      ensures Table() == Connected(outputs)
    {
      displays := new Display[MAX_DISPLAYS](_ => Display(None, 0, 0, 0, 0, 0));
      numDisplays := 0;
      new;
      UpdateAll(outputs);
    }

    /**
     * display_update_all: the table is emptied and refilled with the
     * connected outputs in order. The source writes without a bound check,
     * so at most 16 connected outputs is a precondition. Freeing the old
     * output information is not part of the model.
     */
    method UpdateAll(outputs: seq<Output>)
      modifies this, displays
      requires Valid()
      requires |Connected(outputs)| <= MAX_DISPLAYS
      ensures Valid()
      ensures Table() == Connected(outputs)
    {
      numDisplays := 0;
      var i := 0;
      while i < |outputs|
        invariant 0 <= i <= |outputs|
        invariant Valid()
        invariant Table() == Connected(outputs[..i])
      {
        assert outputs[..i + 1][..i] == outputs[..i];
        ConnectedGrows(outputs, i);
        ConnectedPrefix(outputs, i + 1);
        var o := outputs[i];
        if o.connected {
          displays[numDisplays] := Display(Some(o.name), o.x, o.y, o.width, o.height, DEFAULT_BRIGHTNESS);
          numDisplays := numDisplays + 1;
        }
        i := i + 1;
      }
      assert outputs[..i] == outputs;
    }

    /** display_get_at: the first display whose rectangle holds the point, or none (NULL). */
    method GetAt(px: int, py: int) returns (r: Option<nat>)
      requires Valid()
      ensures r.Some? ==> r.value < numDisplays && Hit(displays[r.value], px, py)
      ensures r.Some? ==> forall j | 0 <= j < r.value :: !Hit(displays[j], px, py)
      ensures r.None? <==> forall j | 0 <= j < numDisplays :: !Hit(displays[j], px, py)
    {
      var i := 0;
      while i < numDisplays
        invariant 0 <= i <= numDisplays
        invariant forall j | 0 <= j < i :: !Hit(displays[j], px, py)
      {
        var d := displays[i];
        if px >= d.x && U32(px) < U32(d.x + d.width) && py >= d.y && U32(py) < U32(d.y + d.height) {
          return Some(i);
        }
        i := i + 1;
      }
      return None;
    }

    /**
     * display_set_brightness: `d` is the slot the pointer designates (None
     * for NULL). Without a display or its output information nothing
     * happens; otherwise the clamped value is stored and sent to logind for
     * the output's backlight.
     */
    method SetBrightness(d: Option<nat>, brightness: int, out: Outbox)
      modifies displays, out
      requires Valid()
      requires d.Some? ==> d.value < numDisplays
      ensures d.None? || displays[d.value].info.None? ==>
        displays[..] == old(displays[..]) && out.sent == old(out.sent)
      ensures d.Some? && old(displays[d.value]).info.Some? ==>
        displays[..] == old(displays[..])[d.value := old(displays[d.value]).(brightness := ClampBrightness(brightness))] &&
        out.sent == old(out.sent) + [Call.SetBrightness(old(displays[d.value]).info.value, ClampBrightness(brightness))]
    {
      if d.None? || displays[d.value].info.None? {
        return;
      }
      var level := brightness;
      if level < 0 {
        level := 0;
      }
      if level > 100 {
        level := 100;
      }
      var slot := displays[d.value];
      displays[d.value] := slot.(brightness := level);
      out.sent := out.sent + [Call.SetBrightness(slot.info.value, level)];
    }
  }

  /** The step of Connected for a sequence of outputs extended by one. */
  lemma {:induction false} ConnectedGrows(outputs: seq<Output>, i: nat)
    requires i < |outputs|
    ensures Connected(outputs[..i + 1]) ==
      Connected(outputs[..i]) + (if outputs[i].connected then [FromOutput(outputs[i])] else [])
  {
    assert outputs[..i + 1][..i] == outputs[..i];
  }

  /** A prefix of the outputs has no more connected ones than the whole. */
  lemma {:induction false} ConnectedPrefix(outputs: seq<Output>, i: nat)
    requires i <= |outputs|
    ensures |Connected(outputs[..i])| <= |Connected(outputs)|
  {
    if i < |outputs| {
      var init := outputs[..|outputs| - 1];
      assert init[..i] == outputs[..i];
      ConnectedPrefix(init, i);
    } else {
      assert outputs[..i] == outputs;
    }
  }
}
