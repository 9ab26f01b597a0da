/**
 * The panel's battery indicator (CanopyDE/src/widgets/battery.c): the
 * first UPower device of kind battery is followed, and its charge and
 * charging state choose one of eight icons. What UPower reports about a
 * device is a `Reading`; the charge is a real number of percent, as the
 * source's `gdouble` holds it.
 */
module Battery {
  import opened Wrappers

  /** UpDeviceKind and UpDeviceState values (libupower-glib). */
  const UP_DEVICE_KIND_BATTERY: nat := 2
  const UP_DEVICE_STATE_CHARGING: nat := 1

  /** The "percentage", "state" and "is-present" properties of a device. */
  datatype Reading = Reading(percentage: real, state: nat, present: bool)

  const CHARGING_SYMBOLIC: string := "-charging-symbolic"
  const CAUTION_CHARGING: string := "battery-caution" + CHARGING_SYMBOLIC
  const LOW_CHARGING: string := "battery-low" + CHARGING_SYMBOLIC
  const GOOD_CHARGING: string := "battery-good" + CHARGING_SYMBOLIC
  const FULL_CHARGING: string := "battery-full" + CHARGING_SYMBOLIC
  const CAUTION: string := "battery-caution-symbolic"
  const LOW: string := "battery-low-symbolic"
  const GOOD: string := "battery-good-symbolic"
  const FULL: string := "battery-full-symbolic"

  /** The icon update_battery_status shows for a present battery. */
  function Icon(charging: bool, percentage: real): (name: string)
    ensures charging ==> name in {CAUTION_CHARGING, LOW_CHARGING, GOOD_CHARGING, FULL_CHARGING}
    ensures !charging ==> name in {CAUTION, LOW, GOOD, FULL}
  {
    if charging then
      if percentage < 10.0 then CAUTION_CHARGING
      else if percentage < 30.0 then LOW_CHARGING
      else if percentage < 60.0 then GOOD_CHARGING
      else FULL_CHARGING
    else
      if percentage < 10.0 then CAUTION
      else if percentage < 30.0 then LOW
      else if percentage < 60.0 then GOOD
      else FULL
  }

  /** The charge band an icon stands for, read from the word after `battery-`: caution, low, good or full. */
  function Band(name: string): int
    requires |name| > 8
  {
    if name[8] == 'c' then 0
    else if name[8] == 'l' then 1
    else if name[8] == 'g' then 2
    else 3
  }

  /** The thresholds are 10, 30 and 60 percent whatever the charging state. */
  lemma {:induction false} IconBands(charging: bool, p: real)
    ensures |Icon(charging, p)| > 18
    ensures Band(Icon(charging, p)) == 0 <==> p < 10.0
    ensures Band(Icon(charging, p)) == 1 <==> 10.0 <= p < 30.0
    ensures Band(Icon(charging, p)) == 2 <==> 30.0 <= p < 60.0
    ensures Band(Icon(charging, p)) == 3 <==> 60.0 <= p
  {
  }

  /** The charging state is visible in the name: only the charging icons end in `-charging-symbolic`. */
  lemma {:induction false} IconMarksCharging(charging: bool, p: real)
    ensures var n := Icon(charging, p);
      |n| > 18 && (charging <==> n[|n| - 18..] == CHARGING_SYMBOLIC)
  {
    var n := Icon(charging, p);
    if charging {
      var stem := n[..|n| - 18];
      assert n == stem + CHARGING_SYMBOLIC;
    } else {
      assert n[|n| - 17] != 'c';
      assert n[|n| - 18..][1] == n[|n| - 17];
    }
  }

  /** A higher charge never shows a lower band. */
  lemma {:induction false} IconMonotone(charging: bool, p: real, q: real)
    requires p <= q
    ensures Band(Icon(charging, p)) <= Band(Icon(charging, q))
  {
    IconBands(charging, p);
    IconBands(charging, q);
  }

  /** The first device of kind battery from `i` on, as battery_new's loop finds it. */
  function FirstBattery(kinds: seq<nat>, i: nat): (r: Option<nat>)
    ensures r.Some? ==>
      i <= r.value < |kinds| && kinds[r.value] == UP_DEVICE_KIND_BATTERY &&
      forall j | i <= j < r.value :: kinds[j] != UP_DEVICE_KIND_BATTERY
    ensures r.None? ==> forall j | i <= j < |kinds| :: kinds[j] != UP_DEVICE_KIND_BATTERY
    decreases |kinds| - i
  {
    if i >= |kinds| then None
    else if kinds[i] == UP_DEVICE_KIND_BATTERY then Some(i)
    else FirstBattery(kinds, i + 1)
  }

  class BatteryWidget {
    /** The followed device, as its index among the devices UPower listed; None for a NULL device. */
    var device: Option<nat>
    var visible: bool
    var icon: string
    /** The charge the label shows. */
    var shown: real

    /** battery_new up to the device search: nothing followed, an empty icon and label. */
    constructor ()
      ensures device == None && icon == "" && shown == 0.0
    {
      device := None;
      visible := true;
      icon := "";
      shown := 0.0;
    }

    /**
     * update_battery_status: without a device, or with one that is not
     * present, the widget is hidden and the icon and label kept; otherwise
     * they show the charge and the widget is shown.
     */
    method UpdateStatus(reading: Reading)
      modifies this`visible, this`icon, this`shown
      ensures device.None? || !reading.present ==>
        !visible && icon == old(icon) && shown == old(shown)
      ensures device.Some? && reading.present ==>
        visible && shown == reading.percentage &&
        icon == Icon(reading.state == UP_DEVICE_STATE_CHARGING, reading.percentage)
    {
      if device.None? {
        visible := false;
        return;
      }
      if !reading.present {
        visible := false;
        return;
      }
      var name;
      if reading.state == UP_DEVICE_STATE_CHARGING {
        if reading.percentage < 10.0 {
          name := CAUTION_CHARGING;
        } else if reading.percentage < 30.0 {
          name := LOW_CHARGING;
        } else if reading.percentage < 60.0 {
          name := GOOD_CHARGING;
        } else {
          name := FULL_CHARGING;
        }
      } else {
        if reading.percentage < 10.0 {
          name := CAUTION;
        } else if reading.percentage < 30.0 {
          name := LOW;
        } else if reading.percentage < 60.0 {
          name := GOOD;
        } else {
          name := FULL;
        }
      }
      icon := name;
      shown := reading.percentage;
      visible := true;
    }

    /** The device search of battery_new over the kinds of the listed devices: the first battery, or none. */
    method SelectDevice(kinds: seq<nat>)
      modifies this`device
      requires device.None?
      ensures device == FirstBattery(kinds, 0)
    {
      var i := 0;
      while i < |kinds|
        invariant i <= |kinds| && device.None?
        invariant FirstBattery(kinds, i) == FirstBattery(kinds, 0)
      {
        if kinds[i] == UP_DEVICE_KIND_BATTERY {
          device := Some(i);
          break;
        }
        i := i + 1;
      }
    }
  }

  /** battery_new: the device is chosen and the widget updated once with its reading. */
  method New(kinds: seq<nat>, reading: Reading) returns (bat: BatteryWidget)
    ensures fresh(bat) && bat.device == FirstBattery(kinds, 0)
    ensures bat.device.None? || !reading.present ==> !bat.visible && bat.icon == "" && bat.shown == 0.0
    ensures bat.device.Some? && reading.present ==>
      bat.visible && bat.shown == reading.percentage && bat.icon == Icon(reading.state == UP_DEVICE_STATE_CHARGING, reading.percentage)
  {
    bat := new BatteryWidget();
    bat.SelectDevice(kinds);
    bat.UpdateStatus(reading);
  }

  /** battery_update: nothing happens when no battery data is attached to the widget. */
  method Update(bat: Option<BatteryWidget>, reading: Reading)
    modifies if bat.Some? then {bat.value} else {}
    ensures bat.Some? ==> bat.value.device == old(bat.value.device)
    ensures bat.Some? && (bat.value.device.None? || !reading.present) ==>
      !bat.value.visible && bat.value.icon == old(bat.value.icon) && bat.value.shown == old(bat.value.shown)
    ensures bat.Some? && bat.value.device.Some? && reading.present ==>
      bat.value.visible && bat.value.shown == reading.percentage &&
      bat.value.icon == Icon(reading.state == UP_DEVICE_STATE_CHARGING, reading.percentage)
  {
    if bat.Some? {
      bat.value.UpdateStatus(reading);
    }
  }
}
