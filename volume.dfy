/**
 * The shell's volume button (CanopyDE/src/widgets/volume.c): the ALSA
 * level as a percentage of the element's range, the icon that percentage
 * selects, and the checks made while the widget is built. GTK widget
 * construction is not part of the model; the widget is its mixer state and
 * the name of the icon it shows. What ALSA answers comes in as parameters.
 */
module Volume {
  import opened Wrappers
  import opened Foreign
  import opened CInt

  const MUTED_ICON: string := "audio-volume-muted-symbolic"
  const LOW_ICON: string := "audio-volume-low-symbolic"
  const MEDIUM_ICON: string := "audio-volume-medium-symbolic"
  const HIGH_ICON: string := "audio-volume-high-symbolic"

  /** The level `current` as a percentage of [min, max], C division; 0 on an empty range. */
  function Percent(current: int, min: int, max: int): int {
    if max != min then CDiv((current - min) * 100, max - min) else 0
  }

  /** A level inside a non-empty range is a percentage in 0..100; its ends give 0 and 100. */
  lemma {:induction false} PercentInRange(current: int, min: int, max: int)
    requires min < max && min <= current <= max
    ensures 0 <= Percent(current, min, max) <= 100
    ensures Percent(min, min, max) == 0 && Percent(max, min, max) == 100
  {
    var d := max - min;
    var n := current - min;
    CDivAgreesOnNonNegative(n * 100, d);
    CDivAgreesOnNonNegative(d * 100, d);
    DivNonNegative(n * 100, d);
    MulMonotone(n, d, 100);
    DivMonotone(n * 100, d * 100, d);
    DivExact(d * 100, d, 100);
  }

  /** update_volume_icon's buckets. */
  function Icon(percent: int): (name: string)
    ensures name in {MUTED_ICON, LOW_ICON, MEDIUM_ICON, HIGH_ICON}
  {
    if percent == 0 then MUTED_ICON
    else if percent < 33 then LOW_ICON
    else if percent < 66 then MEDIUM_ICON
    else HIGH_ICON
  }

  /**
   * Each icon is chosen by exactly one band of percentages, negative ones
   * falling in the "low" band.
   */
  lemma {:induction false} IconBands(percent: int)
    ensures Icon(percent) == MUTED_ICON <==> percent == 0
    ensures Icon(percent) == LOW_ICON <==> percent != 0 && percent < 33
    ensures Icon(percent) == MEDIUM_ICON <==> 33 <= percent < 66
    ensures Icon(percent) == HIGH_ICON <==> percent >= 66
  {
    assert MUTED_ICON[13] == 'm' && LOW_ICON[13] == 'l' && MEDIUM_ICON[13] == 'm' && HIGH_ICON[13] == 'h';
    assert MUTED_ICON[14] == 'u' && MEDIUM_ICON[14] == 'e';
  }

  /** An empty range always shows the muted icon, whatever the level. */
  lemma {:induction false} EmptyRangeMuted(current: int, level: int)
    ensures Icon(Percent(current, level, level)) == MUTED_ICON
  {
  }

  /** What volume_new stores: the mixer, its Master element and the element's range, and the icon shown. */
  class VolumeWidget {
    var mixer: nat
    var elem: nat
    var minVolume: int
    var maxVolume: int
    var icon: string

    constructor (mixer: nat, elem: nat, minVolume: int, maxVolume: int)
      ensures this.mixer == mixer && this.elem == elem
      ensures this.minVolume == minVolume && this.maxVolume == maxVolume
      ensures icon == HIGH_ICON
    {
      this.mixer := mixer;
      this.elem := elem;
      this.minVolume := minVolume;
      this.maxVolume := maxVolume;
      icon := HIGH_ICON;
    }

    /** update_volume_icon: `current` is the front-left level ALSA reports. */
    method UpdateIcon(current: int)
      modifies this`icon
      ensures icon == Icon(Percent(current, minVolume, maxVolume))
    {
      var percent := 0;
      if maxVolume != minVolume {
        percent := CDiv((current - minVolume) * 100, maxVolume - minVolume);
      }
      if percent == 0 {
        icon := MUTED_ICON;
      } else if percent < 33 {
        icon := LOW_ICON;
      } else if percent < 66 {
        icon := MEDIUM_ICON;
      } else {
        icon := HIGH_ICON;
      }
    }
  }

  /** How far volume_new gets with the mixer. */
  datatype Mixer = Mixer(openOk: bool, handle: nat, attachOk: bool, master: Option<nat>)

  /**
   * volume_new: NULL when the mixer cannot be opened, attached, or has no
   * Master element, the mixer being closed again in the last two cases;
   * otherwise a widget over the Master element's range whose icon reflects
   * the level `current`.
   */
  method New(m: Mixer, min: int, max: int, current: int, out: Outbox) returns (r: Option<VolumeWidget>)
    modifies out
    ensures r.None? <==> !m.openOk || !m.attachOk || m.master.None?
    ensures m.openOk && (!m.attachOk || m.master.None?) ==> out.sent == old(out.sent) + [MixerClose]
    ensures !m.openOk || (m.attachOk && m.master.Some?) ==> out.sent == old(out.sent)
    ensures r.Some? ==>
      fresh(r.value) && r.value.mixer == m.handle && r.value.elem == m.master.value &&
      r.value.minVolume == min && r.value.maxVolume == max &&
      r.value.icon == Icon(Percent(current, min, max))
  {
    if !m.openOk {
      return None;
    }
    if !m.attachOk {
      out.sent := out.sent + [MixerClose];
      return None;
    }
    if m.master.None? {
      out.sent := out.sent + [MixerClose];
      return None;
    }
    var vol := new VolumeWidget(m.handle, m.master.value, min, max);
    vol.UpdateIcon(current);
    return Some(vol);
  }

  /** volume_update: nothing without widget data, otherwise the icon is refreshed. */
  method Update(vol: Option<VolumeWidget>, current: int)
    modifies if vol.Some? then {vol.value} else {}
    ensures vol.Some? ==> vol.value.icon == Icon(Percent(current, vol.value.minVolume, vol.value.maxVolume))
    ensures vol.Some? ==>
      vol.value.mixer == old(vol.value.mixer) && vol.value.elem == old(vol.value.elem) &&
      vol.value.minVolume == old(vol.value.minVolume) && vol.value.maxVolume == old(vol.value.maxVolume)
  {
    if vol.Some? {
      vol.value.UpdateIcon(current);
    }
  }
}
