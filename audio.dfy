/**
 * The window manager's ALSA mixer state (CanopyWM/src/audio.c,
 * CanopyWM/include/audio.h). The mixer and its "Master" element are
 * handles the ALSA library hands out, `None` standing for NULL; what the
 * library answers (the handles, the element's volume range) comes in as
 * parameters, and closing the mixer or setting a volume is a logged call.
 */
module Audio {
  import opened Wrappers
  import opened Foreign
  import opened CInt

  /**
   * The playback level audio_set_volume asks for: the percentage scaled
   * onto the element's range [min, max] with C's truncating division.
   */
  function Level(volume: int, min: int, max: int): int {
    CDiv(volume * (max - min), 100) + min
  }

  /** The ends of the percentage scale are the ends of the range. */
  lemma {:induction false} LevelEnds(min: int, max: int)
    ensures Level(0, min, max) == min
    ensures Level(100, min, max) == max
  {
    assert CDiv(100 * (max - min), 100) == max - min by {
      if max - min >= 0 {
        assert Abs(100 * (max - min)) == 100 * (max - min);
      } else {
        assert Abs(100 * (max - min)) == 100 * (min - max);
      }
    }
  }

  /** A percentage in 0..100 gives a level in the range. */
  lemma {:induction false} LevelInRange(volume: int, min: int, max: int)
    requires 0 <= volume <= 100 && min <= max
    ensures min <= Level(volume, min, max) <= max
  {
    LevelMonotone(0, volume, min, max);
    LevelMonotone(volume, 100, min, max);
    LevelEnds(min, max);
  }

  /** On a range with min <= max, a larger percentage never gives a smaller level. */
  lemma {:induction false} LevelMonotone(v: int, v': int, min: int, max: int)
    requires v <= v' && min <= max
    ensures Level(v, min, max) <= Level(v', min, max)
  {
    if max > min {
      MulMonotone(v, v', max - min);
    }
    CDivMonotone(v * (max - min), v' * (max - min), 100);
  }

  /** The percentage is not clamped: 150 on the range 0..100 asks for 150, and -1 on 0..1000 for -10. */
  lemma {:induction false} LevelUnclamped()
    ensures Level(150, 0, 100) == 150 > 100
    ensures Level(-1, 0, 1000) == -10 < 0
  {
  }

  class AudioManager {
    var mixer: Option<nat>
    var volumeElem: Option<nat>
    var muted: bool

    /** The static record starts zeroed. */
    constructor ()
      ensures mixer == None && volumeElem == None && !muted
    {
      mixer := None;
      volumeElem := None;
      muted := false;
    }

    /**
     * audio_manager_init: `openedMixer` is the mixer snd_mixer_open stores and
     * `master` what the lookup of the "Master" element returns. Failures
     * are not checked: whatever the library gave is stored.
     */
    method Init(openedMixer: Option<nat>, master: Option<nat>)
      modifies this
      ensures mixer == openedMixer && volumeElem == master && !muted
    {
      mixer := openedMixer;
      volumeElem := master;
      muted := false;
    }

    /** audio_manager_cleanup: an open mixer is closed and forgotten; the element is forgotten in any case. */
    method Cleanup(out: Outbox)
      modifies this, out
      ensures mixer == None && volumeElem == None && muted == old(muted)
      ensures out.sent == old(out.sent) + (if old(mixer).Some? then [MixerClose] else [])
    {
      if mixer.Some? {
        out.sent := out.sent + [MixerClose];
        mixer := None;
      }
      volumeElem := None;
    }

    /**
     * audio_set_volume: `min` and `max` are the element's playback range as
     * ALSA reports it; every channel is set to the scaled level.
     */
    method SetVolume(volume: int, min: int, max: int, out: Outbox)
      modifies out
      ensures out.sent == old(out.sent) + [SetPlaybackVolume(Level(volume, min, max))]
    {
      var val := CDiv(volume * (max - min), 100) + min;
      out.sent := out.sent + [SetPlaybackVolume(val)];
    }
  }
}
