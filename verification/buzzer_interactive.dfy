/**
 * buzzer_lgpio_interactive.c: the up and down arrows step the volume within
 * 0..8, the right and left arrows step the tone frequency, and after every
 * input that was read completely the volume pins and the tone are applied
 * again; 'q' ends the loop, after which the tone stops and the volume is
 * set to 0.
 */
module BuzzerInteractive {
  import opened Gpio
  import opened Volume
  import opened Keys

  const START_VOLUME: int := 1

  /** current_vol after one input: 'A' steps up below MAX_VOLUME, 'B' steps down above MIN_VOLUME. */
  function VolumeAfter(vol: int, e: Input): (v: int)
    ensures !IsArrow(e, 'A') && !IsArrow(e, 'B') ==> v == vol
    ensures MIN_VOLUME <= vol <= MAX_VOLUME ==> MIN_VOLUME <= v <= MAX_VOLUME
  {
    if IsArrow(e, 'A') then (if vol < MAX_VOLUME then vol + 1 else vol)
    else if IsArrow(e, 'B') then (if vol > MIN_VOLUME then vol - 1 else vol)
    else vol
  }

  /** The settings a run of the loop ends with. */
  predicate InRange(vol: int, freq: int)
  {
    MIN_VOLUME <= vol <= MAX_VOLUME && Reachable(freq)
  }

  /**
   * Volume and frequency after reading inputs[from..] one by one, stopping
   * at 'q' or at the end of input.
   */
  function Replay(vol: int, freq: int, inputs: seq<Input>, from: nat): (s: (int, int))
    requires from <= |inputs|
    ensures InRange(vol, freq) ==> InRange(s.0, s.1)
    decreases |inputs| - from
  {
    if from == |inputs| || inputs[from] == Key('q') then (vol, freq)
    else Replay(VolumeAfter(vol, inputs[from]), FreqAfter(freq, inputs[from]), inputs, from + 1)
  }

  /** Plain keys other than 'q', escapes that are not arrows and cut escapes change neither setting. */
  lemma IgnoredInput(vol: int, freq: int, inputs: seq<Input>, from: nat)
    requires from < |inputs| && inputs[from] != Key('q')
    requires !IsArrow(inputs[from], 'A') && !IsArrow(inputs[from], 'B')
    requires !IsArrow(inputs[from], 'C') && !IsArrow(inputs[from], 'D')
    ensures Replay(vol, freq, inputs, from) == Replay(vol, freq, inputs, from + 1)
  {
  }

  /** setup_gpio once the chip is open and the pins claimed: volume 0, tone stopped. */
  method Setup(chip: Chip)
    modifies chip
    ensures Silent(chip, PIN_VOL_3_HEADER)
  {
    SetVolume(chip, 0);
    LgStopTone(chip);
  }

  class Buzzer {
    const chip: Chip
    var volume: int
    var freq: int

    ghost predicate Valid()
      reads this
    {
      InRange(volume, freq)
    }

    /** The settings main starts with. */
    constructor (chip: Chip)
      ensures this.chip == chip && volume == START_VOLUME && freq == START_FREQ && Valid()
    {
      this.chip := chip;
      volume := START_VOLUME;
      freq := START_FREQ;
      new;
      FreqExtremes();
    }

    /** The current settings are on the pins: the volume levels and a sounding tone at freq. */
    ghost predicate Applied()
      reads this, chip
    {
      Shows(chip.level, PIN_VOL_3_HEADER, Levels(volume))
      && Sounding(chip) && chip.frequency[PIN_CLOCK] == freq
    }

    /** set_volume(current_vol); start_tone(current_freq). */
    method Apply()
      requires Valid()
      modifies chip
      ensures chip.level == WithLevels(old(chip.level), PIN_VOL_3_HEADER, Levels(volume))
      ensures chip.frequency == old(chip.frequency)[PIN_CLOCK := freq]
      ensures chip.duty == old(chip.duty)[PIN_CLOCK := LG_DUTY_50]
      ensures Applied()
    {
      SetVolume(chip, volume);
      LgStartTone(chip, freq);
    }

    /**
     * One pass of main's loop: 'q' quits; a cut escape skips the pass; any
     * other input steps the settings and applies them.
     */
    method Step(e: Input) returns (quit: bool)
      requires Valid()
      modifies this, chip
      ensures Valid()
      ensures quit <==> e == Key('q')
      ensures !quit ==> volume == VolumeAfter(old(volume), e) && freq == FreqAfter(old(freq), e)
      ensures quit ==> volume == old(volume) && freq == old(freq)
      ensures quit || e.Cut? ==> chip.level == old(chip.level) && chip.frequency == old(chip.frequency) && chip.duty == old(chip.duty)
      ensures !quit && !e.Cut? ==> Applied()
    {
      if e == Key('q') {
        return true;
      }
      if e.Cut? {
        return false;
      }
      Adjust(e);
      Apply();
      quit := false;
    }

    /** The switch on the escape sequence: the arrows step the volume and the frequency within their bounds. */
    method Adjust(e: Input)
      requires Valid()
      modifies this
      ensures Valid()
      ensures volume == VolumeAfter(old(volume), e) && freq == FreqAfter(old(freq), e)
    {
      match e {
        case Escape(s0, s1) =>
          if s0 == '[' {
            if s1 == 'A' {
              if volume < MAX_VOLUME { volume := volume + 1; }
            } else if s1 == 'B' {
              if volume > MIN_VOLUME { volume := volume - 1; }
            } else if s1 == 'C' {
              if freq < MAX_FREQ { freq := freq + FREQ_STEP; }
            } else if s1 == 'D' {
              if freq > MIN_FREQ { freq := freq - FREQ_STEP; }
            }
          }
        case _ =>
      }
    }

    /** The end of main: stop the tone, volume 0. */
    method Cleanup()
      modifies chip
      ensures Silent(chip, PIN_VOL_3_HEADER)
    {
      LgStopTone(chip);
      SetVolume(chip, 0);
    }

    /**
     * main after setup_gpio: apply the start settings, read inputs until 'q'
     * or the end of input, then clean up. Throughout the loop the tone
     * sounds at the current frequency, which never drops to zero.
     */
    method Run(inputs: seq<Input>)
      requires Valid()
      modifies this, chip
      ensures Valid()
      ensures (volume, freq) == Replay(old(volume), old(freq), inputs, 0)
      ensures Silent(chip, PIN_VOL_3_HEADER)
    {
      Apply();
      var j := 0;
      while j < |inputs|
        invariant Valid() && 0 <= j <= |inputs|
        invariant Applied()
        invariant Replay(old(volume), old(freq), inputs, 0) == Replay(volume, freq, inputs, j)
      {
        var quit := Step(inputs[j]);
        if quit {
          break;
        }
        j := j + 1;
      }
      Cleanup();
    }
  }
}
