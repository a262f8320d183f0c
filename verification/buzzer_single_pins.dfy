/**
 * buzzer_interactive_single_pins.c: keys 'a', 's', 'd' and 'f' toggle
 * volume pins 3, 2, 1 and 0 one at a time, with pins 1 and 0 never high
 * together; the right and left arrows step the tone frequency; after every
 * input read completely the four levels and the tone are applied again.
 */
module BuzzerSinglePins {
  import opened Gpio
  import opened Volume
  import opened Keys

  /**
   * The pin flags after a plain key: 'a' and 's' flip pin 3 and pin 2; 'd'
   * flips pin 1 and, when that set it, clears pin 0; 'f' does the same the
   * other way round; other keys change nothing.
   */
  function Toggle(p: PinLevels, c: char): (t: PinLevels)
    ensures c == 'a' ==> t == p.(pin3 := !p.pin3)
    ensures c == 's' ==> t == p.(pin2 := !p.pin2)
    ensures c !in "asdf" ==> t == p
    ensures c == 'd' || c == 'f' ==> Safe(t) && t.pin3 == p.pin3 && t.pin2 == p.pin2
    ensures Safe(p) ==> Safe(t)
  {
    match c
    case 'a' => p.(pin3 := !p.pin3)
    case 's' => p.(pin2 := !p.pin2)
    case 'd' => var v1 := !p.pin1; p.(pin1 := v1, pin0 := if v1 then false else p.pin0)
    case 'f' => var v0 := !p.pin0; p.(pin0 := v0, pin1 := if v0 then false else p.pin1)
    case _ => p
  }

  /** 'd' flips pin 1 and 'f' flips pin 0; the other of the two is cleared only when the flip set a pin. */
  lemma ToggleLowPins(p: PinLevels)
    ensures Toggle(p, 'd').pin1 == !p.pin1 && Toggle(p, 'd').pin0 == (p.pin0 && p.pin1)
    ensures Toggle(p, 'f').pin0 == !p.pin0 && Toggle(p, 'f').pin1 == (p.pin1 && p.pin0)
  {
  }

  /** Pressing 'a' or 's' twice restores the flags. */
  lemma ToggleTwice(p: PinLevels, c: char)
    requires c == 'a' || c == 's'
    ensures Toggle(Toggle(p, c), c) == p
  {
  }

  /** Flags and frequency after reading inputs[from..], stopping at 'q' or the end of input. */
  function Replay(p: PinLevels, freq: int, inputs: seq<Input>, from: nat): (s: (PinLevels, int))
    requires from <= |inputs|
    ensures Safe(p) && Reachable(freq) ==> Safe(s.0) && Reachable(s.1)
    decreases |inputs| - from
  {
    if from == |inputs| || inputs[from] == Key('q') then (p, freq)
    else
      var e := inputs[from];
      Replay(if e.Key? then Toggle(p, e.c) else p, FreqAfter(freq, e), inputs, from + 1)
  }

  /** setup_gpio once the chip is open and the pins claimed: all four pins low, tone stopped. */
  method Setup(chip: Chip)
    modifies chip
    ensures Silent(chip, PIN_VOL_3_HEADER)
  {
    WriteLevels(chip, PIN_VOL_3_HEADER, ALL_LOW);
    LgStopTone(chip);
  }

  class Buzzer {
    const chip: Chip
    /** v3, v2, v1, v0 */
    var pins: PinLevels
    var freq: int

    ghost predicate Valid()
      reads this
    {
      Safe(pins) && Reachable(freq)
    }

    /** The settings main starts with: every flag 0, 440 Hz. */
    constructor (chip: Chip)
      ensures this.chip == chip && pins == ALL_LOW && freq == START_FREQ && Valid()
    {
      this.chip := chip;
      pins := ALL_LOW;
      freq := START_FREQ;
      new;
      FreqExtremes();
    }

    /** The flags are on the pins and the tone sounds at freq. */
    ghost predicate Applied()
      reads this, chip
    {
      Shows(chip.level, PIN_VOL_3_HEADER, pins) && Sounding(chip) && chip.frequency[PIN_CLOCK] == freq
    }

    /** set_volume(v3, v2, v1, v0); start_tone(current_freq). */
    method Apply()
      requires Valid()
      modifies chip
      ensures chip.level == WithLevels(old(chip.level), PIN_VOL_3_HEADER, pins)
      ensures chip.frequency == old(chip.frequency)[PIN_CLOCK := freq]
      ensures chip.duty == old(chip.duty)[PIN_CLOCK := LG_DUTY_50]
      ensures Applied()
    {
      WriteLevels(chip, PIN_VOL_3_HEADER, pins);
      LgStartTone(chip, freq);
    }

    /**
     * One pass of main's loop: 'q' quits; a cut escape skips the pass; an
     * arrow changes only the frequency, a plain key only the flags; then both
     * are applied.
     */
    method Step(e: Input) returns (quit: bool)
      requires Valid()
      modifies this, chip
      ensures Valid()
      ensures quit <==> e == Key('q')
      ensures e.Key? && !quit ==> pins == Toggle(old(pins), e.c) && freq == old(freq)
      ensures !e.Key? ==> pins == old(pins) && freq == FreqAfter(old(freq), e)
      ensures quit ==> pins == old(pins) && freq == old(freq)
      ensures quit || e.Cut? ==> chip.level == old(chip.level) && chip.frequency == old(chip.frequency) && chip.duty == old(chip.duty)
      ensures !quit && !e.Cut? ==> Applied()
    {
      if e == Key('q') {
        return true;
      }
      if e.Cut? {
        return false;
      }
      Adjust(e);
      Apply();
      quit := false;
    }

    /** The two switches: the arrows step the frequency, the keys a, s, d and f toggle the pin flags. */
    method Adjust(e: Input)
      requires Valid()
      modifies this
      ensures Valid()
      ensures e.Key? ==> pins == Toggle(old(pins), e.c) && freq == old(freq)
      ensures !e.Key? ==> pins == old(pins) && freq == FreqAfter(old(freq), e)
    {
      match e {
        case Cut =>
        case Escape(s0, s1) =>
          if s0 == '[' {
            if s1 == 'C' {
              if freq < MAX_FREQ { freq := freq + FREQ_STEP; }
            } else if s1 == 'D' {
              if freq > MIN_FREQ { freq := freq - FREQ_STEP; }
            }
          }
        case Key(c) =>
          if c == 'a' {
            pins := pins.(pin3 := !pins.pin3);
          } else if c == 's' {
            pins := pins.(pin2 := !pins.pin2);
          } else if c == 'd' {
            pins := pins.(pin1 := !pins.pin1);
            if pins.pin1 { pins := pins.(pin0 := false); }
          } else if c == 'f' {
            pins := pins.(pin0 := !pins.pin0);
            if pins.pin0 { pins := pins.(pin1 := false); }
          }
      }
    }

    /** The end of main: stop the tone, all four pins low. */
    method Cleanup()
      modifies chip
      ensures Silent(chip, PIN_VOL_3_HEADER)
    {
      LgStopTone(chip);
      WriteLevels(chip, PIN_VOL_3_HEADER, ALL_LOW);
    }

    /**
     * main after setup_gpio: apply the start settings, read inputs until 'q'
     * or the end of input, then clean up. Pins 1 and 0 are never driven high
     * together, and the tone sounds at a positive frequency throughout.
     */
    method Run(inputs: seq<Input>)
      requires Valid()
      modifies this, chip
      ensures Valid()
      ensures (pins, freq) == Replay(old(pins), old(freq), inputs, 0)
      ensures Silent(chip, PIN_VOL_3_HEADER)
    {
      Apply();
      var j := 0;
      while j < |inputs|
        invariant Valid() && 0 <= j <= |inputs|
        invariant Applied()
        invariant Replay(old(pins), old(freq), inputs, 0) == Replay(pins, freq, inputs, j)
      {
        var quit := Step(inputs[j]);
        if quit {
          break;
        }
        j := j + 1;
      }
      Cleanup();
    }
  }
}
