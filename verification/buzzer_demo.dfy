/**
 * The two demo programs, buzzer_lgpio.c (lgpio) and buzzer.c (pigpio):
 * set up with volume 0 and the tone stopped, start a 440 Hz tone and ramp
 * the volume up. Their set_volume aborts on the clamped volume 8, which the
 * ramp reaches, so the program stops there with the tone still sounding.
 */
module BuzzerDemo {
  import opened Gpio
  import opened Volume

  /** The top of the pigpio ramp; set_volume clamps it to MAX_VOLUME. */
  const PIG_RAMP_TOP: int := 15

  const TONE_HZ: int := 440

  /** The pin map after a completed demo set_volume(v). */
  function DemoLevels(m: map<int, int>, v: int): map<int, int>
  {
    m[PIN_VOL_3_MSB := DemoPin3(v)][PIN_VOL_0 := DemoRemainder(v)]
  }

  /** A later demo set_volume overwrites everything an earlier one wrote. */
  lemma DemoLevelsOverwrite(m: map<int, int>, u: int, v: int)
    ensures DemoLevels(DemoLevels(m, u), v) == DemoLevels(m, v)
  {
  }

  /**
   * Test 1: set_volume(v) for v = 0, 1, ..., top. The call with volume 8
   * aborts; a ramp that stops below 8 leaves the levels of its last volume.
   */
  method Ramp(chip: Chip, top: int) returns (aborted: bool)
    modifies chip
    ensures aborted <==> top >= MAX_VOLUME
    ensures chip.frequency == old(chip.frequency) && chip.duty == old(chip.duty)
    ensures aborted ==> chip.level == DemoLevels(old(chip.level), MAX_VOLUME - 1)[PIN_VOL_3_MSB := DemoPin3(MAX_VOLUME)]
    ensures !aborted && top >= 0 ==> chip.level == DemoLevels(old(chip.level), top)
    ensures top < 0 ==> chip.level == old(chip.level)
  {
    var v := 0;
    while v <= top
      invariant 0 <= v <= MAX_VOLUME
      invariant v == 0 || v <= top + 1
      invariant v > top ==> top < MAX_VOLUME
      invariant v == 0 ==> chip.level == old(chip.level)
      invariant v > 0 ==> chip.level == DemoLevels(old(chip.level), v - 1)
      invariant chip.frequency == old(chip.frequency) && chip.duty == old(chip.duty)
    {
      aborted := SetVolumeDemo(chip, v);
      if aborted {
        return;
      }
      if v > 0 {
        DemoLevelsOverwrite(old(chip.level), v - 1, v);
      }
      v := v + 1;
    }
    aborted := false;
  }

  /** setup_gpio and test 1 of buzzer_lgpio.c, up to the failed assertion. */
  method LgDemo(chip: Chip) returns (aborted: bool)
    modifies chip
    ensures aborted
    ensures Sounding(chip) && chip.frequency[PIN_CLOCK] == TONE_HZ
  {
    var failed := SetVolumeDemo(chip, 0);
    LgStopTone(chip);
    LgDemoStartTone(chip, TONE_HZ);
    aborted := Ramp(chip, MAX_VOLUME);
  }

  /** setup_gpio and test 1 of buzzer.c, up to the failed assertion. */
  method PigDemo(chip: Chip) returns (aborted: bool)
    modifies chip
    ensures aborted
    ensures Sounding(chip) && chip.frequency[PIN_CLOCK] == TONE_HZ
  {
    var failed := SetVolumeDemo(chip, 0);
    PigStopTone(chip);
    PigStartTone(chip, TONE_HZ);
    aborted := Ramp(chip, PIG_RAMP_TOP);
  }
}
