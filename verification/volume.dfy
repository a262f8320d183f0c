/**
 * set_volume of the buzzer programs: a volume level is clamped to 0..8 and
 * spread over four volume pins. The interactive program weights the pins
 * 4, 2, 2 and 1 (pin 3 down to pin 0) and writes all four; the two demo
 * programs write PIN_VOL_3 twice, never write pins 1 and 2, and assert a
 * remainder that is 2 for volume 8.
 */
module Volume {
  import opened Gpio

  const MAX_VOLUME: int := 8
  const MIN_VOLUME: int := 0

  /** The two clamping tests at the top of every set_volume. */
  function ClampVolume(volume: int): (v: int)
    ensures MIN_VOLUME <= v <= MAX_VOLUME
    ensures MIN_VOLUME <= volume <= MAX_VOLUME ==> v == volume
    ensures volume > MAX_VOLUME ==> v == MAX_VOLUME
    ensures volume < MIN_VOLUME ==> v == MIN_VOLUME
  {
    var t := if volume > MAX_VOLUME then MAX_VOLUME else volume;
    if t < MIN_VOLUME then MIN_VOLUME else t
  }

  /** The four volume pin levels, pin 3 first. */
  datatype PinLevels = PinLevels(pin3: bool, pin2: bool, pin1: bool, pin0: bool)

  const ALL_LOW := PinLevels(false, false, false, false)

  /** A pin level as the 0 or 1 written to the pin. */
  function Bit(b: bool): int
  {
    if b then 1 else 0
  }

  /** The volume a pin pattern stands for: pins 3, 2, 1, 0 weigh 4, 2, 2 and 1. */
  function Weight(p: PinLevels): int
  {
    4 * Bit(p.pin3) + 2 * Bit(p.pin2) + 2 * Bit(p.pin1) + Bit(p.pin0)
  }

  /** Pins 1 and 0 are never high together. */
  predicate Safe(p: PinLevels)
  {
    !(p.pin1 && p.pin0)
  }

  /**
   * The pins the interactive set_volume drives for a volume: take 4 for
   * pin 3, then 2 for pin 2, and the remainder (0, 1 or 2) selects pin 0 or
   * pin 1.
   */
  function Levels(volume: int): (p: PinLevels)
    ensures Weight(p) == ClampVolume(volume)
    ensures Safe(p)
    ensures p.pin1 <==> ClampVolume(volume) == MAX_VOLUME
  {
    var v := ClampVolume(volume);
    var afterPin3 := if v >= 4 then v - 4 else v;
    var rest := if afterPin3 >= 2 then afterPin3 - 2 else afterPin3;
    PinLevels(v >= 4, afterPin3 >= 2, rest == 2, rest == 1)
  }

  /** The pattern Levels chooses is the only safe one of the right weight with pin 1 reserved for volume 8. */
  lemma LevelsUnique(volume: int, p: PinLevels)
    requires Weight(p) == ClampVolume(volume) && Safe(p)
    requires p.pin1 <==> ClampVolume(volume) == MAX_VOLUME
    ensures p == Levels(volume)
  {
  }

  /** The pins depend on the volume only through its clamped value. */
  lemma LevelsOfClamped(volume: int)
    ensures Levels(volume) == Levels(ClampVolume(volume))
    ensures volume >= MAX_VOLUME ==> Levels(volume) == PinLevels(true, true, true, false)
    ensures volume <= MIN_VOLUME ==> Levels(volume) == ALL_LOW
  {
  }

  /** The four volume pins of a pin map, pin3 naming the board's PIN_VOL_3, read back the levels p. */
  predicate Shows(m: map<int, int>, pin3: int, p: PinLevels)
  {
    pin3 in m && PIN_VOL_2 in m && PIN_VOL_1 in m && PIN_VOL_0 in m
    && m[pin3] == Bit(p.pin3) && m[PIN_VOL_2] == Bit(p.pin2) && m[PIN_VOL_1] == Bit(p.pin1) && m[PIN_VOL_0] == Bit(p.pin0)
  }

  /**
   * The pin map after writing the four levels, pin 3 first: on a board whose
   * PIN_VOL_3 is a pin of its own, the pins read back the levels, and no
   * other pin changes.
   */
  function WithLevels(m: map<int, int>, pin3: int, p: PinLevels): (r: map<int, int>)
    ensures pin3 !in {PIN_VOL_2, PIN_VOL_1, PIN_VOL_0} ==> Shows(r, pin3, p)
    ensures forall pin :: pin in m && pin !in {pin3, PIN_VOL_2, PIN_VOL_1, PIN_VOL_0} ==> pin in r && r[pin] == m[pin]
  {
    m[pin3 := Bit(p.pin3)][PIN_VOL_2 := Bit(p.pin2)][PIN_VOL_1 := Bit(p.pin1)][PIN_VOL_0 := Bit(p.pin0)]
  }

  /** The tone is off, and the clock pin and all four volume pins are low. */
  predicate Silent(chip: Chip, pin3: int)
    reads chip
  {
    Shows(chip.level, pin3, ALL_LOW) && PIN_CLOCK in chip.level && chip.level[PIN_CLOCK] == 0 && !Sounding(chip)
  }

  /** Writing the same levels twice leaves what writing them once leaves. */
  lemma WithLevelsIdempotent(m: map<int, int>, pin3: int, p: PinLevels)
    ensures WithLevels(WithLevels(m, pin3, p), pin3, p) == WithLevels(m, pin3, p)
  {
  }

  /** set_volume of the single-pin program: the four given levels, pin 3 first. */
  method WriteLevels(chip: Chip, pin3: int, p: PinLevels)
    modifies chip
    ensures chip.level == WithLevels(old(chip.level), pin3, p)
    ensures chip.frequency == old(chip.frequency) && chip.duty == old(chip.duty)
  {
    chip.Write(pin3, Bit(p.pin3));
    chip.Write(PIN_VOL_2, Bit(p.pin2));
    chip.Write(PIN_VOL_1, Bit(p.pin1));
    chip.Write(PIN_VOL_0, Bit(p.pin0));
  }

  /**
   * set_volume of the interactive program: clamp, peel off 4 and 2 from
   * temp_volume, pick pin 1 or pin 0 from the remainder, write all four pins.
   * The program's assertion that the remainder is 0, 1 or 2 holds for every
   * argument.
   */
  method SetVolume(chip: Chip, volume: int)
    modifies chip
    ensures chip.level == WithLevels(old(chip.level), PIN_VOL_3_HEADER, Levels(volume))
    ensures chip.frequency == old(chip.frequency) && chip.duty == old(chip.duty)
  {
    var temp := volume;
    if temp > MAX_VOLUME {
      temp := MAX_VOLUME;
    }
    if temp < MIN_VOLUME {
      temp := MIN_VOLUME;
    }
    var pin3, pin2, pin1, pin0 := false, false, false, false;
    if temp >= 4 {
      temp := temp - 4;
      pin3 := true;
    }
    if temp >= 2 {
      temp := temp - 2;
      pin2 := true;
    }
    assert 0 <= temp <= 2;
    if temp == 2 {
      pin1 := true;
    } else if temp == 1 {
      pin0 := true;
    }
    WriteLevels(chip, PIN_VOL_3_HEADER, PinLevels(pin3, pin2, pin1, pin0));
  }

  // ---------------------------------------------------------------------
  // The demo programs' set_volume, as written

  /** temp_volume after the demo's two subtraction steps. */
  function DemoRemainder(volume: int): (r: int)
    ensures 0 <= r <= 2
    ensures r == 2 <==> ClampVolume(volume) == MAX_VOLUME
  {
    var v := ClampVolume(volume);
    var afterFirst := if v >= 4 then v - 4 else v;
    if afterFirst >= 2 then afterFirst - 2 else afterFirst
  }

  /** The level PIN_VOL_3 is left at: the second write, the one of the >= 2 test, wins. */
  function DemoPin3(volume: int): int
  {
    var v := ClampVolume(volume);
    var afterFirst := if v >= 4 then v - 4 else v;
    if afterFirst >= 2 then 1 else 0
  }

  /** The demo's assertion (remainder 0 or 1) holds exactly below volume 8. */
  lemma DemoAssertion(volume: int)
    ensures 0 <= DemoRemainder(volume) <= 1 <==> ClampVolume(volume) < MAX_VOLUME
  {
  }

  /**
   * What the demo leaves on its two pins: PIN_VOL_3 carries the weight-2
   * level the interactive program puts on pin 2, and PIN_VOL_0 its pin-0 level.
   */
  lemma DemoPins(volume: int)
    requires ClampVolume(volume) < MAX_VOLUME
    ensures DemoPin3(volume) == Bit(Levels(volume).pin2)
    ensures DemoRemainder(volume) == Bit(Levels(volume).pin0)
  {
  }

  /** Volume 4 leaves both pins the demo writes low: the weight-4 level is overwritten. */
  lemma DemoVolumeFour()
    ensures DemoPin3(4) == 0 && DemoRemainder(4) == 0
    ensures Levels(4).pin3 && Weight(Levels(4)) == 4
  {
  }

  /**
   * set_volume of buzzer.c and buzzer_lgpio.c: clamp, write PIN_VOL_3 by the
   * >= 4 test, write it again by the >= 2 test, assert the remainder is 0 or 1
   * (a failed assertion aborts the program: `aborted`), write PIN_VOL_0.
   */
  method SetVolumeDemo(chip: Chip, volume: int) returns (aborted: bool)
    modifies chip
    ensures aborted <==> ClampVolume(volume) == MAX_VOLUME
    ensures chip.level == if aborted then old(chip.level)[PIN_VOL_3_MSB := DemoPin3(volume)]
                          else old(chip.level)[PIN_VOL_3_MSB := DemoPin3(volume)][PIN_VOL_0 := DemoRemainder(volume)]
    ensures chip.frequency == old(chip.frequency) && chip.duty == old(chip.duty)
  {
    var temp := volume;
    if temp > MAX_VOLUME {
      temp := MAX_VOLUME;
    }
    if temp < MIN_VOLUME {
      temp := MIN_VOLUME;
    }
    if temp >= 4 {
      temp := temp - 4;
      chip.Write(PIN_VOL_3_MSB, 1);
    } else {
      chip.Write(PIN_VOL_3_MSB, 0);
    }
    if temp >= 2 {
      temp := temp - 2;
      chip.Write(PIN_VOL_3_MSB, 1);
    } else {
      chip.Write(PIN_VOL_3_MSB, 0);
    }
    assert chip.level == old(chip.level)[PIN_VOL_3_MSB := DemoPin3(volume)];
    if !(temp >= 0 && temp <= 1) {
      return true;
    }
    chip.Write(PIN_VOL_0, temp);
    aborted := false;
  }
}
