/**
 * The output side of the GPIO libraries the buzzer programs drive (lgpio on
 * the Raspberry Pi 5, pigpio on older boards), reduced to what they leave
 * behind: the last level written to each pin and the PWM settings of each
 * pin. The clock pin carries the tone; four pins carry the volume.
 */
module Gpio {

  const PIN_CLOCK: int := 18
  const PIN_VOL_0: int := 23
  const PIN_VOL_1: int := 24
  const PIN_VOL_2: int := 25

  /** PIN_VOL_3 of the two interactive programs. */
  const PIN_VOL_3_HEADER: int := 22

  /** PIN_VOL_3 of the two demo programs. */
  const PIN_VOL_3_MSB: int := 8

  /** PWM_DUTY_50 of the lgpio programs: a duty cycle in percent. */
  const LG_DUTY_50: int := 50

  /** PWM_DUTY_50 of the pigpio program: a duty cycle out of 255. */
  const PIG_DUTY_50: int := 128

  class Chip {
    /** The last level written to each pin. */
    var level: map<int, int>
    /** The PWM frequency last set on each pin, in Hz (0 = stopped). */
    var frequency: map<int, int>
    /** The PWM duty cycle last set on each pin (0 = off). */
    var duty: map<int, int>

    /** A freshly opened chip: nothing written yet. */
    constructor ()
      ensures level == map[] && frequency == map[] && duty == map[]
    {
      level := map[];
      frequency := map[];
      duty := map[];
    }

    /** lgGpioWrite / gpioWrite. */
    method Write(pin: int, lvl: int)
      modifies this
      ensures level == old(level)[pin := lvl]
      ensures frequency == old(frequency) && duty == old(duty)
    {
      level := level[pin := lvl];
    }

    /** lgTxPwm(handle, pin, frequency, duty percent, 0, 0): frequency 0 stops the output. */
    method TxPwm(pin: int, freq: int, dutyPercent: int)
      modifies this
      ensures frequency == old(frequency)[pin := freq] && duty == old(duty)[pin := dutyPercent]
      ensures level == old(level)
    {
      frequency := frequency[pin := freq];
      duty := duty[pin := dutyPercent];
    }

    /** gpioSetPWMfrequency. */
    method SetPwmFrequency(pin: int, freq: int)
      modifies this
      ensures frequency == old(frequency)[pin := freq]
      ensures level == old(level) && duty == old(duty)
    {
      frequency := frequency[pin := freq];
    }

    /** gpioPWM: duty 0 switches the output off. */
    method SetPwmDuty(pin: int, dutyCycle: int)
      modifies this
      ensures duty == old(duty)[pin := dutyCycle]
      ensures level == old(level) && frequency == old(frequency)
    {
      duty := duty[pin := dutyCycle];
    }
  }

  // ---------------------------------------------------------------------
  // The tone on the clock pin

  /** A tone is sounding when the clock pin has a positive frequency and duty. */
  predicate Sounding(chip: Chip)
    reads chip
  {
    PIN_CLOCK in chip.frequency && PIN_CLOCK in chip.duty
    && chip.frequency[PIN_CLOCK] > 0 && chip.duty[PIN_CLOCK] > 0
  }

  /** stop_tone of the lgpio programs: PWM at frequency 0, then the clock pin driven low. */
  method LgStopTone(chip: Chip)
    modifies chip
    ensures chip.frequency == old(chip.frequency)[PIN_CLOCK := 0] && chip.duty == old(chip.duty)[PIN_CLOCK := 0]
    ensures chip.level == old(chip.level)[PIN_CLOCK := 0]
    ensures !Sounding(chip)
  {
    chip.TxPwm(PIN_CLOCK, 0, 0);
    chip.Write(PIN_CLOCK, 0);
  }

  /**
   * start_tone of the two interactive programs: a frequency at or below zero
   * stops the tone, any other starts a 50% square wave at that frequency.
   */
  method LgStartTone(chip: Chip, hz: int)
    modifies chip
    ensures hz <= 0 ==> chip.frequency == old(chip.frequency)[PIN_CLOCK := 0] && chip.duty == old(chip.duty)[PIN_CLOCK := 0]
                        && chip.level == old(chip.level)[PIN_CLOCK := 0]
    ensures hz > 0 ==> chip.frequency == old(chip.frequency)[PIN_CLOCK := hz] && chip.duty == old(chip.duty)[PIN_CLOCK := LG_DUTY_50]
                       && chip.level == old(chip.level)
    ensures Sounding(chip) <==> hz > 0
  {
    if hz <= 0 {
      LgStopTone(chip);
      return;
    }
    chip.TxPwm(PIN_CLOCK, hz, LG_DUTY_50);
  }

  /**
   * start_tone of the lgpio demo: the same two branches, except that the
   * stop branch only sets frequency 0 and leaves the clock pin's level alone.
   */
  method LgDemoStartTone(chip: Chip, hz: int)
    modifies chip
    ensures chip.frequency == old(chip.frequency)[PIN_CLOCK := if hz <= 0 then 0 else hz]
    ensures chip.duty == old(chip.duty)[PIN_CLOCK := if hz <= 0 then 0 else LG_DUTY_50]
    ensures chip.level == old(chip.level)
    ensures Sounding(chip) <==> hz > 0
  {
    if hz <= 0 {
      chip.TxPwm(PIN_CLOCK, 0, 0);
      return;
    }
    chip.TxPwm(PIN_CLOCK, hz, LG_DUTY_50);
  }

  /** stop_tone of the pigpio demo: duty 0. */
  method PigStopTone(chip: Chip)
    modifies chip
    ensures chip.duty == old(chip.duty)[PIN_CLOCK := 0]
    ensures chip.level == old(chip.level) && chip.frequency == old(chip.frequency)
    ensures !Sounding(chip)
  {
    chip.SetPwmDuty(PIN_CLOCK, 0);
  }

  /**
   * start_tone of the pigpio demo: a frequency at or below zero sets duty 0
   * and leaves the frequency; any other sets the frequency, then duty 128.
   */
  method PigStartTone(chip: Chip, hz: int)
    modifies chip
    ensures hz <= 0 ==> chip.duty == old(chip.duty)[PIN_CLOCK := 0] && chip.frequency == old(chip.frequency)
    ensures hz > 0 ==> chip.frequency == old(chip.frequency)[PIN_CLOCK := hz] && chip.duty == old(chip.duty)[PIN_CLOCK := PIG_DUTY_50]
    ensures chip.level == old(chip.level)
    ensures hz > 0 ==> Sounding(chip)
    ensures hz <= 0 ==> !Sounding(chip)
  {
    if hz <= 0 {
      chip.SetPwmDuty(PIN_CLOCK, 0);
      return;
    }
    chip.SetPwmFrequency(PIN_CLOCK, hz);
    chip.SetPwmDuty(PIN_CLOCK, PIG_DUTY_50);
  }
}
