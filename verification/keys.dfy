/**
 * What the interactive buzzer programs read from the raw-mode terminal and
 * the frequency stepping both of them share: the right and left arrows
 * (ESC '[' 'C' and ESC '[' 'D') move the tone by FREQ_STEP, each tested
 * against its bound before it steps.
 */
module Keys {

  /**
   * One pass of the read loop: a plain character, an escape character with
   * the two characters read after it, or an escape whose follow-up read
   * returned nothing (the pass is skipped with `continue`).
   */
  datatype Input = Key(c: char) | Escape(s0: char, s1: char) | Cut

  const FREQ_STEP: int := 50
  const MIN_FREQ: int := 100
  const MAX_FREQ: int := 2000
  const START_FREQ: int := 440

  predicate IsArrow(e: Input, dir: char)
  {
    e.Escape? && e.s0 == '[' && e.s1 == dir
  }

  /**
   * The frequencies the stepping can reach from 440: whole 50 Hz steps away
   * from it, from 90 to 2040. The bounds are tested before the step, so one
   * step can pass each bound by less than a step.
   */
  predicate Reachable(freq: int)
  {
    90 <= freq <= 2040 && freq % FREQ_STEP == START_FREQ % FREQ_STEP
  }

  /**
   * current_freq after one input: 'C' steps up below MAX_FREQ, 'D' steps down
   * above MIN_FREQ. A reachable frequency stays reachable, hence positive.
   */
  function FreqAfter(freq: int, e: Input): (f: int)
    ensures !IsArrow(e, 'C') && !IsArrow(e, 'D') ==> f == freq
    ensures Reachable(freq) ==> Reachable(f) && f > 0
  {
    if IsArrow(e, 'C') then (if freq < MAX_FREQ then freq + FREQ_STEP else freq)
    else if IsArrow(e, 'D') then (if freq > MIN_FREQ then freq - FREQ_STEP else freq)
    else freq
  }

  /** The start frequency is reachable, and the extremes 2040 and 90 are reached from 1990 and 140. */
  lemma FreqExtremes()
    ensures Reachable(START_FREQ)
    ensures FreqAfter(1990, Escape('[', 'C')) == 2040 && FreqAfter(2040, Escape('[', 'C')) == 2040
    ensures FreqAfter(140, Escape('[', 'D')) == 90 && FreqAfter(90, Escape('[', 'D')) == 90
  {
  }

  /** Right then left, from a reachable frequency below MAX_FREQ, returns to the same frequency. */
  lemma FreqUndo(freq: int)
    requires Reachable(freq) && freq < MAX_FREQ
    ensures FreqAfter(FreqAfter(freq, Escape('[', 'C')), Escape('[', 'D')) == freq
  {
  }
}
