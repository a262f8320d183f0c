/**
 * read_buttons_lgpio_full.c: the lgpio callback with a 50 ms debounce and a
 * block read of both input ports, plus the start-up register dump and its
 * two warnings.
 */
module ButtonsFull {
  import opened Edges

  /** Interrupts closer than this many milliseconds to the last accepted one are ignored. */
  const DEBOUNCE_MS: int := 50

  /** The configuration value of a port whose eight pins are all inputs. */
  const ALL_INPUTS: bv8 := 0xFF

  /** The two warnings of debug_dump_registers. */
  datatype Warning = NotInputs | IntStuckLow

  /**
   * The warnings printed for the configuration bytes read back and the level
   * of the interrupt pin: one when either port is not all inputs, one when
   * the interrupt line is low.
   */
  function Warnings(config0: bv8, config1: bv8, pinLevel: int): (w: seq<Warning>)
    ensures NotInputs in w <==> config0 != ALL_INPUTS || config1 != ALL_INPUTS
    ensures IntStuckLow in w <==> pinLevel == 0
    ensures |w| <= 2 && (|w| == 2 ==> w == [NotInputs, IntStuckLow])
  {
    (if config0 != ALL_INPUTS || config1 != ALL_INPUTS then [NotInputs] else [])
    + (if pinLevel == 0 then [IntStuckLow] else [])
  }

  class FullMonitor {
    /** last_state */
    const lastState: array<bv8>
    /** last_interrupt_time, in milliseconds of the monotonic clock */
    var lastInterruptTime: int

    /** No read seeds last_state: the register dump only reads into locals. */
    constructor ()
      ensures fresh(lastState) && lastInterruptTime == 0
      ensures lastState[..] == [RELEASED, RELEASED]
    {
      lastState := new bv8[2](_ => RELEASED);
      lastInterruptTime := 0;
    }

    /**
     * on_interrupt at time `now`: a bounce changes nothing. Otherwise the
     * time is recorded before the read; a read of other than two bytes
     * returns, and a good read is scanned and remembered.
     */
    method OnInterrupt(now: int, read: PortRead) returns (pressed: seq<nat>)
      requires lastState.Length == 2
      modifies this, lastState
      ensures Bounce(now, old(lastInterruptTime), DEBOUNCE_MS) ==>
                pressed == [] && lastInterruptTime == old(lastInterruptTime) && lastState[..] == old(lastState[..])
      ensures !Bounce(now, old(lastInterruptTime), DEBOUNCE_MS) ==> lastInterruptTime == now
      ensures !Bounce(now, old(lastInterruptTime), DEBOUNCE_MS) && read.ReadFailed? ==>
                pressed == [] && lastState[..] == old(lastState[..])
      ensures !Bounce(now, old(lastInterruptTime), DEBOUNCE_MS) && read.Read? ==>
                pressed == Presses(read.port0, old(lastState[0])) && lastState[..] == [read.port0, read.port1]
    {
      if now - lastInterruptTime < DEBOUNCE_MS {
        return [];
      }
      lastInterruptTime := now;
      if read.ReadFailed? {
        return [];
      }
      pressed := ScanAndRemember(lastState, read.port0, read.port1);
    }
  }
}
