/**
 * read_buttons_lgpio.c: lgpio calls on_interrupt on a falling edge of the
 * expander's interrupt line; the callback debounces, reads both input ports
 * and reports the buttons of port 0 pressed since the previous read.
 */
module ButtonsAlert {
  import opened Edges

  /** Interrupts closer than this many milliseconds to the last accepted one are ignored. */
  const DEBOUNCE_MS: int := 20

  class AlertMonitor {
    /** last_state */
    const lastState: array<bv8>
    /** last_interrupt_time, in milliseconds of the monotonic clock */
    var lastInterruptTime: int

    /**
     * The start of main: the initial two-byte read seeds last_state when it
     * returns both bytes (the result of the pointer write before it is not
     * checked).
     */
    constructor (init: PortRead)
      ensures fresh(lastState) && lastInterruptTime == 0
      ensures lastState[..] == if init.Read? then [init.port0, init.port1] else [RELEASED, RELEASED]
    {
      lastState := new bv8[2](_ => RELEASED);
      lastInterruptTime := 0;
      new;
      if init.Read? {
        lastState[0] := init.port0;
        lastState[1] := init.port1;
      }
    }

    /**
     * on_interrupt at time `now`: a bounce changes nothing. Otherwise the
     * time is recorded first; then a failed register-pointer write or a failed
     * read returns, and a good read is scanned and remembered.
     */
    method OnInterrupt(now: int, pointerWritten: bool, read: PortRead) returns (pressed: seq<nat>)
      requires lastState.Length == 2
      modifies this, lastState
      ensures Bounce(now, old(lastInterruptTime), DEBOUNCE_MS) ==>
                pressed == [] && lastInterruptTime == old(lastInterruptTime) && lastState[..] == old(lastState[..])
      ensures !Bounce(now, old(lastInterruptTime), DEBOUNCE_MS) ==> lastInterruptTime == now
      ensures !Bounce(now, old(lastInterruptTime), DEBOUNCE_MS) && (!pointerWritten || read.ReadFailed?) ==>
                pressed == [] && lastState[..] == old(lastState[..])
      ensures !Bounce(now, old(lastInterruptTime), DEBOUNCE_MS) && pointerWritten && read.Read? ==>
                pressed == Presses(read.port0, old(lastState[0])) && lastState[..] == [read.port0, read.port1]
    {
      if now - lastInterruptTime < DEBOUNCE_MS {
        return [];
      }
      lastInterruptTime := now;
      if !pointerWritten {
        return [];
      }
      if read.ReadFailed? {
        return [];
      }
      pressed := ScanAndRemember(lastState, read.port0, read.port1);
    }
  }
}
