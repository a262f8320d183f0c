/**
 * read_buttons.c: wait for the expander's interrupt line through sysfs, then
 * read both input ports and report the buttons of port 0 pressed since the
 * previous read.
 */
module ButtonsSysfs {
  import opened Edges

  /** A button already held when the program starts is not reported by the first event. */
  lemma HeldAtStartNotReported(seed: bv8, cur: bv8, i: nat)
    requires i < 8 && IsLow(seed, i)
    ensures i !in Presses(cur, seed)
  {
    PressesExact(cur, seed);
  }

  class EventMonitor {
    /** last_state: the remembered bytes of ports 0 and 1. */
    const lastState: array<bv8>

    /**
     * The start of main: last_state starts all released, and the initial
     * two-byte read, which also clears pending interrupts, seeds it when it
     * returns both bytes.
     */
    constructor (init: PortRead)
      ensures fresh(lastState)
      ensures lastState[..] == if init.Read? then [init.port0, init.port1] else [RELEASED, RELEASED]
    {
      lastState := new bv8[2](_ => RELEASED);
      new;
      if init.Read? {
        lastState[0] := init.port0;
        lastState[1] := init.port1;
      }
    }

    /**
     * One interrupt: a failed read leaves last_state alone; otherwise port 0
     * is scanned against the remembered port 0 and both bytes are remembered.
     */
    method OnEvent(read: PortRead) returns (pressed: seq<nat>)
      requires lastState.Length == 2
      modifies lastState
      ensures read.ReadFailed? ==> pressed == [] && lastState[..] == old(lastState[..])
      ensures read.Read? ==> pressed == Presses(read.port0, old(lastState[0])) && lastState[..] == [read.port0, read.port1]
    {
      if read.ReadFailed? {
        return [];
      }
      pressed := ScanAndRemember(lastState, read.port0, read.port1);
    }
  }
}
