/**
 * Press-edge detection shared by the four button programs. The buttons pull
 * the expander's input pins to ground, so a pressed button reads 0 and a
 * released one 1. A button is reported when its bit is low in the byte just
 * read and was high in the byte remembered from the previous read.
 */
module Edges {
  import opened Wrappers

  /** The remembered state before anything has been read: every button released. */
  const RELEASED: bv8 := 0xFF

  /** Bit i of an input port is low: the button on that pin is pressed. */
  predicate IsLow(port: bv8, i: nat)
    requires i < 8
  {
    (port >> i) & 1 == 0
  }

  /** isPressed && !wasPressed: bit i is low now and was high before. */
  predicate NewlyPressed(cur: bv8, last: bv8, i: nat)
    requires i < 8
  {
    IsLow(cur, i) && !IsLow(last, i)
  }

  /** The bits newly pressed among bits from..7, in increasing order. */
  function PressesFrom(cur: bv8, last: bv8, from: nat): seq<nat>
    requires from <= 8
    decreases 8 - from
  {
    if from == 8 then []
    else (if NewlyPressed(cur, last, from) then [from] else []) + PressesFrom(cur, last, from + 1)
  }

  /** PressesFrom lists exactly the newly pressed bits from `from` on, each once, in increasing order. */
  lemma {:induction false} PressesFromExact(cur: bv8, last: bv8, from: nat)
    requires from <= 8
    ensures forall k :: 0 <= k < |PressesFrom(cur, last, from)| ==>
              from <= PressesFrom(cur, last, from)[k] < 8 && NewlyPressed(cur, last, PressesFrom(cur, last, from)[k])
    ensures forall i :: from <= i < 8 && NewlyPressed(cur, last, i) ==> i in PressesFrom(cur, last, from)
    ensures forall k, l :: 0 <= k < l < |PressesFrom(cur, last, from)| ==> PressesFrom(cur, last, from)[k] < PressesFrom(cur, last, from)[l]
    decreases 8 - from
  {
    if from < 8 {
      PressesFromExact(cur, last, from + 1);
    }
  }

  /** The bits the 8-iteration scan reports for a read `cur` against the remembered `last`. */
  function Presses(cur: bv8, last: bv8): seq<nat>
  {
    PressesFrom(cur, last, 0)
  }

  /** A bit is reported iff it is newly pressed; the reported bits increase strictly. */
  lemma PressesExact(cur: bv8, last: bv8)
    ensures forall i :: 0 <= i < 8 ==> (i in Presses(cur, last) <==> NewlyPressed(cur, last, i))
    ensures forall k, l :: 0 <= k < l < |Presses(cur, last)| ==> Presses(cur, last)[k] < Presses(cur, last)[l]
  {
    PressesFromExact(cur, last, 0);
  }

  /** The reported bits are exactly the set bits of ~cur & last. */
  lemma PressMask(cur: bv8, last: bv8, i: nat)
    requires i < 8
    ensures i in Presses(cur, last) <==> !IsLow(!cur & last, i)
  {
    PressesExact(cur, last);
    MaskBit(cur, last, i);
  }

  lemma MaskBit(cur: bv8, last: bv8, i: nat)
    requires i < 8
    ensures NewlyPressed(cur, last, i) <==> !IsLow(!cur & last, i)
  {
    if i == 0 {} else if i == 1 {} else if i == 2 {} else if i == 3 {}
    else if i == 4 {} else if i == 5 {} else if i == 6 {} else {}
  }

  /** A read equal to the remembered state reports nothing. */
  lemma UnchangedReportsNothing(s: bv8)
    ensures Presses(s, s) == []
  {
    PressesFromExact(s, s, 0);
  }

  /** A release (a bit going from low to high) is never reported. */
  lemma ReleasesNotReported(cur: bv8, last: bv8, i: nat)
    requires i < 8 && IsLow(last, i) && !IsLow(cur, i)
    ensures i !in Presses(cur, last)
  {
    PressesExact(cur, last);
  }

  /**
   * Against the all-released state every low bit is reported, once each and
   * in increasing bit order.
   */
  lemma FirstScan(cur: bv8)
    ensures forall i :: 0 <= i < 8 ==> (i in Presses(cur, RELEASED) <==> IsLow(cur, i))
    ensures forall k, l :: 0 <= k < l < |Presses(cur, RELEASED)| ==> Presses(cur, RELEASED)[k] < Presses(cur, RELEASED)[l]
  {
    PressesExact(cur, RELEASED);
    forall i | 0 <= i < 8
      ensures !IsLow(RELEASED, i)
    {
    }
  }

  /** A button is reported at most once per read. */
  lemma ReportedOnce(cur: bv8, last: bv8, k: nat, l: nat)
    requires k < l < |Presses(cur, last)|
    ensures Presses(cur, last)[k] != Presses(cur, last)[l]
  {
    PressesExact(cur, last);
  }

  /** PressesFrom peels off one bit at a time. */
  lemma PressesStep(cur: bv8, last: bv8, i: nat)
    requires i < 8
    ensures PressesFrom(cur, last, i) == (if NewlyPressed(cur, last, i) then [i] else []) + PressesFrom(cur, last, i + 1)
  {
  }

  /** One turn of the bit loop: test bit i of both bytes and report it when it is pressed now and was not before. */
  method ScanBit(cur: bv8, last: bv8, i: nat, pressed: seq<nat>) returns (r: seq<nat>)
    requires i < 8
    ensures r == pressed + (if NewlyPressed(cur, last, i) then [i] else [])
    ensures r + PressesFrom(cur, last, i + 1) == pressed + PressesFrom(cur, last, i)
  {
    var isPressed := IsLow(cur, i);
    var wasPressed := IsLow(last, i);
    r := pressed;
    if isPressed && !wasPressed {
      r := pressed + [i];
    }
    PressesStep(cur, last, i);
    Assoc(pressed, if NewlyPressed(cur, last, i) then [i] else [], PressesFrom(cur, last, i + 1));
  }

  /** Concatenation regroups. */
  lemma Assoc(a: seq<nat>, b: seq<nat>, c: seq<nat>)
    ensures a + (b + c) == (a + b) + c
  {
  }

  /** The bit loop over bits 0..7. */
  method ScanPresses(cur: bv8, last: bv8) returns (pressed: seq<nat>)
    ensures pressed == Presses(cur, last)
  {
    pressed := [];
    for i := 0 to 8
      invariant pressed + PressesFrom(cur, last, i) == PressesFrom(cur, last, 0)
    {
      pressed := ScanBit(cur, last, i, pressed);
    }
  }

  // ---------------------------------------------------------------------
  // What a report leads to

  /** The message the switch prints for a reported bit. */
  datatype Action = SequenceA | LogData | EmergencyStop | OtherButton(bit: nat)

  /**
   * The switch of the polling and the sysfs programs: bits 0, 1 and 2 are the
   * three button groups, every other bit takes the default branch.
   */
  function GroupAction(i: nat): (a: Action)
    requires i < 8
    ensures a.OtherButton? <==> i >= 3
    ensures a.OtherButton? ==> a.bit == i
  {
    match i
    case 0 => SequenceA
    case 1 => LogData
    case 2 => EmergencyStop
    case _ => OtherButton(i)
  }

  /** Different bits lead to different actions. */
  lemma GroupActionInjective(i: nat, j: nat)
    requires i < 8 && j < 8 && GroupAction(i) == GroupAction(j)
    ensures i == j
  {
  }

  /** The lgpio callback's extra line: bit 0 starts sequence A, bit 1 logs data, the others have none. */
  function AlertAction(i: nat): (a: Option<Action>)
    requires i < 8
    ensures a.Some? <==> i <= 1
    ensures a.Some? ==> a.value == GroupAction(i)
  {
    if i == 0 then Some(SequenceA) else if i == 1 then Some(LogData) else None
  }

  // ---------------------------------------------------------------------
  // The remembered pair of port bytes

  /**
   * The debounce test of the interrupt callbacks: an interrupt less than
   * `window` milliseconds after the last accepted one is ignored.
   */
  predicate Bounce(now: int, lastTime: int, window: int)
  {
    now - lastTime < window
  }

  /** A two-byte read of input ports 0 and 1; anything but two bytes is a failure. */
  datatype PortRead = ReadFailed | Read(port0: bv8, port1: bv8)

  /**
   * The common tail of every two-port handler: scan port 0 against the
   * remembered port 0, then remember both bytes. Port 1 is stored but never
   * scanned.
   */
  method ScanAndRemember(lastState: array<bv8>, port0: bv8, port1: bv8) returns (pressed: seq<nat>)
    requires lastState.Length == 2
    modifies lastState
    ensures pressed == Presses(port0, old(lastState[0]))
    ensures lastState[..] == [port0, port1]
  {
    pressed := ScanPresses(port0, lastState[0]);
    lastState[0] := port0;
    lastState[1] := port1;
  }
}
