/**
 * read_buttons_no_interrupt.c: read port 0 of the expander over and over and
 * report the buttons pressed since the previous successful read. A failed
 * read is skipped; a read equal to the remembered byte is not scanned.
 */
module ButtonsPolling {
  import opened Wrappers
  import opened Edges

  /** The byte the loop remembers after the reads from index `from` on, starting from `last`. */
  function Remembered(last: bv8, inputs: seq<Option<bv8>>, from: nat): bv8
    requires from <= |inputs|
    decreases |inputs| - from
  {
    if from == |inputs| then last
    else if inputs[from].None? then Remembered(last, inputs, from + 1)
    else Remembered(inputs[from].value, inputs, from + 1)
  }

  /** Every bit the loop reports for the reads from index `from` on, read after read. */
  function Reported(last: bv8, inputs: seq<Option<bv8>>, from: nat): seq<nat>
    requires from <= |inputs|
    decreases |inputs| - from
  {
    if from == |inputs| then []
    else if inputs[from].None? then Reported(last, inputs, from + 1)
    else Presses(inputs[from].value, last) + Reported(inputs[from].value, inputs, from + 1)
  }

  /** Handling read j moves the loop on from index j to index j + 1. */
  lemma MonitorTake(last: bv8, inputs: seq<Option<bv8>>, j: nat, finalState: bv8, all: seq<nat>, reported: seq<nat>,
                    pressed: seq<nat>, next: bv8)
    requires j < |inputs| && Remembered(last, inputs, j) == finalState && reported + Reported(last, inputs, j) == all
    requires inputs[j].None? ==> pressed == [] && next == last
    requires inputs[j].Some? ==> pressed == Presses(inputs[j].value, last) && next == inputs[j].value
    ensures Remembered(next, inputs, j + 1) == finalState && (reported + pressed) + Reported(next, inputs, j + 1) == all
  {
    var rest := Reported(next, inputs, j + 1);
    if inputs[j].None? {
      assert Reported(last, inputs, j) == rest;
    } else {
      assert Reported(last, inputs, j) == pressed + rest;
      Assoc(reported, pressed, rest);
    }
  }

  /** With no successful read from `from` on, the remembered byte stays and nothing is reported. */
  lemma {:induction false} NoReadKeepsState(last: bv8, inputs: seq<Option<bv8>>, from: nat)
    requires from <= |inputs|
    requires forall j :: from <= j < |inputs| ==> inputs[j].None?
    ensures Remembered(last, inputs, from) == last
    ensures Reported(last, inputs, from) == []
    decreases |inputs| - from
  {
    if from < |inputs| {
      NoReadKeepsState(last, inputs, from + 1);
    }
  }

  /** At the end the loop remembers the last successful read. */
  lemma {:induction false} RemembersLastRead(last: bv8, inputs: seq<Option<bv8>>, from: nat, k: nat)
    requires from <= k < |inputs| && inputs[k].Some?
    requires forall j :: k < j < |inputs| ==> inputs[j].None?
    ensures Remembered(last, inputs, from) == inputs[k].value
    decreases k - from
  {
    if from == k {
      NoReadKeepsState(inputs[k].value, inputs, k + 1);
    } else if inputs[from].None? {
      RemembersLastRead(last, inputs, from + 1, k);
    } else {
      RemembersLastRead(inputs[from].value, inputs, from + 1, k);
    }
  }

  /**
   * A port that reads the same byte every time has its presses reported once,
   * on the first read, however often it is read.
   */
  lemma {:induction false} SteadyPortReportsOnce(last: bv8, v: bv8, inputs: seq<Option<bv8>>, from: nat)
    requires from < |inputs|
    requires forall j :: from <= j < |inputs| ==> inputs[j] == Some(v)
    ensures Remembered(last, inputs, from) == v
    ensures Reported(last, inputs, from) == Presses(v, last)
    decreases |inputs| - from
  {
    if from + 1 < |inputs| {
      SteadyPortReportsOnce(v, v, inputs, from + 1);
      UnchangedReportsNothing(v);
    }
    assert Presses(v, last) + [] == Presses(v, last);
  }

  class Poller {
    /** lastState */
    var lastState: bv8

    /** Before the loop nothing is pressed. */
    constructor ()
      ensures lastState == RELEASED
    {
      lastState := RELEASED;
    }

    /**
     * One pass of the loop: a failed read changes nothing; a read that
     * differs from the remembered byte is scanned and remembered.
     */
    method Poll(read: Option<bv8>) returns (pressed: seq<nat>)
      modifies this
      ensures read.None? ==> pressed == [] && lastState == old(lastState)
      ensures read.Some? ==> pressed == Presses(read.value, old(lastState)) && lastState == read.value
    {
      pressed := [];
      if read.None? {
        return;
      }
      var currentState := read.value;
      if currentState != lastState {
        pressed := ScanPresses(currentState, lastState);
        lastState := currentState;
      } else {
        UnchangedReportsNothing(currentState);
      }
    }

    /**
     * Where Run's loop stands before read j: what is still to come, added to
     * what was reported so far, is what the whole run reports and remembers.
     */
    ghost predicate Polling(inputs: seq<Option<bv8>>, j: nat, finalState: bv8, all: seq<nat>, reported: seq<nat>)
      reads this
    {
      j <= |inputs| && Remembered(lastState, inputs, j) == finalState && reported + Reported(lastState, inputs, j) == all
    }

    /** Read j handled, in the terms of Run's loop. */
    method Take(inputs: seq<Option<bv8>>, j: nat, ghost finalState: bv8, ghost all: seq<nat>, reported: seq<nat>)
      returns (r: seq<nat>)
      requires j < |inputs| && Polling(inputs, j, finalState, all, reported)
      modifies this
      ensures Polling(inputs, j + 1, finalState, all, r)
    {
      ghost var last := lastState;
      var pressed := Poll(inputs[j]);
      MonitorTake(last, inputs, j, finalState, all, reported, pressed, lastState);
      r := reported + pressed;
    }

    /** The loop over a finite run of reads: it reports and remembers what Reported and Remembered say. */
    method Run(inputs: seq<Option<bv8>>) returns (reported: seq<nat>)
      modifies this
      ensures lastState == Remembered(old(lastState), inputs, 0)
      ensures reported == Reported(old(lastState), inputs, 0)
    {
      reported := [];
      ghost var finalState := Remembered(lastState, inputs, 0);
      ghost var all := Reported(lastState, inputs, 0);
      assert reported + all == all;
      for j := 0 to |inputs|
        invariant Polling(inputs, j, finalState, all, reported)
      {
        reported := Take(inputs, j, finalState, all, reported);
      }
      assert reported + [] == reported;
    }
  }
}
