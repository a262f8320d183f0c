/**
 * The interactive WS2812B controller: a cursor over the strip, the current
 * colour, and the transmit buffer that update_display rebuilds after every
 * key (blank everything, paint the one LED under the cursor, send).
 */
module SpiImprovedUi {
  import opened Ws2812
  import opened Frame

  const COLOR_STEP: int := 16
  const INTENSITY_STEP: int := 20

  /** The start-up colour, also what key 'w' ("white") sets. */
  const INITIAL_COLOR: nat := 0x8F_8F8F

  // ---------------------------------------------------------------------
  // clamp

  function Dist(a: int, b: int): nat
  {
    if a >= b then a - b else b - a
  }

  /** The safety clamp of a channel computation into 0..255. */
  function Clamp(val: int): (r: Byte)
    ensures 0 <= val < 256 ==> r == val
  {
    if val > 255 then 255 else if val < 0 then 0 else val
  }

  /** Clamp picks the byte value nearest to its argument. */
  lemma ClampNearest(val: int, y: Byte)
    ensures Dist(Clamp(val), val) <= Dist(y, val)
  {
  }

  /** Clamp never reverses an order. */
  lemma ClampMonotone(u: int, v: int)
    requires u <= v
    ensures Clamp(u) <= Clamp(v)
  {
  }

  // ---------------------------------------------------------------------
  // The cursor: keys 'a' and 's'

  /** current_led_index after a key; only 'a' and 's' move it, circularly. */
  function CursorAfter(index: int, key: char): (i: int)
    requires InStrip(index)
    ensures InStrip(i)
    ensures key != 'a' && key != 's' ==> i == index
  {
    if key == 'a' then (index + 1) % LED_COUNT
    else if key == 's' then (index - 1 + LED_COUNT) % LED_COUNT
    else index
  }

  /** 'a' then 's', or 's' then 'a', puts the cursor back where it was. */
  lemma CursorUndo(index: int)
    requires InStrip(index)
    ensures CursorAfter(CursorAfter(index, 'a'), 's') == index
    ensures CursorAfter(CursorAfter(index, 's'), 'a') == index
  {
    if index == LED_COUNT - 1 {
      assert CursorAfter(index, 'a') == 0;
    } else {
      assert CursorAfter(index, 'a') == index + 1;
    }
    if index == 0 {
      assert CursorAfter(index, 's') == LED_COUNT - 1;
    } else {
      assert CursorAfter(index, 's') == index - 1;
    }
  }

  /** 'a' on the last LED wraps to the first, 's' on the first wraps to the last. */
  lemma CursorWraps()
    ensures CursorAfter(LED_COUNT - 1, 'a') == 0
    ensures CursorAfter(0, 's') == LED_COUNT - 1
  {
  }

  // ---------------------------------------------------------------------
  // The colour: keys 'e', 'r', 't', 'w', 'd', 'f'

  function Max3(r: Byte, g: Byte, b: Byte): (m: Byte)
    ensures m >= r && m >= g && m >= b
    ensures m == r || m == g || m == b
  {
    if r > g then (if r > b then r else b) else (if g > b then g else b)
  }

  /**
   * current_color after a key. 'e', 'r' and 't' push one channel up by
   * COLOR_STEP and the other two down by COLOR_STEP / 2, each through Clamp;
   * 'w' sets INITIAL_COLOR. 'd' and 'f' rescale all channels in floating
   * point; `scaled` stands for the colour that rescaling produces, and only
   * the integer cases around it are computed here: 'd' on black gives every
   * channel INTENSITY_STEP, 'd' with a saturated channel and 'f' on black
   * change nothing.
   */
  function ColorAfter(color: nat, key: char, scaled: nat): (c: nat)
    requires color < 0x100_0000 && scaled < 0x100_0000
    ensures c < 0x100_0000
  {
    var r, g, b := Red(color), Green(color), Blue(color);
    match key
    case 'e' => Rgb(Clamp(r + COLOR_STEP), Clamp(g - COLOR_STEP / 2), Clamp(b - COLOR_STEP / 2))
    case 'r' => Rgb(Clamp(r - COLOR_STEP / 2), Clamp(g + COLOR_STEP), Clamp(b - COLOR_STEP / 2))
    case 't' => Rgb(Clamp(r - COLOR_STEP / 2), Clamp(g - COLOR_STEP / 2), Clamp(b + COLOR_STEP))
    case 'w' => INITIAL_COLOR
    case 'd' =>
      var m := Max3(r, g, b);
      if m == 0 then Rgb(INTENSITY_STEP, INTENSITY_STEP, INTENSITY_STEP)
      else if Clamp(m + INTENSITY_STEP) == m then color
      else scaled
    case 'f' => if Max3(r, g, b) == 0 then color else scaled
    case _ => color
  }

  function Min(a: int, b: int): int
  {
    if a <= b then a else b
  }

  function Max(a: int, b: int): int
  {
    if a >= b then a else b
  }

  /**
   * 'e' raises red by 16 up to 255 and lowers green and blue by 8 down to 0;
   * 'r' and 't' do the same for green and for blue.
   */
  lemma ShiftTowards(color: nat, scaled: nat)
    requires color < 0x100_0000 && scaled < 0x100_0000
    ensures var c := ColorAfter(color, 'e', scaled);
            Red(c) == Min(Red(color) + 16, 255) && Green(c) == Max(Green(color) - 8, 0) && Blue(c) == Max(Blue(color) - 8, 0)
    ensures var c := ColorAfter(color, 'r', scaled);
            Red(c) == Max(Red(color) - 8, 0) && Green(c) == Min(Green(color) + 16, 255) && Blue(c) == Max(Blue(color) - 8, 0)
    ensures var c := ColorAfter(color, 't', scaled);
            Red(c) == Max(Red(color) - 8, 0) && Green(c) == Max(Green(color) - 8, 0) && Blue(c) == Min(Blue(color) + 16, 255)
  {
  }

  /** 'w' sets every channel to 0x8F whatever the colour was. */
  lemma WhiteKey(color: nat, scaled: nat)
    requires color < 0x100_0000 && scaled < 0x100_0000
    ensures var c := ColorAfter(color, 'w', scaled);
            Red(c) == 0x8F && Green(c) == 0x8F && Blue(c) == 0x8F
  {
  }

  /**
   * The integer cases of the intensity keys: 'd' lights a black LED at
   * INTENSITY_STEP on every channel and leaves a colour with a channel at
   * 255 alone; 'f' leaves black alone.
   */
  lemma IntensityEdges(color: nat, scaled: nat)
    requires color < 0x100_0000 && scaled < 0x100_0000
    ensures color == 0 ==> var c := ColorAfter(color, 'd', scaled);
                           Red(c) == 20 && Green(c) == 20 && Blue(c) == 20
    ensures color == 0 ==> ColorAfter(color, 'f', scaled) == 0
    ensures (Red(color) == 255 || Green(color) == 255 || Blue(color) == 255) ==> ColorAfter(color, 'd', scaled) == color
  {
    if color == 0 {
      assert Red(color) == 0 && Green(color) == 0 && Blue(color) == 0;
    }
  }

  /** Any key other than the colour keys keeps the colour. */
  lemma OtherKeysKeepColor(color: nat, key: char, scaled: nat)
    requires color < 0x100_0000 && scaled < 0x100_0000
    requires key !in "ertwdf"
    ensures ColorAfter(color, key, scaled) == color
  {
  }

  /**
   * The colour part of main's switch: the channels of current_color are
   * extracted, adjusted per key and packed again.
   */
  method NextColor(color: nat, key: char, scaled: nat) returns (c: nat)
    requires color < 0x100_0000 && scaled < 0x100_0000
    ensures c == ColorAfter(color, key, scaled)
  {
    var r, g, b := Red(color), Green(color), Blue(color);
    c := color;
    if key == 'e' {
      r, g, b := Clamp(r + COLOR_STEP), Clamp(g - COLOR_STEP / 2), Clamp(b - COLOR_STEP / 2);
      c := Rgb(r, g, b);
    } else if key == 'r' {
      r, g, b := Clamp(r - COLOR_STEP / 2), Clamp(g + COLOR_STEP), Clamp(b - COLOR_STEP / 2);
      c := Rgb(r, g, b);
    } else if key == 't' {
      r, g, b := Clamp(r - COLOR_STEP / 2), Clamp(g - COLOR_STEP / 2), Clamp(b + COLOR_STEP);
      c := Rgb(r, g, b);
    } else if key == 'w' {
      c := INITIAL_COLOR;
    } else if key == 'd' {
      var maxVal := Max3(r, g, b);
      if maxVal == 0 {
        c := Rgb(INTENSITY_STEP, INTENSITY_STEP, INTENSITY_STEP);
      } else if Clamp(maxVal + INTENSITY_STEP) != maxVal {
        c := scaled;
      }
    } else if key == 'f' {
      if Max3(r, g, b) != 0 {
        c := scaled;
      }
    }
  }

  predicate AllColors(scaled: seq<nat>)
  {
    forall j :: 0 <= j < |scaled| ==> scaled[j] < 0x100_0000
  }

  /**
   * The cursor and colour after reading keys[from..] one by one, stopping at
   * 'q' or at the end of input; scaled[j] is the rescaled colour for keys[j].
   */
  function Replay(index: int, color: nat, keys: seq<char>, scaled: seq<nat>, from: nat): (s: (int, nat))
    requires InStrip(index) && color < 0x100_0000 && |scaled| == |keys| && AllColors(scaled)
    requires from <= |keys|
    ensures InStrip(s.0) && s.1 < 0x100_0000
    decreases |keys| - from
  {
    if from == |keys| || keys[from] == 'q' then (index, color)
    else Replay(CursorAfter(index, keys[from]), ColorAfter(color, keys[from], scaled[from]), keys, scaled, from + 1)
  }

  /** Keys after a 'q' are never read: cutting the input just after it changes nothing. */
  lemma {:induction false} ReplayStopsAtQuit(index: int, color: nat, keys: seq<char>, scaled: seq<nat>, from: nat, q: nat)
    requires InStrip(index) && color < 0x100_0000 && |scaled| == |keys| && AllColors(scaled)
    requires from <= q < |keys| && keys[q] == 'q'
    ensures Replay(index, color, keys, scaled, from) == Replay(index, color, keys[..q + 1], scaled[..q + 1], from)
    decreases q - from
  {
    if keys[from] != 'q' {
      ReplayStopsAtQuit(CursorAfter(index, keys[from]), ColorAfter(color, keys[from], scaled[from]), keys, scaled, from + 1, q);
    }
  }

  lemma WrapAdd(a: nat, m: nat)
    ensures (a % LED_COUNT + m) % LED_COUNT == (a + m) % LED_COUNT
  {
    var q := a / LED_COUNT;
    assert a + m == (a % LED_COUNT + m) + q * LED_COUNT;
  }

  /** Only 'a', pressed n times: the colour stays and the cursor advances by n, wrapping. */
  lemma {:induction false} ReplayAdvance(index: int, color: nat, keys: seq<char>, scaled: seq<nat>, from: nat)
    requires InStrip(index) && color < 0x100_0000 && |scaled| == |keys| && AllColors(scaled)
    requires from <= |keys| && forall j :: from <= j < |keys| ==> keys[j] == 'a'
    ensures Replay(index, color, keys, scaled, from) == ((index + |keys| - from) % LED_COUNT, color)
    decreases |keys| - from
  {
    if from < |keys| {
      assert ColorAfter(color, 'a', scaled[from]) == color;
      ReplayAdvance(CursorAfter(index, 'a'), color, keys, scaled, from + 1);
      WrapAdd(index + 1, |keys| - from - 1);
    }
  }

  /** Any whole number of turns of 'a' around the strip brings the cursor back. */
  lemma FullCircle(index: int, color: nat, keys: seq<char>, scaled: seq<nat>)
    requires InStrip(index) && color < 0x100_0000 && |scaled| == |keys| && AllColors(scaled)
    requires |keys| % LED_COUNT == 0 && forall j :: 0 <= j < |keys| ==> keys[j] == 'a'
    ensures Replay(index, color, keys, scaled, 0) == (index, color)
  {
    ReplayAdvance(index, color, keys, scaled, 0);
    Turns(index, |keys| / LED_COUNT);
  }

  lemma Turns(index: int, q: nat)
    requires InStrip(index)
    ensures (index + q * LED_COUNT) % LED_COUNT == index
  {
  }

  /**
   * The buffers the key loop sends for keys[from..]: one per key read, the
   * display after that key, or the blanked buffer for 'q', which ends the loop.
   */
  function Screens(index: int, color: nat, keys: seq<char>, scaled: seq<nat>, from: nat): seq<seq<Byte>>
    requires InStrip(index) && color < 0x100_0000 && |scaled| == |keys| && AllColors(scaled)
    requires from <= |keys|
    decreases |keys| - from
  {
    if from == |keys| then []
    else if keys[from] == 'q' then [BlackFrame()]
    else
      var i2, c2 := CursorAfter(index, keys[from]), ColorAfter(color, keys[from], scaled[from]);
      [WithPixel(BlackFrame(), i2, c2)] + Screens(i2, c2, keys, scaled, from + 1)
  }

  /**
   * One buffer per key up to and including the first 'q'; the last buffer is
   * the blanked one when a 'q' was read, and otherwise the display of the
   * state the keys lead to.
   */
  lemma {:induction false} ScreensLast(index: int, color: nat, keys: seq<char>, scaled: seq<nat>, from: nat)
    requires InStrip(index) && color < 0x100_0000 && |scaled| == |keys| && AllColors(scaled)
    requires from < |keys|
    ensures |Screens(index, color, keys, scaled, from)| > 0
    ensures 'q' in keys[from..] ==> Screens(index, color, keys, scaled, from)[|Screens(index, color, keys, scaled, from)| - 1] == BlackFrame()
    ensures 'q' !in keys[from..] ==> Screens(index, color, keys, scaled, from)[|Screens(index, color, keys, scaled, from)| - 1]
                                     == WithPixel(BlackFrame(), Replay(index, color, keys, scaled, from).0, Replay(index, color, keys, scaled, from).1)
    decreases |keys| - from
  {
    assert keys[from..] == [keys[from]] + keys[from + 1..];
    if keys[from] != 'q' {
      var i2, c2 := CursorAfter(index, keys[from]), ColorAfter(color, keys[from], scaled[from]);
      if from + 1 < |keys| {
        ScreensLast(i2, c2, keys, scaled, from + 1);
      }
    }
  }

  lemma AppendAssoc<T>(a: seq<T>, b: seq<T>, c: seq<T>)
    ensures a + (b + c) == (a + b) + c
  {
  }

  // ---------------------------------------------------------------------
  // The controller state and its transmit buffer

  class Controller {
    /** tx_buffer, tx_buffer_len == tx.Length */
    var tx: array<Byte>
    var currentLedIndex: int
    var currentColor: nat
    /** Every buffer handed to the SPI device so far, oldest first. */
    var sent: seq<seq<Byte>>

    ghost predicate Valid()
      reads this
    {
      tx.Length == FRAME_LEN && InStrip(currentLedIndex) && currentColor < 0x100_0000
    }

    /** spi_init once the device is open and the buffer allocated: blank and send. */
    constructor ()
      ensures Valid() && fresh(tx)
      ensures currentLedIndex == 0 && currentColor == INITIAL_COLOR
      ensures tx[..] == BlackFrame() && sent == [BlackFrame()]
    {
      tx := new Byte[FRAME_LEN];
      currentLedIndex := 0;
      currentColor := INITIAL_COLOR;
      sent := [];
      new;
      FillBlack();
      Show();
    }

    /** The encoded-zero pattern over every slot, then zero padding. */
    method FillBlack()
      requires tx.Length == FRAME_LEN
      modifies tx
      ensures tx[..] == BlackFrame()
    {
      for i := 0 to LED_COUNT * 3
        invariant forall k :: 0 <= k < 3 * i ==> tx[k] == BlackByte(k)
      {
        assert (i * 3) % 3 == 0 && (i * 3 + 1) % 3 == 1 && (i * 3 + 2) % 3 == 2;
        tx[i * 3 + 0] := 0x92;
        tx[i * 3 + 1] := 0x49;
        tx[i * 3 + 2] := 0x24;
      }
      var dataEnd := LED_COUNT * 9;
      forall k | dataEnd <= k < tx.Length {
        tx[k] := 0;
      }
      assert tx[..] == BlackFrame();
    }

    /** set_pixel: out-of-strip indices, negative ones included, are ignored. */
    method SetPixel(index: int, color: nat)
      requires tx.Length == FRAME_LEN
      modifies tx
      ensures tx[..] == if InStrip(index) then WithPixel(old(tx[..]), index, color) else old(tx[..])
    {
      if index < 0 || index >= LED_COUNT {
        return;
      }
      WritePixel(tx, index, color);
    }

    /** show: the whole buffer goes to the device. */
    method Show()
      modifies this
      ensures sent == old(sent) + [tx[..]]
      ensures tx == old(tx) && currentLedIndex == old(currentLedIndex) && currentColor == old(currentColor)
    {
      sent := sent + [tx[..]];
    }

    /** update_display: blank, paint the LED under the cursor, send. */
    method UpdateDisplay()
      requires Valid()
      modifies this, tx
      ensures Valid() && tx == old(tx)
      ensures currentLedIndex == old(currentLedIndex) && currentColor == old(currentColor)
      ensures tx[..] == WithPixel(BlackFrame(), currentLedIndex, currentColor)
      ensures sent == old(sent) + [tx[..]]
    {
      FillBlack();
      SetPixel(currentLedIndex, currentColor);
      Show();
    }

    /** cleanup: blank and send, so the LEDs are physically off. */
    method Cleanup()
      requires Valid()
      modifies this, tx
      ensures Valid() && tx == old(tx)
      ensures currentLedIndex == old(currentLedIndex) && currentColor == old(currentColor)
      ensures tx[..] == BlackFrame() && sent == old(sent) + [BlackFrame()]
    {
      FillBlack();
      Show();
    }

    /** One pass of main's loop for a key that was read. */
    method HandleKey(key: char, scaled: nat) returns (quit: bool)
      requires Valid() && scaled < 0x100_0000
      modifies this, tx
      ensures Valid() && tx == old(tx)
      ensures quit <==> key == 'q'
      ensures sent == old(sent) + [tx[..]]
      ensures quit ==> currentLedIndex == old(currentLedIndex) && currentColor == old(currentColor)
                       && tx[..] == BlackFrame()
      ensures !quit ==> currentLedIndex == CursorAfter(old(currentLedIndex), key)
                        && currentColor == ColorAfter(old(currentColor), key, scaled)
                        && tx[..] == WithPixel(BlackFrame(), currentLedIndex, currentColor)
    {
      if key == 'q' {
        Cleanup();
        return true;
      }
      if key == 'a' {
        currentLedIndex := (currentLedIndex + 1) % LED_COUNT;
      } else if key == 's' {
        currentLedIndex := (currentLedIndex - 1 + LED_COUNT) % LED_COUNT;
      }
      currentColor := NextColor(currentColor, key, scaled);
      UpdateDisplay();
      quit := false;
    }

    /**
     * main after initialisation: one display update, then the key loop.
     * scaled[j] is the rescaled colour for keys[j] when that key is 'd' or 'f'.
     */
    method Run(keys: seq<char>, scaled: seq<nat>)
      requires Valid() && |scaled| == |keys| && AllColors(scaled)
      modifies this, tx
      ensures Valid() && tx == old(tx)
      ensures (currentLedIndex, currentColor) == Replay(old(currentLedIndex), old(currentColor), keys, scaled, 0)
      ensures sent == old(sent) + [WithPixel(BlackFrame(), old(currentLedIndex), old(currentColor))]
                      + Screens(old(currentLedIndex), old(currentColor), keys, scaled, 0)
      ensures 'q' in keys ==> tx[..] == BlackFrame()
      ensures 'q' !in keys ==> tx[..] == WithPixel(BlackFrame(), currentLedIndex, currentColor)
    {
      UpdateDisplay();
      Serve(keys, scaled);
    }

    /**
     * Where Serve's loop stands before key j: no 'q' read yet, the display of
     * the current cursor and colour in the buffer, and `log` and `target`
     * what the loop will have sent and the state it will end in.
     */
    ghost predicate Serving(keys: seq<char>, scaled: seq<nat>, j: nat, log: seq<seq<Byte>>, target: (int, nat))
      reads this, tx
    {
      Valid() && |scaled| == |keys| && AllColors(scaled) && j <= |keys|
      && (forall k :: 0 <= k < j ==> keys[k] != 'q')
      && tx[..] == WithPixel(BlackFrame(), currentLedIndex, currentColor)
      && log == sent + Screens(currentLedIndex, currentColor, keys, scaled, j)
      && target == Replay(currentLedIndex, currentColor, keys, scaled, j)
    }

    /** Key j of the input handled, in the terms of Serve's loop. */
    method Pass(keys: seq<char>, scaled: seq<nat>, j: nat, ghost log: seq<seq<Byte>>, ghost target: (int, nat))
      returns (quit: bool)
      requires Serving(keys, scaled, j, log, target) && j < |keys|
      modifies this, tx
      ensures tx == old(tx)
      ensures quit <==> keys[j] == 'q'
      ensures quit ==> Valid() && log == sent && target == (currentLedIndex, currentColor) && tx[..] == BlackFrame()
      ensures !quit ==> Serving(keys, scaled, j + 1, log, target)
    {
      ghost var before := sent;
      quit := HandleKey(keys[j], scaled[j]);
      if !quit {
        AppendAssoc(before, [tx[..]], Screens(currentLedIndex, currentColor, keys, scaled, j + 1));
      }
    }

    /**
     * main's loop: one HandleKey per key read, until 'q' or the end of input.
     * Every pass sends one buffer; the buffer left in place is the display of
     * the final cursor and colour, or the blank buffer after 'q'.
     */
    method Serve(keys: seq<char>, scaled: seq<nat>)
      requires Valid() && |scaled| == |keys| && AllColors(scaled)
      requires tx[..] == WithPixel(BlackFrame(), currentLedIndex, currentColor)
      modifies this, tx
      ensures Valid() && tx == old(tx)
      ensures (currentLedIndex, currentColor) == Replay(old(currentLedIndex), old(currentColor), keys, scaled, 0)
      ensures sent == old(sent) + Screens(old(currentLedIndex), old(currentColor), keys, scaled, 0)
      ensures 'q' in keys ==> tx[..] == BlackFrame()
      ensures 'q' !in keys ==> tx[..] == WithPixel(BlackFrame(), currentLedIndex, currentColor)
    {
      ghost var log := sent + Screens(currentLedIndex, currentColor, keys, scaled, 0);
      ghost var target := Replay(currentLedIndex, currentColor, keys, scaled, 0);
      var j := 0;
      while j < |keys|
        invariant tx == old(tx) && Serving(keys, scaled, j, log, target)
      {
        var quit := Pass(keys, scaled, j, log, target);
        if quit {
          assert keys[j] in keys;
          return;
        }
        j := j + 1;
      }
      assert sent + [] == sent;
    }
  }
}
