/**
 * The first WS2812B test program: it zero-fills the transmit buffer, then
 * walks the strip lighting one LED white at a time and switching it off
 * again, and zero-fills and sends the buffer on exit.
 */
module SpiBasic {
  import opened Wrappers
  import opened Ws2812
  import opened Frame

  const WHITE: nat := 0xFF_FFFF

  /** The test of set_pixel: only an index past the end of the strip is refused. */
  predicate Admits(index: int)
  {
    !(index >= LED_COUNT)
  }

  /**
   * The guard lets -1 through, and slot -1 would start 9 bytes before the
   * buffer: every negative index is admitted and lies outside the strip.
   */
  lemma NegativeIndexAdmitted(index: int)
    requires index < 0
    ensures Admits(index) && !InStrip(index) && 9 * index < 0
  {
  }

  /** The zero-filled buffer carries no decodable channel in any slot. */
  lemma ZeroSlotsCarryNothing(i: nat)
    requires i < LED_COUNT
    ensures Decode(Slot(ZeroFrame(), i)[0..3]) == None
    ensures Decode(Slot(ZeroFrame(), i)[3..6]) == None
    ensures Decode(Slot(ZeroFrame(), i)[6..9]) == None
  {
    var s := Slot(ZeroFrame(), i);
    assert forall m :: 0 <= m < 9 ==> s[m] == 0;
    assert s[0..3] == [0, 0, 0];
    assert s[3..6] == [0, 0, 0];
    assert s[6..9] == [0, 0, 0];
    ZeroNotDecodable();
  }

  lemma ZeroNotDecodable()
    ensures Decode([0, 0, 0]) == None
  {
    var u := Unpack([0, 0, 0]);
    assert u[0] == DataBits(0)[0];
    BitsMsbAt(0, 8, 7);
  }

  /**
   * The buffers the test loop sends for LEDs 0..n-1 when it lights them in
   * `color`: for each LED, the buffer with it lit, then the buffer with it
   * encoded black again.
   */
  function TestFrames(n: nat, color: nat): (frames: seq<seq<Byte>>)
    requires n <= LED_COUNT
    ensures |frames| == 2 * n
  {
    if n == 0 then []
    else TestFrames(n - 1, color) + [WithPixel(Progress(n - 1), n - 1, color), Progress(n)]
  }

  /**
   * While LED i is lit, the LEDs before it hold encoded black, LED i holds
   * 0xDB 0x6D 0xB6 on every channel, and the slots after it are still zero.
   */
  lemma LitFrameLayout(i: nat, j: nat)
    requires i < LED_COUNT && j < LED_COUNT
    ensures j < i ==> Slot(WithPixel(Progress(i), i, WHITE), j) == BLACK + BLACK + BLACK
    ensures j == i ==> Slot(WithPixel(Progress(i), i, WHITE), j) == FULL + FULL + FULL
    ensures j > i ==> Slot(WithPixel(Progress(i), i, WHITE), j) == seq(9, _ => 0)
  {
    if j == i {
      WhitePixel();
    } else {
      WithPixelOtherSlot(Progress(i), i, WHITE, j);
      ProgressSlot(i, j);
    }
  }

  /** Frame 2i of the test lights LED i and frame 2i+1 has the first i+1 LEDs black. */
  lemma {:induction false} TestFrameAt(n: nat, i: nat, color: nat)
    requires n <= LED_COUNT && i < n
    ensures TestFrames(n, color)[2 * i] == WithPixel(Progress(i), i, color)
    ensures TestFrames(n, color)[2 * i + 1] == Progress(i + 1)
  {
    if i < n - 1 {
      TestFrameAt(n - 1, i, color);
    }
  }

  class Strip {
    /** tx_buffer, tx_buffer_len == tx.Length */
    var tx: array<Byte>
    /** Every buffer handed to the SPI device so far, oldest first. */
    var sent: seq<seq<Byte>>

    /** spi_init once the device is open and the buffer allocated: zero-filled, nothing sent. */
    constructor ()
      ensures fresh(tx) && tx[..] == ZeroFrame() && sent == []
    {
      tx := new Byte[FRAME_LEN](_ => 0);
      sent := [];
    }

    /** show: the whole buffer goes to the device. */
    method Show()
      modifies this
      ensures tx == old(tx) && sent == old(sent) + [tx[..]]
    {
      sent := sent + [tx[..]];
    }

    /** memset of the whole buffer to zero. */
    method ZeroFill()
      requires tx.Length == FRAME_LEN
      modifies tx
      ensures tx[..] == ZeroFrame()
    {
      forall k | 0 <= k < tx.Length {
        tx[k] := 0;
      }
    }

    /** clear: zero-fill and send. */
    method Clear()
      requires tx.Length == FRAME_LEN
      modifies this, tx
      ensures tx == old(tx) && tx[..] == ZeroFrame() && sent == old(sent) + [ZeroFrame()]
    {
      ZeroFill();
      Show();
    }

    /** cleanup: the same zero-fill and send, meant to switch every LED off. */
    method Cleanup()
      requires tx.Length == FRAME_LEN
      modifies this, tx
      ensures tx == old(tx) && tx[..] == ZeroFrame() && sent == old(sent) + [ZeroFrame()]
    {
      Clear();
    }

    /**
     * set_pixel: an index at or past LED_COUNT is ignored. A negative index
     * passes the guard and writes before the buffer, which is undefined
     * behaviour, so it is a precondition here.
     */
    method SetPixel(index: int, color: nat)
      requires tx.Length == FRAME_LEN && index >= 0
      modifies tx
      ensures tx[..] == if InStrip(index) then WithPixel(old(tx[..]), index, color) else old(tx[..])
    {
      if !Admits(index) {
        return;
      }
      WritePixel(tx, index, color);
    }

    /** One turn of main's loop: light LED i white, send, set it to black, send. */
    method TestLed(i: nat)
      requires tx.Length == FRAME_LEN && i < LED_COUNT && tx[..] == Progress(i)
      modifies this, tx
      ensures tx == old(tx) && tx[..] == Progress(i + 1)
      ensures sent == old(sent) + [WithPixel(Progress(i), i, WHITE), Progress(i + 1)]
    {
      ghost var before := tx[..];
      SetPixel(i, WHITE);
      Show();
      SetPixel(i, 0x00_0000);
      WithPixelOverwrite(before, i, WHITE, 0x00_0000);
      ProgressStep(i, 0x00_0000);
      Show();
    }

    /**
     * main after spi_init: clear, then for every LED light it white, send,
     * switch it off, send; finally cleanup.
     */
    method Run()
      requires tx.Length == FRAME_LEN
      modifies this, tx
      ensures tx == old(tx) && tx[..] == ZeroFrame()
      ensures sent == old(sent) + [ZeroFrame()] + TestFrames(LED_COUNT, WHITE) + [ZeroFrame()]
    {
      Clear();
      ProgressEnds();
      ghost var start := sent;
      for i := 0 to LED_COUNT
        invariant tx == old(tx) && tx[..] == Progress(i)
        invariant sent == start + TestFrames(i, WHITE)
      {
        TestLed(i);
        FramesSnoc(start, i);
      }
      Cleanup();
    }
  }

  /** Appending the two buffers of LED i extends the sent log by TestFrames(i + 1, WHITE). */
  lemma FramesSnoc(start: seq<seq<Byte>>, i: nat)
    requires i < LED_COUNT
    ensures start + TestFrames(i, WHITE) + [WithPixel(Progress(i), i, WHITE), Progress(i + 1)] == start + TestFrames(i + 1, WHITE)
  {
  }
}
