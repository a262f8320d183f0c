/**
 * The SPI transmit buffer of a WS2812B strip: LED_COUNT slots of 9 bytes
 * (the G, R and B channels, 3 encoded bytes each) followed by 100 bytes of
 * zero reset padding, and the colour values the strip is given.
 */
module Frame {
  import opened Wrappers
  import opened Ws2812

  const LED_COUNT: nat := 186
  const BITS_PER_PIXEL: nat := 24
  const SPI_BITS_PER_LED_BIT: nat := 3
  const RESET_PADDING: nat := 100

  /** Pixel bytes: (LED_COUNT * 24 colour bits * 3 SPI bits) / 8 bits per byte. */
  const DATA_LEN: nat := (LED_COUNT * BITS_PER_PIXEL * SPI_BITS_PER_LED_BIT) / 8

  /** The whole transmit buffer: pixel bytes plus the reset padding. */
  const FRAME_LEN: nat := DATA_LEN + RESET_PADDING

  /** The encoded-zero channel 100 100 100 100 100 100 100 100 as three bytes. */
  const BLACK: seq<Byte> := [0x92, 0x49, 0x24]

  /** The encoded-0xFF channel 110 110 110 110 110 110 110 110 as three bytes. */
  const FULL: seq<Byte> := [0xDB, 0x6D, 0xB6]

  /** The data region is exactly 9 bytes per LED, which is where the padding starts. */
  lemma FrameSize()
    ensures DATA_LEN == 9 * LED_COUNT
    ensures FRAME_LEN == 9 * LED_COUNT + 100
  {
  }

  // ---------------------------------------------------------------------
  // Colours: a packed 0xRRGGBB value in a uint32_t

  /** (color >> 16) & 0xFF */
  function Red(color: nat): Byte
  {
    (color / 65536) % 256
  }

  /** (color >> 8) & 0xFF */
  function Green(color: nat): Byte
  {
    (color / 256) % 256
  }

  /** color & 0xFF */
  function Blue(color: nat): Byte
  {
    color % 256
  }

  /** (r << 16) | (g << 8) | b: packing and extracting the channels are inverse. */
  function Rgb(r: Byte, g: Byte, b: Byte): (c: nat)
    ensures c < 0x100_0000
    ensures Red(c) == r && Green(c) == g && Blue(c) == b
  {
    ByteSplit(r, g, b);
    r * 65536 + g * 256 + b
  }

  /** A 24-bit colour is the packing of its own channels. */
  lemma RgbOfChannels(color: nat)
    requires color < 0x100_0000
    ensures Rgb(Red(color), Green(color), Blue(color)) == color
  {
    var r, g, b := Red(color), Green(color), Blue(color);
    assert color / 65536 == r;
    assert color / 256 == (r as int) * 256 + g;
  }

  /**
   * The 9 bytes of one LED slot. The strip wants green first, then red, then
   * blue, and every 3-byte group decodes back to its channel.
   */
  function PixelBytes(color: nat): (r: seq<Byte>)
    ensures |r| == 9
  {
    Encode(Green(color)) + Encode(Red(color)) + Encode(Blue(color))
  }

  /** Each 3-byte group of a slot decodes back to its channel, in the order G, R, B. */
  lemma PixelDecodes(color: nat)
    ensures Decode(PixelBytes(color)[0..3]) == Some(Green(color))
    ensures Decode(PixelBytes(color)[3..6]) == Some(Red(color))
    ensures Decode(PixelBytes(color)[6..9]) == Some(Blue(color))
  {
    var r := PixelBytes(color);
    assert r[0..3] == Encode(Green(color));
    assert r[3..6] == Encode(Red(color));
    assert r[6..9] == Encode(Blue(color));
    RoundTrip(Green(color));
    RoundTrip(Red(color));
    RoundTrip(Blue(color));
  }

  /** A slot is the encoding of whatever the three channels of the colour are. */
  lemma PixelOfChannels(color: nat, r: Byte, g: Byte, b: Byte)
    requires Red(color) == r && Green(color) == g && Blue(color) == b
    ensures PixelBytes(color) == Encode(g) + Encode(r) + Encode(b)
  {
  }

  /** An unlit LED (colour 0) gets the encoded-zero pattern three times. */
  lemma BlackPixel()
    ensures PixelBytes(0) == BLACK + BLACK + BLACK
  {
    PixelOfChannels(0, 0, 0, 0);
    EncodeZero();
  }

  /** White 0xFFFFFF gets 0xDB 0x6D 0xB6 three times. */
  lemma WhitePixel()
    ensures PixelBytes(0xFF_FFFF) == FULL + FULL + FULL
  {
    PixelOfChannels(0xFF_FFFF, 0xFF, 0xFF, 0xFF);
    EncodeFull();
  }

  /** Pure red 0xFF0000 is sent as green 0, red 255, blue 0. */
  lemma RedPixel()
    ensures PixelBytes(0xFF_0000) == BLACK + FULL + BLACK
  {
    PixelOfChannels(0xFF_0000, 0xFF, 0, 0);
    EncodeZero();
    EncodeFull();
  }

  // ---------------------------------------------------------------------
  // Frames

  /** Byte k of the data region of a blanked buffer. */
  function BlackByte(k: int): Byte
  {
    BLACK[k % 3]
  }

  /** The buffer after fill_black: the encoded-zero pattern over the data, zero padding. */
  function BlackFrame(): (f: seq<Byte>)
    ensures |f| == FRAME_LEN
  {
    seq(FRAME_LEN, k => if k < DATA_LEN then BlackByte(k) else 0)
  }

  /** The buffer after memset(tx_buffer, 0, tx_buffer_len). */
  function ZeroFrame(): (f: seq<Byte>)
    ensures |f| == FRAME_LEN
  {
    seq(FRAME_LEN, _ => 0)
  }

  /** The first i slots blanked with the encoded-zero pattern, every other byte zero. */
  function Progress(i: nat): (f: seq<Byte>)
    requires i <= LED_COUNT
    ensures |f| == FRAME_LEN
  {
    seq(FRAME_LEN, k => if k < 9 * i then BlackByte(k) else 0)
  }

  predicate InStrip(index: int)
  {
    0 <= index < LED_COUNT
  }

  /** The 9 bytes of slot i. */
  function Slot(f: seq<Byte>, i: nat): seq<Byte>
    requires |f| == FRAME_LEN && i < LED_COUNT
  {
    f[9 * i .. 9 * i + 9]
  }

  /** The reset padding after the data region. */
  function Padding(f: seq<Byte>): seq<Byte>
    requires |f| == FRAME_LEN
  {
    f[DATA_LEN..]
  }

  /** The buffer with slot i holding the colour. */
  function WithPixel(f: seq<Byte>, i: nat, color: nat): (g: seq<Byte>)
    requires |f| == FRAME_LEN && i < LED_COUNT
    ensures |g| == FRAME_LEN
  {
    f[..9 * i] + PixelBytes(color) + f[9 * i + 9..]
  }

  /** Slot i of the new buffer holds the pixel bytes of the colour. */
  lemma WithPixelSlot(f: seq<Byte>, i: nat, color: nat)
    requires |f| == FRAME_LEN && i < LED_COUNT
    ensures Slot(WithPixel(f, i, color), i) == PixelBytes(color)
  {
  }

  /** A second write to the same slot replaces the first. */
  lemma WithPixelOverwrite(f: seq<Byte>, i: nat, a: nat, b: nat)
    requires |f| == FRAME_LEN && i < LED_COUNT
    ensures WithPixel(WithPixel(f, i, a), i, b) == WithPixel(f, i, b)
  {
    var g := WithPixel(f, i, a);
    assert g[..9 * i] == f[..9 * i];
    assert g[9 * i + 9..] == f[9 * i + 9..];
  }

  /** Writing slot i changes no other byte, padding included. */
  lemma WithPixelElsewhere(f: seq<Byte>, i: nat, color: nat, k: int)
    requires |f| == FRAME_LEN && i < LED_COUNT
    requires 0 <= k < FRAME_LEN && !(9 * i <= k < 9 * i + 9)
    ensures WithPixel(f, i, color)[k] == f[k]
  {
  }

  /** Byte k of slot i sits at the same place in the 3-byte pattern as byte k of slot 0. */
  lemma SlotPhase(i: nat, m: nat)
    ensures (9 * i + m) % 3 == m % 3
  {
    assert 9 * i + m == 3 * (3 * i) + m;
  }

  /** Writing slot i leaves every other slot as it was. */
  lemma WithPixelOtherSlot(f: seq<Byte>, i: nat, color: nat, j: nat)
    requires |f| == FRAME_LEN && i < LED_COUNT && j < LED_COUNT && j != i
    ensures Slot(WithPixel(f, i, color), j) == Slot(f, j)
  {
    forall m | 0 <= m < 9
      ensures Slot(WithPixel(f, i, color), j)[m] == Slot(f, j)[m]
    {
      assert !(9 * i <= 9 * j + m < 9 * i + 9);
      WithPixelElsewhere(f, i, color, 9 * j + m);
    }
  }

  /** The slots before i of the progress buffer hold encoded black, the others are still zero. */
  lemma ProgressSlot(i: nat, j: nat)
    requires i <= LED_COUNT && j < LED_COUNT
    ensures Slot(Progress(i), j) == if j < i then BLACK + BLACK + BLACK else seq(9, _ => 0)
  {
    var s: seq<Byte>, p: seq<Byte> := Slot(Progress(i), j), if j < i then BLACK + BLACK + BLACK else seq(9, _ => 0);
    forall m | 0 <= m < 9
      ensures s[m] == p[m]
    {
      SlotPhase(j, m);
      assert s[m] == Progress(i)[9 * j + m];
      assert (9 * j + m < 9 * i) == (j < i);
    }
  }

  /** Every slot of the blanked buffer is the encoding of colour 0. */
  lemma BlackSlot(i: nat)
    requires i < LED_COUNT
    ensures Slot(BlackFrame(), i) == BLACK + BLACK + BLACK
  {
    ProgressEnds();
    ProgressSlot(LED_COUNT, i);
  }

  /** Every slot of the blanked buffer decodes to channel value 0 on all three channels. */
  lemma BlackSlotDecodes(i: nat)
    requires i < LED_COUNT
    ensures Decode(Slot(BlackFrame(), i)[0..3]) == Some(0)
    ensures Decode(Slot(BlackFrame(), i)[3..6]) == Some(0)
    ensures Decode(Slot(BlackFrame(), i)[6..9]) == Some(0)
  {
    BlackSlot(i);
    BlackDecodes();
    ThirdsOfBlack(Slot(BlackFrame(), i));
  }

  /** The black pattern is the encoding of 0. */
  lemma BlackDecodes()
    ensures Decode(BLACK) == Some(0)
  {
    EncodeZero();
    RoundTrip(0);
  }

  lemma ThirdsOfBlack(s: seq<Byte>)
    requires s == BLACK + BLACK + BLACK
    ensures s[0..3] == BLACK && s[3..6] == BLACK && s[6..9] == BLACK
  {
  }

  /**
   * The buffer update_display sends: the slot of LED i holds the colour,
   * every other slot the encoding of black, and the padding is zero.
   */
  lemma DisplayLayout(i: nat, color: nat, j: nat)
    requires i < LED_COUNT && j < LED_COUNT
    ensures Slot(WithPixel(BlackFrame(), i, color), j) == (if j == i then PixelBytes(color) else BLACK + BLACK + BLACK)
    ensures Padding(WithPixel(BlackFrame(), i, color)) == seq(RESET_PADDING, _ => 0)
  {
    var f := WithPixel(BlackFrame(), i, color);
    if j != i {
      BlackSlot(j);
      WithPixelOtherSlot(BlackFrame(), i, color, j);
    }
    forall k | 0 <= k < RESET_PADDING
      ensures Padding(f)[k] == 0
    {
      WithPixelElsewhere(BlackFrame(), i, color, DATA_LEN + k);
    }
  }

  /** A colour whose three channels are 0 is sent as three black patterns. */
  lemma OffPixel(off: nat)
    requires Red(off) == 0 && Green(off) == 0 && Blue(off) == 0
    ensures PixelBytes(off) == BLACK + BLACK + BLACK
  {
    EncodeZero();
  }

  /** Turning LED i off after slots 0..i-1 extends the blanked prefix by one slot. */
  lemma ProgressStep(i: nat, off: nat)
    requires i < LED_COUNT && Red(off) == 0 && Green(off) == 0 && Blue(off) == 0
    ensures WithPixel(Progress(i), i, off) == Progress(i + 1)
  {
    var f, g := WithPixel(Progress(i), i, off), Progress(i + 1);
    OffPixel(off);
    WithPixelSlot(Progress(i), i, off);
    ProgressSlot(i + 1, i);
    assert Slot(f, i) == Slot(g, i);
    forall k | 0 <= k < FRAME_LEN
      ensures f[k] == g[k]
    {
      if 9 * i <= k < 9 * i + 9 {
        assert f[k] == Slot(f, i)[k - 9 * i];
        assert g[k] == Slot(g, i)[k - 9 * i];
      } else {
        WithPixelElsewhere(Progress(i), i, off, k);
      }
    }
  }

  /** The progress buffer starts all zero and ends as the blanked buffer. */
  lemma ProgressEnds()
    ensures Progress(0) == ZeroFrame()
    ensures Progress(LED_COUNT) == BlackFrame()
  {
  }

  // ---------------------------------------------------------------------
  // The write shared by both set_pixel variants, once the index is in range

  /**
   * Extracts r, g and b from the colour and encodes g, r, b into the 9 bytes
   * at index * 9, in that order.
   */
  method WritePixel(buf: array<Byte>, index: nat, color: nat)
    requires buf.Length == FRAME_LEN && InStrip(index)
    modifies buf
    ensures buf[..] == WithPixel(old(buf[..]), index, color)
  {
    ghost var before := buf[..];
    var r, g, b := Red(color), Green(color), Blue(color);
    var off := index * 9;
    EncodeByte(g, buf, off);
    EncodeByte(r, buf, off + 3);
    EncodeByte(b, buf, off + 6);
    PixelSplices(before, index, color);
  }

  /** Splicing in the three channel encodings at a slot, one after the other, writes the pixel. */
  lemma PixelSplices(f: seq<Byte>, i: nat, color: nat)
    requires |f| == FRAME_LEN && i < LED_COUNT
    ensures Splice(Splice(Splice(f, 9 * i, Encode(Green(color))), 9 * i + 3, Encode(Red(color))), 9 * i + 6, Encode(Blue(color)))
            == WithPixel(f, i, color)
  {
    var off := 9 * i;
    var eg, er, eb := Encode(Green(color)), Encode(Red(color)), Encode(Blue(color));
    var a := Splice(f, off, eg);
    var b := Splice(a, off + 3, er);
    var c := Splice(b, off + 6, eb);
    var want := WithPixel(f, i, color);
    forall k | 0 <= k < FRAME_LEN
      ensures c[k] == want[k]
    {
      if k < off || off + 9 <= k {
        WithPixelElsewhere(f, i, color, k);
      } else {
        assert want[k] == Slot(want, i)[k - off];
      }
    }
  }
}
