/**
 * The WS2812B data-bit encoding used when the strip is driven from an SPI
 * line: every data bit of a colour channel becomes three SPI "symbol bits",
 * 110 for a one and 100 for a zero, so one 8-bit channel becomes 24 symbol
 * bits, sent as 3 bytes most significant bit first.
 *
 * SpiImage is the reference definition, built from bit strings; Encode is the
 * same three bytes computed as a number (EncodeIsSpiImage); EncodeByte is the
 * shifting loop of encode_byte, proved to write exactly Encode(val).
 */
module Ws2812 {
  import opened Wrappers

  /** An unsigned 8-bit value (uint8_t). */
  type Byte = x: int | 0 <= x < 256

  /** 2 to the power n. */
  function Pow2(n: nat): (r: nat)
    ensures r >= 1
  {
    if n == 0 then 1 else 2 * Pow2(n - 1)
  }

  /** `v >> n` for a non-negative v: n halvings. */
  function Shr(v: nat, n: nat): nat
  {
    if n == 0 then v else Shr(v / 2, n - 1)
  }

  /** The n low bits of v, most significant first. */
  function BitsMsb(v: nat, n: nat): (bits: seq<bool>)
    ensures |bits| == n
  {
    if n == 0 then [] else BitsMsb(v / 2, n - 1) + [v % 2 == 1]
  }

  /** The number a bit string denotes, read most significant bit first. */
  function ValueOf(bits: seq<bool>): (v: nat)
    ensures v < Pow2(|bits|)
  {
    if bits == [] then 0
    else 2 * ValueOf(bits[..|bits| - 1]) + (if bits[|bits| - 1] then 1 else 0)
  }

  /** The eight data bits of a channel value, most significant first. */
  function DataBits(v: Byte): (bits: seq<bool>)
    ensures |bits| == 8
  {
    BitsMsb(v, 8)
  }

  /** The three symbol bits sent for one data bit: 110 for a one, 100 for a zero. */
  function Group(b: bool): seq<bool>
  {
    [true, b, false]
  }

  /** The symbol stream of a run of data bits: their groups, in order. */
  function Symbols(bits: seq<bool>): (s: seq<bool>)
    ensures |s| == 3 * |bits|
  {
    if bits == [] then [] else Group(bits[0]) + Symbols(bits[1..])
  }

  /** Packs a bit string into bytes, eight bits per byte, most significant bit first. */
  function Pack(bits: seq<bool>): (bytes: seq<Byte>)
    requires |bits| % 8 == 0
    ensures |bytes| == |bits| / 8
  {
    if bits == [] then []
    else
      Pow2Byte();
      [ValueOf(bits[..8])] + Pack(bits[8..])
  }

  /** The bits of a byte string, each byte most significant bit first. */
  function Unpack(bytes: seq<Byte>): (bits: seq<bool>)
    ensures |bits| == 8 * |bytes|
  {
    if bytes == [] then [] else DataBits(bytes[0]) + Unpack(bytes[1..])
  }

  /** The SPI image of one colour channel: 24 symbol bits packed into 3 bytes. */
  function SpiImage(v: Byte): (r: seq<Byte>)
    ensures |r| == 3
  {
    Pack(Symbols(DataBits(v)))
  }

  /**
   * The 24 symbol bits of a channel as one number, the group of data bit 7
   * highest: every group is 100 (0x924924 over all eight) plus the data bit
   * in its middle position.
   */
  function SymbolWord(v: Byte): (p: nat)
    ensures p < 0x100_0000
  {
    0x92_4924 + 2 * (v % 2 + 8 * ((v / 2) % 2) + 64 * ((v / 4) % 2) + 512 * ((v / 8) % 2)
      + 4096 * ((v / 16) % 2) + 32768 * ((v / 32) % 2) + 262144 * ((v / 64) % 2) + 2097152 * ((v / 128) % 2))
  }

  /** The three bytes of the symbol word, high byte first. */
  function Encode(v: Byte): (r: seq<Byte>)
    ensures |r| == 3
  {
    var p := SymbolWord(v);
    [(p / 65536) % 256, (p / 256) % 256, p % 256]
  }

  /** Every group of three symbol bits starts with 1 and ends with 0. */
  predicate WellFormed(s: seq<bool>)
  {
    if |s| < 3 then s == [] else s[0] && !s[2] && WellFormed(s[3..])
  }

  /** The data bits a symbol stream carries: the middle bit of every group. */
  function Middles(s: seq<bool>): (bits: seq<bool>)
    requires |s| % 3 == 0
    ensures |bits| == |s| / 3
  {
    if s == [] then [] else [s[1]] + Middles(s[3..])
  }

  /**
   * Reads a channel value back from its 3 SPI bytes; None when the bytes are
   * not 8 well-formed symbol groups (for instance an all-zero reset gap).
   */
  function Decode(bytes: seq<Byte>): (r: Option<Byte>)
    ensures r.Some? ==> |bytes| == 3 && WellFormed(Unpack(bytes))
  {
    if |bytes| != 3 then None
    else
      var s := Unpack(bytes);
      if WellFormed(s) then
        Pow2Byte();
        Some(ValueOf(Middles(s)))
      else None
  }

  lemma Pow2Byte()
    ensures Pow2(8) == 256
  {
  }

  // ---------------------------------------------------------------------
  // Bit-string facts

  lemma {:induction false} ValueOfAppend(a: seq<bool>, b: seq<bool>)
    ensures ValueOf(a + b) == ValueOf(a) * Pow2(|b|) + ValueOf(b)
    decreases |b|
  {
    if b == [] {
      assert a + b == a;
    } else {
      var b' := b[..|b| - 1];
      var last := if b[|b| - 1] then 1 else 0;
      assert (a + b)[..|a + b| - 1] == a + b';
      assert (a + b)[|a + b| - 1] == b[|b| - 1];
      ValueOfAppend(a, b');
      var x, p := ValueOf(a), Pow2(|b'|);
      calc {
        ValueOf(a + b);
        2 * ValueOf(a + b') + last;
        2 * (x * p + ValueOf(b')) + last;
        { MulTwice(x, p); }
        x * (2 * p) + (2 * ValueOf(b') + last);
        x * Pow2(|b|) + ValueOf(b);
      }
    }
  }

  lemma MulTwice(x: nat, p: nat)
    ensures 2 * (x * p) == x * (2 * p)
  {
  }

  /** Appending one data bit appends its 3-bit group to the accumulated value: p = (p << 3) | group. */
  lemma SymbolsSnoc(bits: seq<bool>, x: bool)
    ensures ValueOf(Symbols(bits + [x])) == ValueOf(Symbols(bits)) * 8 + (if x then 6 else 4)
  {
    SymbolsAppend(bits, [x]);
    assert Symbols([x]) == Group(x);
    ValueOfAppend(Symbols(bits), Group(x));
    assert Group(x)[..2] == [true, x];
    assert [true, x][..1] == [true];
    assert Pow2(3) == 8;
  }

  /** A value below 2^n is what its n-bit string denotes. */
  lemma {:induction false} ValueOfBitsMsb(v: nat, n: nat)
    requires v < Pow2(n)
    ensures ValueOf(BitsMsb(v, n)) == v
  {
    if n > 0 {
      var bits := BitsMsb(v, n);
      assert bits[..n - 1] == BitsMsb(v / 2, n - 1);
      assert v / 2 < Pow2(n - 1);
      ValueOfBitsMsb(v / 2, n - 1);
      assert ValueOf(bits) == 2 * (v / 2) + (if v % 2 == 1 then 1 else 0);
    }
  }

  /** A bit string is the |bits|-bit string of the value it denotes. */
  lemma {:induction false} BitsMsbValueOf(bits: seq<bool>)
    ensures BitsMsb(ValueOf(bits), |bits|) == bits
    decreases |bits|
  {
    if bits != [] {
      var init := bits[..|bits| - 1];
      BitsMsbValueOf(init);
      assert bits == init + [bits[|bits| - 1]];
    }
  }

  /** Position n-1-b of the n-bit string of v is bit b of v, i.e. (v >> b) & 1. */
  lemma {:induction false} BitsMsbAt(v: nat, n: nat, b: nat)
    requires b < n
    ensures BitsMsb(v, n)[n - 1 - b] == (Shr(v, b) % 2 == 1)
  {
    if b > 0 {
      BitsMsbAt(v / 2, n - 1, b - 1);
    }
  }

  lemma {:induction false} SymbolsAppend(a: seq<bool>, b: seq<bool>)
    ensures Symbols(a + b) == Symbols(a) + Symbols(b)
    decreases |a|
  {
    if a == [] {
      assert a + b == b;
    } else {
      assert (a + b)[1..] == a[1..] + b;
      SymbolsAppend(a[1..], b);
    }
  }

  lemma {:induction false} SymbolsAt(bits: seq<bool>, g: nat)
    requires g < |bits|
    ensures Symbols(bits)[3 * g] && !Symbols(bits)[3 * g + 2]
    ensures Symbols(bits)[3 * g + 1] == bits[g]
  {
    if g > 0 {
      SymbolsAt(bits[1..], g - 1);
    }
  }

  lemma {:induction false} UnpackPack(s: seq<bool>)
    requires |s| % 8 == 0
    ensures Unpack(Pack(s)) == s
    decreases |s|
  {
    if s != [] {
      Pow2Byte();
      BitsMsbValueOf(s[..8]);
      UnpackPack(s[8..]);
      assert s == s[..8] + s[8..];
    }
  }

  lemma {:induction false} PackUnpack(bytes: seq<Byte>)
    ensures Pack(Unpack(bytes)) == bytes
    decreases |bytes|
  {
    if bytes != [] {
      var u := Unpack(bytes);
      assert u[..8] == DataBits(bytes[0]);
      assert u[8..] == Unpack(bytes[1..]);
      Pow2Byte();
      ValueOfBitsMsb(bytes[0], 8);
      PackUnpack(bytes[1..]);
    }
  }

  lemma {:induction false} MiddlesSymbols(bits: seq<bool>)
    ensures Middles(Symbols(bits)) == bits
    ensures WellFormed(Symbols(bits))
    decreases |bits|
  {
    if bits != [] {
      var s := Symbols(bits);
      assert s[3..] == Symbols(bits[1..]);
      MiddlesSymbols(bits[1..]);
    }
  }

  lemma {:induction false} SymbolsMiddles(s: seq<bool>)
    requires |s| % 3 == 0 && WellFormed(s)
    ensures Symbols(Middles(s)) == s
    decreases |s|
  {
    if s != [] {
      SymbolsMiddles(s[3..]);
      assert Middles(s)[1..] == Middles(s[3..]);
      assert s == Group(s[1]) + s[3..];
    }
  }

  // ---------------------------------------------------------------------
  // Properties of the encoding

  /** Decoding the SPI image of a channel gives the channel back. */
  lemma RoundTrip(v: Byte)
    ensures Decode(Encode(v)) == Some(v)
  {
    EncodeIsSpiImage(v);
    var bits := DataBits(v);
    UnpackPack(Symbols(bits));
    MiddlesSymbols(bits);
    Pow2Byte();
    ValueOfBitsMsb(v, 8);
  }

  /** Three bytes decode to v exactly when they are the encoding of v. */
  lemma DecodeIffEncode(bytes: seq<Byte>, v: Byte)
    ensures Decode(bytes) == Some(v) <==> Encode(v) == bytes
  {
    EncodeIsSpiImage(v);
    if Encode(v) == bytes {
      RoundTrip(v);
    }
    if Decode(bytes) == Some(v) {
      assert |bytes| == 3;
      var s := Unpack(bytes);
      assert |s| == 24;
      var m := Middles(s);
      BitsMsbValueOf(m);
      assert DataBits(v) == m;
      SymbolsMiddles(s);
      PackUnpack(bytes);
    }
  }

  /**
   * Group g of the encoding of v (g = 0 is sent first) is 1, then data bit
   * 7 - g of v, then 0.
   */
  lemma EncodeGroups(v: Byte, g: nat)
    requires g < 8
    ensures Unpack(Encode(v))[3 * g]
    ensures Unpack(Encode(v))[3 * g + 1] == (Shr(v, 7 - g) % 2 == 1)
    ensures !Unpack(Encode(v))[3 * g + 2]
  {
    EncodeIsSpiImage(v);
    UnpackPack(Symbols(DataBits(v)));
    SymbolsAt(DataBits(v), g);
    BitsMsbAt(v, 8, 7 - g);
  }

  /** Three bytes side by side, high byte first, as one 24-bit number. */
  lemma ByteSplit(a: Byte, b: Byte, c: Byte)
    ensures var p := a * 65536 + b * 256 + c;
            p < 0x100_0000 && (p / 65536) % 256 == a && (p / 256) % 256 == b && p % 256 == c
  {
    var p := a * 65536 + b * 256 + c;
    assert p / 65536 == a;
    assert p / 256 == a * 256 + b;
  }

  /** A 24-bit string packs into three bytes. */
  lemma PackThree(s: seq<bool>)
    requires |s| == 24
    ensures Pack(s) == [ValueOf(s[..8]), ValueOf(s[8..16]), ValueOf(s[16..])]
  {
    var t, u := s[8..], s[16..];
    assert t[..8] == s[8..16] && t[8..] == u;
    assert u[..8] == u && u[8..] == [];
    assert Pack(u) == [ValueOf(u)] + Pack([]);
    assert Pack(t) == [ValueOf(s[8..16])] + Pack(u);
    assert Pack(s) == [ValueOf(s[..8])] + Pack(t);
  }

  /** The reference image as the number the symbol string denotes: its three bytes, high byte first. */
  lemma SpiImageValue(v: Byte)
    ensures var p := ValueOf(Symbols(DataBits(v)));
            p < 0x100_0000 &&
            SpiImage(v) == [(p / 65536) % 256, (p / 256) % 256, p % 256]
  {
    var s := Symbols(DataBits(v));
    var hi, mid, lo := s[..8], s[8..16], s[16..];
    assert s[8..] == mid + lo;
    assert s == hi + (mid + lo);
    ValueOfAppend(mid, lo);
    ValueOfAppend(hi, mid + lo);
    Pow2Byte();
    assert Pow2(16) == 65536 by {
      assert Pow2(16) == 256 * Pow2(8);
    }
    var a, b, c := ValueOf(hi), ValueOf(mid), ValueOf(lo);
    assert ValueOf(s) == a * 65536 + b * 256 + c;
    ByteSplit(a, b, c);
    PackThree(s);
  }

  /** The value `p = (p << 3) | group` holds after the n low data bits of v, highest first. */
  function Accumulated(v: nat, n: nat): nat
  {
    if n == 0 then 0 else Accumulated(v / 2, n - 1) * 8 + (if v % 2 == 1 then 6 else 4)
  }

  lemma {:induction false} SymbolsBitsMsb(v: nat, n: nat)
    ensures ValueOf(Symbols(BitsMsb(v, n))) == Accumulated(v, n)
  {
    if n > 0 {
      SymbolsSnoc(BitsMsb(v / 2, n - 1), v % 2 == 1);
      SymbolsBitsMsb(v / 2, n - 1);
    }
  }

  /** One more data bit: the group of the lowest bit goes below the rest. */
  lemma AccumulatedLow(v: nat, n: nat, rest: nat)
    requires Accumulated(v / 2, n) == rest
    ensures Accumulated(v, n + 1) == rest * 8 + 4 + 2 * (v % 2)
  {
  }

  /** Accumulating all eight data bits gives the symbol word. */
  lemma AccumulatedByte(v: Byte)
    ensures Accumulated(v, 8) == SymbolWord(v)
  {
    var b0, b1, b2, b3 := v % 2, (v / 2) % 2, (v / 4) % 2, (v / 8) % 2;
    AccumulatedHigh(v);
    var a4 := 0x924 + 2 * ((v / 16) % 2 + 8 * ((v / 32) % 2) + 64 * ((v / 64) % 2) + 512 * ((v / 128) % 2));
    assert (v / 8) / 2 == v / 16;
    AccumulatedLow(v / 8, 4, a4);
    var a3 := a4 * 8 + 4 + 2 * b3;
    assert (v / 4) / 2 == v / 8;
    AccumulatedLow(v / 4, 5, a3);
    var a2 := a3 * 8 + 4 + 2 * b2;
    assert (v / 2) / 2 == v / 4;
    AccumulatedLow(v / 2, 6, a2);
    var a1 := a2 * 8 + 4 + 2 * b1;
    AccumulatedLow(v, 7, a1);
  }

  /** The groups of data bits 7 down to 4. */
  lemma AccumulatedHigh(v: Byte)
    ensures Accumulated(v / 16, 4) == 0x924 + 2 * ((v / 16) % 2 + 8 * ((v / 32) % 2) + 64 * ((v / 64) % 2) + 512 * ((v / 128) % 2))
  {
    var b4, b5, b6, b7 := (v / 16) % 2, (v / 32) % 2, (v / 64) % 2, (v / 128) % 2;
    var a7 := 4 + 2 * b7;
    AccumulatedLow(v / 128, 0, 0);
    assert (v / 64) / 2 == v / 128;
    AccumulatedLow(v / 64, 1, a7);
    var a6 := a7 * 8 + 4 + 2 * b6;
    assert (v / 32) / 2 == v / 64;
    AccumulatedLow(v / 32, 2, a6);
    var a5 := a6 * 8 + 4 + 2 * b5;
    assert (v / 16) / 2 == v / 32;
    AccumulatedLow(v / 16, 3, a5);
  }

  /** The numeric encoding is the reference image: 110/100 per data bit, packed MSB first. */
  lemma EncodeIsSpiImage(v: Byte)
    ensures Encode(v) == SpiImage(v)
  {
    SpiImageValue(v);
    SymbolsBitsMsb(v, 8);
    AccumulatedByte(v);
  }

  /** Data 0x00 encodes as 0x92 0x49 0x24 (100 eight times). */
  lemma EncodeZero()
    ensures Encode(0x00) == [0x92, 0x49, 0x24]
  {
  }

  /** Data 0xFF encodes as 0xDB 0x6D 0xB6 (110 eight times). */
  lemma EncodeFull()
    ensures Encode(0xFF) == [0xDB, 0x6D, 0xB6]
  {
    assert SymbolWord(0xFF) == 0xDB_6DB6;
  }

  // ---------------------------------------------------------------------
  // encode_byte

  /**
   * The loop of encode_byte: builds the 24 symbol bits in p, one 3-bit group
   * per data bit from bit 7 down to bit 0 (`p = (p << 3) | group`). p stays
   * below 2^24, so the uint32_t accumulator never wraps.
   */
  method SymbolLoop(val: Byte) returns (p: nat)
    ensures p == SymbolWord(val)
  {
    ghost var bits := DataBits(val);
    p := 0;
    var b := 7;
    while b >= 0
      invariant -1 <= b <= 7
      invariant p == ValueOf(Symbols(bits[..7 - b]))
    {
      BitsMsbAt(val, 8, b);
      assert bits[..8 - b] == bits[..7 - b] + [bits[7 - b]];
      SymbolsSnoc(bits[..7 - b], bits[7 - b]);
      p := p * 8 + (if Shr(val, b) % 2 == 1 then 6 else 4);
      b := b - 1;
    }
    assert bits[..8] == bits;
    SymbolsBitsMsb(val, 8);
    AccumulatedByte(val);
  }

  /**
   * encode_byte(val, ptr): the symbol word's three bytes, high byte first,
   * stored at buf[off..off+3]; no other byte changes.
   */
  method EncodeByte(val: Byte, buf: array<Byte>, off: int)
    requires 0 <= off && off + 3 <= buf.Length
    modifies buf
    ensures buf[..] == Splice(old(buf[..]), off, Encode(val))
  {
    var p := SymbolLoop(val);
    buf[off] := (p / 65536) % 256;
    buf[off + 1] := (p / 256) % 256;
    buf[off + 2] := p % 256;
    assert buf[..] == old(buf[..])[..off] + Encode(val) + old(buf[..])[off + 3..];
  }

  /** s with the bytes from off on replaced by e. */
  function Splice(s: seq<Byte>, off: nat, e: seq<Byte>): (r: seq<Byte>)
    requires off + |e| <= |s|
    ensures |r| == |s|
  {
    s[..off] + e + s[off + |e|..]
  }
}
