/** service/codecs/latm.cpp: packs one AAC access unit as an AudioMuxElement with in-band
    StreamMuxConfig (subpart 1 section 1.7.3 of ISO/IEC 14496-3, section 4 of RFC 3016). */
module Latm {
  import opened ByteTypes

  type bit = x: int | 0 <= x < 2

  // ---- Bits and bytes ------------------------------------------------------------

  function Pow2(n: nat): (p: nat)
    ensures p > 0
  {
    if n == 0 then 1 else 2 * Pow2(n - 1)
  }

  /** The low n bits of value, most significant first. */
  function BitsOf(value: nat, n: nat): (bits: seq<bit>)
    ensures |bits| == n
  {
    if n == 0 then [] else [value / Pow2(n - 1) % 2] + BitsOf(value, n - 1)
  }

  function Bits8(b: byte): seq<bit> {
    [b / 128, b / 64 % 2, b / 32 % 2, b / 16 % 2, b / 8 % 2, b / 4 % 2, b / 2 % 2, b % 2]
  }

  function Bits5(b: int): seq<bit>
    requires 0 <= b < 32
  {
    [b / 16, b / 8 % 2, b / 4 % 2, b / 2 % 2, b % 2]
  }

  function Padded(bits: seq<bit>, i: nat): bit {
    if i < |bits| then bits[i] else 0
  }

  /** Up to eight bits as a byte, zero-padded on the right. */
  function ByteOf(bits: seq<bit>): byte {
    Padded(bits, 0) * 128 + Padded(bits, 1) * 64 + Padded(bits, 2) * 32 + Padded(bits, 3) * 16
    + Padded(bits, 4) * 8 + Padded(bits, 5) * 4 + Padded(bits, 6) * 2 + Padded(bits, 7)
  }

  /** A bit string as bytes, the last one zero-padded. */
  function Pack(bits: seq<bit>): (bytes: seq<byte>)
    ensures |bytes| == (|bits| + 7) / 8
  {
    if bits == [] then []
    else if |bits| <= 8 then [ByteOf(bits)]
    else [ByteOf(bits[..8])] + Pack(bits[8..])
  }

  function BytesBits(bytes: seq<byte>): (bits: seq<bit>)
    ensures |bits| == 8 * |bytes|
  {
    if bytes == [] then [] else Bits8(bytes[0]) + BytesBits(bytes[1..])
  }

  lemma BitsOfByte(b: byte)
    ensures BitsOf(b, 8) == Bits8(b)
  {
    PowersOfTwo();
    assert BitsOf(b, 1) == [b % 2];
    assert BitsOf(b, 2) == [b / 2 % 2] + BitsOf(b, 1);
    assert BitsOf(b, 3) == [b / 4 % 2] + BitsOf(b, 2);
    assert BitsOf(b, 4) == [b / 8 % 2] + BitsOf(b, 3);
    assert BitsOf(b, 5) == [b / 16 % 2] + BitsOf(b, 4);
    assert BitsOf(b, 6) == [b / 32 % 2] + BitsOf(b, 5);
    assert BitsOf(b, 7) == [b / 64 % 2] + BitsOf(b, 6);
    assert BitsOf(b, 8) == [b / 128 % 2] + BitsOf(b, 7);
  }

  lemma PowersOfTwo()
    ensures Pow2(0) == 1 && Pow2(1) == 2 && Pow2(2) == 4 && Pow2(3) == 8
    ensures Pow2(4) == 16 && Pow2(5) == 32 && Pow2(6) == 64 && Pow2(7) == 128
  {
    assert Pow2(4) == 2 * Pow2(3) && Pow2(5) == 2 * Pow2(4) && Pow2(6) == 2 * Pow2(5) && Pow2(7) == 2 * Pow2(6);
  }

  /** Halving a number that ends in bit x. */
  lemma Halve(y: nat, x: bit)
    ensures (2 * y + x) / 2 == y && (2 * y + x) % 2 == x
  {}

  lemma ByteOfBits8(bits: seq<bit>)
    requires |bits| == 8
    ensures Bits8(ByteOf(bits)) == bits
  {
    var y2: nat := 2 * bits[0] as int + bits[1] as int;
    var y3: nat := 2 * y2 + bits[2] as int;
    var y4: nat := 2 * y3 + bits[3] as int;
    var y5: nat := 2 * y4 + bits[4] as int;
    var y6: nat := 2 * y5 + bits[5] as int;
    var y7: nat := 2 * y6 + bits[6] as int;
    var y: nat := ByteOf(bits);
    assert y == 2 * y7 + bits[7] as int;
    Halve(y7, bits[7]);
    assert y / 2 == y7 && y / 4 == y7 / 2 == y6 && y / 8 == y6 / 2 == y5 && y / 16 == y5 / 2 == y4;
    assert y / 32 == y4 / 2 == y3 && y / 64 == y3 / 2 == y2 && y / 128 == y2 / 2 == bits[0];
  }

  lemma Bits8OfByte(b: byte)
    ensures ByteOf(Bits8(b)) == b
  {
    var y1: nat := b / 2;
    var y2, y3, y4 := y1 / 2, y1 / 2 / 2, y1 / 2 / 2 / 2;
    var y5, y6, y7 := y4 / 2, y4 / 2 / 2, y4 / 2 / 2 / 2;
    assert b / 4 == y2 && b / 8 == y3 && b / 16 == y4 && b / 32 == y5 && b / 64 == y6 && b / 128 == y7;
    var bits := Bits8(b);
    assert bits == [y7, y6 % 2, y5 % 2, y4 % 2, y3 % 2, y2 % 2, y1 % 2, b % 2];
  }

  lemma PackAligned(b: byte, rest: seq<bit>)
    ensures Pack(Bits8(b) + rest) == [b] + Pack(rest)
  {
    Bits8OfByte(b);
    var bits := Bits8(b) + rest;
    assert bits[..8] == Bits8(b) && bits[8..] == rest;
  }

  lemma {:induction false} PackBytes(bytes: seq<byte>, rest: seq<bit>)
    ensures Pack(BytesBits(bytes) + rest) == bytes + Pack(rest)
  {
    hide Pack, Bits8;
    if bytes == [] {
      assert BytesBits(bytes) + rest == rest;
    } else {
      var b, tail := bytes[0], BytesBits(bytes[1..]);
      calc {
        Pack(BytesBits(bytes) + rest);
        { assert Bits8(b) + tail + rest == Bits8(b) + (tail + rest); }
        Pack(Bits8(b) + (tail + rest));
        { PackAligned(b, tail + rest); }
        [b] + Pack(tail + rest);
        { PackBytes(bytes[1..], rest); }
        [b] + (bytes[1..] + Pack(rest));
        bytes + Pack(rest);
      }
    }
  }

  /** Packing loses nothing but adds up to seven zero bits. */
  lemma {:induction false} UnpackPack(bits: seq<bit>)
    ensures BytesBits(Pack(bits)) == bits + seq(8 * ((|bits| + 7) / 8) - |bits|, _ => 0)
  {
    hide Bits8, ByteOf;
    if |bits| <= 8 {
      UnpackLast(bits);
    } else {
      var head, rest := bits[..8], bits[8..];
      UnpackPack(rest);
      ByteOfBits8(head);
      assert Pack(bits)[1..] == Pack(rest);
      assert BytesBits(Pack(bits)) == head + BytesBits(Pack(rest));
    }
  }

  lemma PaddingKeepsByte(bits: seq<bit>, full: seq<bit>)
    requires |bits| <= 8 && full == bits + seq(8 - |bits|, _ => 0)
    ensures ByteOf(bits) == ByteOf(full)
  {
    assert forall i | 0 <= i < 8 :: Padded(bits, i) == Padded(full, i);
  }

  lemma UnpackLast(bits: seq<bit>)
    requires |bits| <= 8
    ensures BytesBits(Pack(bits)) == bits + seq(8 * ((|bits| + 7) / 8) - |bits|, _ => 0)
  {
    hide Bits8, ByteOf;
    if bits != [] {
      var full := bits + seq(8 - |bits|, _ => 0);
      PaddingKeepsByte(bits, full);
      ByteOfBits8(full);
      assert Pack(bits) == [ByteOf(bits)];
      assert BytesBits([]) == [];
    }
  }

  // ---- The writer --------------------------------------------------------------------

  function Weight(offset: nat): byte
    requires offset < 8
  {
    if offset == 0 then 128 else if offset == 1 then 64 else if offset == 2 then 32 else if offset == 3 then 16
    else if offset == 4 then 8 else if offset == 5 then 4 else if offset == 6 then 2 else 1
  }

  /** Bitwise or with one weight. */
  function OrWeight(b: byte, offset: nat): byte
    requires offset < 8
  {
    if b / Weight(offset) % 2 == 1 then b
    else
      assert b + Weight(offset) < 256 by { OrFits(b, offset); }
      b + Weight(offset)
  }

  lemma OrFits(b: byte, offset: nat)
    requires offset < 8 && b / Weight(offset) % 2 == 0
    ensures b + Weight(offset) < 256
  {}

  lemma AppendToByte(bits: seq<bit>, b: bit)
    requires 0 < |bits| < 8
    ensures ByteOf(bits + [b]) == if b == 1 then OrWeight(ByteOf(bits), |bits|) else ByteOf(bits)
  {
    var n := |bits|;
    assert forall i | 0 <= i < 8 :: Padded(bits + [b], i) == if i == n then b else Padded(bits, i);
    LowBitsClear(bits);
  }

  lemma LowBitsClear(bits: seq<bit>)
    requires 0 < |bits| < 8
    ensures ByteOf(bits) / Weight(|bits|) % 2 == 0
  {
    var y1: nat := bits[0];
    var y2: nat := 2 * y1 + Padded(bits, 1);
    var y3: nat := 2 * y2 + Padded(bits, 2);
    var y4: nat := 2 * y3 + Padded(bits, 3);
    if |bits| == 1 {
      assert ByteOf(bits) == y1 * 128;
    } else if |bits| == 2 {
      assert ByteOf(bits) == y2 * 64;
    } else if |bits| == 3 {
      assert ByteOf(bits) == y3 * 32;
    } else if |bits| == 4 {
      assert ByteOf(bits) == y4 * 16;
    }
  }

  /** The effect of one more bit on the packed bytes: it opens a byte or lands in the last. */
  function WithBit(bytes: seq<byte>, offset: nat, b: bit): seq<byte>
    requires offset < 8 && (offset != 0 ==> bytes != [])
  {
    if offset == 0 then bytes + [b * 128]
    else bytes[|bytes| - 1 := if b == 1 then OrWeight(bytes[|bytes| - 1], offset) else bytes[|bytes| - 1]]
  }

  lemma WithBitCons(head: byte, rest: seq<byte>, offset: nat, b: bit)
    requires offset < 8 && rest != []
    ensures WithBit([head] + rest, offset, b) == [head] + WithBit(rest, offset, b)
  {
    hide OrWeight;
  }

  lemma {:induction false} PackAppend(bits: seq<bit>, b: bit)
    ensures Pack(bits + [b]) == WithBit(Pack(bits), |bits| % 8, b)
  {
    hide ByteOf, OrWeight;
    if |bits| < 8 {
      OpenByte(b);
      assert [] + [b] == [b];
      if bits != [] { AppendToByte(bits, b); }
    } else if |bits| == 8 {
      OpenByte(b);
      assert (bits + [b])[..8] == bits[..8] == bits;
      assert (bits + [b])[8..] == [b];
    } else {
      var head, rest := ByteOf(bits[..8]), Pack(bits[8..]);
      PackAppend(bits[8..], b);
      assert (bits + [b])[..8] == bits[..8];
      assert (bits + [b])[8..] == bits[8..] + [b];
      WithBitCons(head, rest, |bits| % 8, b);
    }
  }

  lemma OpenByte(b: bit)
    ensures ByteOf([b]) == b * 128
  {}

  lemma BytesStep(data: seq<byte>, k: nat)
    requires k <= |data|
    ensures k < |data| ==> BytesBits(data[k..]) == BitsOf(data[k], 8) + BytesBits(data[k + 1..])
    ensures k == |data| ==> BytesBits(data[k..]) == []
    ensures data[0..] == data
  {
    if k < |data| {
      BitsOfByte(data[k]);
      assert data[k..][1..] == data[k + 1..];
    }
  }

  class BitWriter {
    var bytes: seq<byte>
    var bitCount: nat
    ghost var bits: seq<bit>

    ghost predicate Valid()
      reads this
    {
      bytes == Pack(bits) && bitCount == |bits|
    }

    constructor ()
      ensures Valid() && bits == []
    {
      bytes, bitCount, bits := [], 0, [];
    }

    method PutBit(b: bit)
      requires Valid()
      modifies this
      ensures Valid() && bits == old(bits) + [b]
    {
      var offset := bitCount % 8;
      PackAppend(bits, b);
      if offset == 0 {
        bytes := bytes + [0];
      }
      if b != 0 {
        bytes := bytes[|bytes| - 1 := OrWeight(bytes[|bytes| - 1], offset)];
      }
      bitCount := bitCount + 1;
      bits := bits + [b];
    }

    /** The low n bits of a 32-bit value, most significant first. */
    method Put(value: u32, n: nat)
      requires Valid() && n <= 32
      modifies this
      ensures Valid() && bits == old(bits) + BitsOf(value, n)
    {
      var i := n - 1;
      while i >= 0
        invariant -1 <= i < n
        invariant Valid()
        invariant bits + BitsOf(value, i + 1) == old(bits) + BitsOf(value, n)
      {
        label before:
        PutBit(value / Pow2(i) % 2);
        assert bits + BitsOf(value, i) == old@before(bits) + BitsOf(value, i + 1);
        i := i - 1;
      }
      assert BitsOf(value, 0) == [];
    }

    method PutBytes(data: seq<byte>)
      requires Valid()
      modifies this
      ensures Valid() && bits == old(bits) + BytesBits(data)
    {
      hide Pack, BitsOf, BytesBits;
      var k := 0;
      BytesStep(data, 0);
      while k < |data|
        invariant 0 <= k <= |data|
        invariant Valid()
        invariant bits + BytesBits(data[k..]) == old(bits) + BytesBits(data)
      {
        BytesStep(data, k);
        ghost var before := bits;
        Put(data[k], 8);
        assert bits + BytesBits(data[k + 1..]) == before + BytesBits(data[k..]);
        k := k + 1;
      }
      BytesStep(data, k);
    }
  }

  // ---- The AudioMuxElement ---------------------------------------------------------------

  function ZeroBits(n: nat): (s: seq<bit>)
    ensures |s| == n
  {
    seq(n, _ => 0)
  }

  /** useSameStreamMux and StreamMuxConfig up to the AudioSpecificConfig. */
  const HEADER_BITS: seq<bit> := [0, 0, 1] + ZeroBits(13)

  /** frameLengthType, latmBufferFullness, otherDataPresent, crcCheckPresent. */
  const TRAILER_BITS: seq<bit> := ZeroBits(3) + [1, 1, 1, 1, 1, 1, 1, 1] + ZeroBits(2)

  /** PayloadLengthInfo: 255 for every full 255, then what is left. */
  function LengthBytes(n: nat): seq<byte> {
    if n >= 255 then [255] + LengthBytes(n - 255) else [n]
  }

  function ElementBits(config: seq<byte>, unit: seq<byte>): seq<bit> {
    HEADER_BITS + BytesBits(config) + TRAILER_BITS + BytesBits(LengthBytes(|unit|) + unit)
  }

  lemma {:induction false} BytesBitsConcat(a: seq<byte>, b: seq<byte>)
    ensures BytesBits(a + b) == BytesBits(a) + BytesBits(b)
  {
    hide Bits8;
    if a == [] {
      assert a + b == b;
    } else {
      var head, tail := Bits8(a[0]), BytesBits(a[1..]);
      assert (a + b)[1..] == a[1..] + b;
      calc {
        BytesBits(a + b);
        head + BytesBits(a[1..] + b);
        { BytesBitsConcat(a[1..], b); }
        head + (tail + BytesBits(b));
        (head + tail) + BytesBits(b);
      }
    }
  }

  method WriteStreamMuxConfig(w: BitWriter, config: seq<byte>)
    requires w.Valid()
    modifies w
    ensures w.Valid() && w.bits == old(w.bits) + HEADER_BITS[1..] + BytesBits(config) + TRAILER_BITS
  {
    hide BitsOf, Pack, BytesBits;
    ghost var b0 := w.bits;
    FieldBits();
    w.Put(0, 1);
    w.Put(1, 1);
    assert w.bits == b0 + [0, 1];
    w.Put(0, 6);
    w.Put(0, 4);
    w.Put(0, 3);
    assert w.bits == b0 + ([0, 1] + ZeroBits(13));
    w.PutBytes(config);
    ghost var b1 := w.bits;
    w.Put(0, 3);
    w.Put(0xFF, 8);
    assert w.bits == b1 + (ZeroBits(3) + [1, 1, 1, 1, 1, 1, 1, 1]);
    w.Put(0, 1);
    w.Put(0, 1);
    assert w.bits == b1 + TRAILER_BITS;
  }

  lemma FieldBits()
    ensures BitsOf(0, 1) == [0] && BitsOf(1, 1) == [1] && BitsOf(0, 3) == ZeroBits(3) && BitsOf(0, 4) == ZeroBits(4)
    ensures BitsOf(0, 6) == ZeroBits(6) && BitsOf(0xFF, 8) == [1, 1, 1, 1, 1, 1, 1, 1]
  {
    BitsOfByte(0xFF);
    PowersOfTwo();
    assert BitsOf(0, 1) == [0] + BitsOf(0, 0);
    assert BitsOf(0, 2) == [0] + BitsOf(0, 1);
    assert BitsOf(0, 3) == [0] + BitsOf(0, 2);
    assert BitsOf(0, 4) == [0] + BitsOf(0, 3);
    assert BitsOf(0, 5) == [0] + BitsOf(0, 4);
    assert BitsOf(0, 6) == [0] + BitsOf(0, 5);
  }

  lemma LengthStep(n: nat)
    ensures n >= 255 ==> BytesBits(LengthBytes(n)) == BitsOf(255, 8) + BytesBits(LengthBytes(n - 255))
    ensures n < 255 ==> BytesBits(LengthBytes(n)) == BitsOf(n, 8)
  {
    if n >= 255 {
      BitsOfByte(255);
      assert LengthBytes(n)[1..] == LengthBytes(n - 255);
    } else {
      BitsOfByte(n);
      assert BytesBits([]) == [];
    }
  }

  method WritePayloadLengthInfo(w: BitWriter, length: nat)
    requires w.Valid()
    modifies w
    ensures w.Valid() && w.bits == old(w.bits) + BytesBits(LengthBytes(length))
  {
    hide BitsOf, Pack, BytesBits, LengthBytes;
    var left := length;
    while left >= 255
      invariant w.Valid()
      invariant w.bits + BytesBits(LengthBytes(left)) == old(w.bits) + BytesBits(LengthBytes(length))
    {
      LengthStep(left);
      ghost var before := w.bits;
      w.Put(255, 8);
      assert w.bits + BytesBits(LengthBytes(left - 255)) == before + BytesBits(LengthBytes(left));
      left := left - 255;
    }
    LengthStep(left);
    w.Put(left, 8);
  }

  method LatmPack(config: seq<byte>, unit: seq<byte>) returns (packed: seq<byte>)
    ensures packed == Pack(ElementBits(config, unit))
  {
    hide BitsOf, Pack, BytesBits, LengthBytes;
    var w := new BitWriter();
    FieldBits();
    w.Put(0, 1);
    assert w.bits == [0];
    WriteStreamMuxConfig(w, config);
    assert [0] + HEADER_BITS[1..] == HEADER_BITS;
    WritePayloadLengthInfo(w, |unit|);
    w.PutBytes(unit);
    BytesBitsConcat(LengthBytes(|unit|), unit);
    assert w.bits == ElementBits(config, unit);
    packed := w.bytes;
  }

  // ---- A decoder ---------------------------------------------------------------------------

  function ValueOf(bits: seq<bit>): nat {
    if bits == [] then 0 else ValueOf(bits[..|bits| - 1]) * 2 + bits[|bits| - 1]
  }

  /** The first n bytes of a bit string. */
  function TakeBytes(bits: seq<bit>, n: nat): seq<byte>
    requires 8 * n <= |bits|
  {
    if n == 0 then [] else [ByteOf(bits[..8])] + TakeBytes(bits[8..], n - 1)
  }

  /** Sums length octets up to and including the first that is not 255; the result is the
      payload length and the bits behind it. */
  function ReadLength(bits: seq<bit>): (r: Option<(nat, seq<bit>)>)
    ensures r.Some? ==> |r.value.1| <= |bits|
    decreases |bits|
  {
    if |bits| < 8 then None
    else
      var octet := ByteOf(bits[..8]);
      if octet != 255 then Some((octet, bits[8..]))
      else
        match ReadLength(bits[8..])
        case None => None
        case Some(more) => Some((255 + more.0, more.1))
  }

  datatype Element = Element(config: seq<byte>, unit: seq<byte>, rest: seq<bit>)

  /** Reads an AudioMuxElement whose AudioSpecificConfig is configLen bytes long, field by
      field; refuses what latm_pack never writes (a reused StreamMuxConfig, several
      programs, layers or subframes, other data, a CRC). */
  function Decode(bits: seq<bit>, configLen: nat): Option<Element> {
    if |bits| < 29 + 8 * configLen then None
    else if ValueOf(bits[..1]) != 0 || ValueOf(bits[1..2]) != 0 || ValueOf(bits[2..3]) != 1 then None
    else if ValueOf(bits[3..9]) != 0 || ValueOf(bits[9..13]) != 0 || ValueOf(bits[13..16]) != 0 then None
    else
      var config := TakeBytes(bits[16..], configLen);
      var trailer := bits[16 + 8 * configLen..];
      if ValueOf(trailer[..3]) != 0 || trailer[11] != 0 || trailer[12] != 0 then None
      else
        match ReadLength(trailer[13..])
        case None => None
        case Some(r) =>
          if |r.1| < 8 * r.0 then None
          else Some(Element(config, TakeBytes(r.1, r.0), r.1[8 * r.0..]))
  }

  lemma {:induction false} TakeBytesOf(bytes: seq<byte>, rest: seq<bit>)
    ensures TakeBytes(BytesBits(bytes) + rest, |bytes|) == bytes
  {
    hide ByteOf, Bits8;
    if bytes != [] {
      var bits := BytesBits(bytes) + rest;
      Bits8OfByte(bytes[0]);
      TakeBytesOf(bytes[1..], rest);
      assert |Bits8(bytes[0])| == 8 by { BitsOfByte(bytes[0]); }
      assert bits[..8] == Bits8(bytes[0]);
      assert bits[8..] == BytesBits(bytes[1..]) + rest;
    }
  }

  lemma {:induction false} ReadLengthOf(n: nat, rest: seq<bit>)
    ensures ReadLength(BytesBits(LengthBytes(n)) + rest) == Some((n, rest))
  {
    hide ByteOf, Bits8;
    var first := LengthBytes(n)[0];
    var bits := BytesBits(LengthBytes(n)) + rest;
    Bits8OfByte(first);
    assert |Bits8(first)| == 8 by { BitsOfByte(first); }
    assert bits[..8] == Bits8(first);
    if n >= 255 {
      ReadLengthOf(n - 255, rest);
      assert LengthBytes(n)[1..] == LengthBytes(n - 255);
      assert bits[8..] == BytesBits(LengthBytes(n - 255)) + rest;
    } else {
      assert BytesBits(LengthBytes(n)[1..]) == [];
      assert bits[8..] == rest;
    }
  }

  lemma MuxConfigFields(bits: seq<bit>)
    requires |bits| >= 16 && bits[..16] == HEADER_BITS
    ensures ValueOf(bits[..1]) == 0 && ValueOf(bits[1..2]) == 0 && ValueOf(bits[2..3]) == 1
    ensures ValueOf(bits[3..9]) == 0 && ValueOf(bits[9..13]) == 0 && ValueOf(bits[13..16]) == 0
  {
    assert bits[..1] == [bits[..16][0]] && bits[1..2] == [bits[..16][1]] && bits[2..3] == [bits[..16][2]];
    assert ValueOf([0]) == 0 && ValueOf([1]) == 1 by { assert ValueOf([]) == 0; }
    assert bits[3..9] == bits[..16][3..9] == ZeroBits(6);
    assert bits[9..13] == bits[..16][9..13] == ZeroBits(4);
    assert bits[13..16] == bits[..16][13..16] == ZeroBits(3);
    ZeroValue(6);
    ZeroValue(4);
    ZeroValue(3);
  }

  lemma {:induction false} ZeroValue(n: nat)
    ensures ValueOf(ZeroBits(n)) == 0
  {
    if n > 0 {
      ZeroValue(n - 1);
      assert ZeroBits(n)[..n - 1] == ZeroBits(n - 1);
    }
  }

  // ---- Main results ---------------------------------------------------------------------------

  /** Round trip: for every configuration and access unit, also when the length is a
      multiple of 255, decoding the packed bytes recovers both, and nothing but zero padding
      is left over. */
  lemma PackedDecodes(config: seq<byte>, unit: seq<byte>)
    ensures exists pad | 0 <= pad < 8 ::
      Decode(BytesBits(Pack(ElementBits(config, unit))), |config|) == Some(Element(config, unit, ZeroBits(pad)))
  {
    var bits := ElementBits(config, unit);
    var pad := 8 * ((|bits| + 7) / 8) - |bits|;
    UnpackPack(bits);
    ElementDecodes(config, unit, ZeroBits(pad));
    assert 0 <= pad < 8;
    assert Decode(BytesBits(Pack(ElementBits(config, unit))), |config|) == Some(Element(config, unit, ZeroBits(pad)));
  }

  lemma ElementDecodes(config: seq<byte>, unit: seq<byte>, rest: seq<bit>)
    ensures Decode(ElementBits(config, unit) + rest, |config|) == Some(Element(config, unit, rest))
  {
    hide BytesBits, TakeBytes, ReadLength, ValueOf, LengthBytes;
    var c, n, u := BytesBits(config), BytesBits(LengthBytes(|unit|)), BytesBits(unit);
    var bits := ElementBits(config, unit) + rest;
    BytesBitsConcat(LengthBytes(|unit|), unit);
    assert bits == HEADER_BITS + (c + (TRAILER_BITS + (n + (u + rest))));
    MuxConfigFields(bits);
    assert bits[16..] == c + (TRAILER_BITS + (n + (u + rest)));
    TakeBytesOf(config, TRAILER_BITS + (n + (u + rest)));
    var trailer := bits[16 + 8 * |config|..];
    assert trailer == TRAILER_BITS + (n + (u + rest));
    assert trailer[..3] == ZeroBits(3);
    ZeroValue(3);
    assert trailer[13..] == n + (u + rest);
    ReadLengthOf(|unit|, u + rest);
    TakeBytesOf(unit, rest);
    assert (u + rest)[8 * |unit|..] == rest;
  }

  /** A byte string shifted right by five bits behind a five-bit carry, ending in zeros. */
  function ShiftFive(carry: int, bytes: seq<byte>): seq<byte>
    requires 0 <= carry < 32
    decreases |bytes|
  {
    if bytes == [] then [carry * 8]
    else [carry * 8 + bytes[0] as int / 32] + ShiftFive(bytes[0] as int % 32, bytes[1..])
  }

  /** The top three bits of a byte. */
  function Top3(b: byte): seq<bit> {
    [b / 128, b / 64 % 2, b / 32 % 2]
  }

  lemma ThreeFive(b: byte)
    ensures Bits8(b) == Top3(b) + Bits5(b as int % 32)
  {
    var low, q := b as int % 32, b as int / 32;
    assert b as int / 16 % 2 == low / 16 % 2 by { Quotient(q, low, 16, 2); }
    assert b as int / 8 % 2 == low / 8 % 2 by { Quotient(q, low, 8, 4); }
    assert b as int / 4 % 2 == low / 4 % 2 by { Quotient(q, low, 4, 8); }
    assert b as int / 2 % 2 == low / 2 % 2 by { Quotient(q, low, 2, 16); }
  }

  lemma Quotient(q: int, low: int, d: int, m: int)
    requires 0 <= low < 32 && (d, m) in {(16, 2), (8, 4), (4, 8), (2, 16)}
    ensures (32 * q + low) / d % 2 == low / d % 2
  {
    assert (32 * q + low) / d == m * q + low / d;
    assert (m * q + low / d) % 2 == (2 * (m / 2 * q) + low / d) % 2;
  }

  lemma ShiftOne(carry: int, b: byte, rest: seq<bit>)
    requires 0 <= carry < 32
    ensures Pack(Bits5(carry) + (Bits8(b) + rest)) == [carry * 8 + b as int / 32] + Pack(Bits5(b as int % 32) + rest)
  {
    hide ByteOf;
    var head, tail := Bits5(carry) + Top3(b), Bits5(b as int % 32) + rest;
    ThreeFive(b);
    FiveThree(carry, b);
    assert Bits5(carry) + (Bits8(b) + rest) == head + tail by { hide *; ThreeFive(b); }
    assert |head| == 8 && (head + tail)[..8] == head && (head + tail)[8..] == tail;
  }

  lemma FiveThree(carry: int, b: byte)
    requires 0 <= carry < 32
    ensures ByteOf(Bits5(carry) + Top3(b)) == carry * 8 + b as int / 32
  {
    var y := b as int / 32;
    assert b as int / 64 == y / 2 && b as int / 128 == y / 4;
    var c1 := carry / 2;
    var c2 := c1 / 2;
    var c3 := c2 / 2;
    assert carry / 4 == c2 && carry / 8 == c3 && carry / 16 == c3 / 2;
  }

  lemma {:induction false} ShiftPacks(carry: int, bytes: seq<byte>)
    requires 0 <= carry < 32
    ensures Pack(Bits5(carry) + BytesBits(bytes)) == ShiftFive(carry, bytes)
    decreases |bytes|
  {
    if bytes == [] {
      FiveThree(carry, 0);
      assert Bits5(carry) + BytesBits(bytes) == Bits5(carry);
      assert ByteOf(Bits5(carry)) == ByteOf(Bits5(carry) + Top3(0));
    } else {
      hide Pack, Bits5, Bits8;
      ShiftPacks(bytes[0] as int % 32, bytes[1..]);
      ShiftOne(carry, bytes[0], BytesBits(bytes[1..]));
    }
  }

  /** The bit-serial writer equals a closed byte form: 20 00, the configuration, 1F, then
      length bytes and access unit shifted by five bits behind 11100. */
  lemma ClosedForm(config: seq<byte>, unit: seq<byte>)
    ensures Pack(ElementBits(config, unit))
         == [0x20, 0x00] + config + [0x1F] + ShiftFive(0x1C, LengthBytes(|unit|) + unit)
  {
    hide *;
    var payload := LengthBytes(|unit|) + unit;
    FixedBits(config, unit);
    PackChain(0x20, 0x00, config, 0x1F, Bits5(0x1C) + BytesBits(payload));
    ShiftPacks(0x1C, payload);
  }

  lemma FixedBits(config: seq<byte>, unit: seq<byte>)
    ensures ElementBits(config, unit)
      == Bits8(0x20) + (Bits8(0x00) + (BytesBits(config)
         + (Bits8(0x1F) + (Bits5(0x1C) + BytesBits(LengthBytes(|unit|) + unit)))))
  {
    hide BytesBits, LengthBytes, Bits8, Bits5;
    FixedFields();
    Regroup(Bits8(0x20), Bits8(0x00), BytesBits(config), Bits8(0x1F), Bits5(0x1C),
            BytesBits(LengthBytes(|unit|) + unit));
  }

  lemma PackChain(a: byte, b: byte, config: seq<byte>, c: byte, tail: seq<bit>)
    ensures Pack(Bits8(a) + (Bits8(b) + (BytesBits(config) + (Bits8(c) + tail)))) == [a, b] + config + [c] + Pack(tail)
  {
    hide *;
    var rest := Bits8(c) + tail;
    PackAligned(a, Bits8(b) + (BytesBits(config) + rest));
    PackAligned(b, BytesBits(config) + rest);
    PackBytes(config, rest);
    PackAligned(c, tail);
    assert [a] + ([b] + (config + ([c] + Pack(tail)))) == [a, b] + config + [c] + Pack(tail);
  }

  lemma Regroup(a: seq<bit>, b: seq<bit>, c: seq<bit>, d: seq<bit>, e: seq<bit>, f: seq<bit>)
    ensures (a + b) + c + (d + e) + f == a + (b + (c + (d + (e + f))))
  {}

  lemma FixedFields()
    ensures HEADER_BITS == Bits8(0x20) + Bits8(0x00)
    ensures TRAILER_BITS == Bits8(0x1F) + Bits5(0x1C)
  {}

  lemma {:induction false} LengthBytesCount(n: nat)
    ensures |LengthBytes(n)| == n / 255 + 1
  {
    if n >= 255 { LengthBytesCount(n - 255); }
  }

  lemma PackedSize(config: seq<byte>, unit: seq<byte>)
    ensures |Pack(ElementBits(config, unit))| == |config| + |unit| + |unit| / 255 + 5
  {
    LengthBytesCount(|unit|);
  }
}
