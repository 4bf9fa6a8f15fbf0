/** Integer widths, byte orders and the codec identifiers shared by every component. */
module ByteTypes {
  type byte = x: int | 0 <= x < 0x100
  type u16 = x: int | 0 <= x < 0x1_0000
  type u32 = x: int | 0 <= x < 0x1_0000_0000
  type u64 = x: int | 0 <= x < 0x1_0000_0000_0000_0000
  type i16 = x: int | -0x8000 <= x < 0x8000
  type i64 = x: int | -0x8000_0000_0000_0000 <= x < 0x8000_0000_0000_0000

  datatype Option<+T> = None | Some(value: T)

  // driver/owb_codec_ids.h
  const CODEC_SBC: u32 := 0
  const CODEC_LDAC: u32 := 1
  const CODEC_APTX: u32 := 2
  const CODEC_APTX_HD: u32 := 3
  const CODEC_AAC: u32 := 4
  const CODEC_LC3: u32 := 5
  const CODEC_APTX_ADAPTIVE: u32 := 6

  function BigEndian16(v: u16): (s: seq<byte>)
    ensures |s| == 2 && FromBigEndian16(s) == v
  {
    [v / 0x100, v % 0x100]
  }

  function FromBigEndian16(s: seq<byte>): u16
    requires |s| == 2
  {
    s[0] as int * 0x100 + s[1] as int
  }

  function BigEndian32(v: u32): (s: seq<byte>)
    ensures |s| == 4 && FromBigEndian32(s) == v
  {
    BigEndian16(v / 0x1_0000) + BigEndian16(v % 0x1_0000)
  }

  function FromBigEndian32(s: seq<byte>): u32
    requires |s| == 4
  {
    FromBigEndian16(s[..2]) as int * 0x1_0000 + FromBigEndian16(s[2..]) as int
  }

  function LittleEndian16(v: u16): (s: seq<byte>)
    ensures |s| == 2 && FromLittleEndian16(s) == v
  {
    [v % 0x100, v / 0x100]
  }

  function FromLittleEndian16(s: seq<byte>): u16
    requires |s| == 2
  {
    s[0] as int + s[1] as int * 0x100
  }

  function LittleEndian32(v: u32): (s: seq<byte>)
    ensures |s| == 4 && FromLittleEndian32(s) == v
  {
    LittleEndian16(v % 0x1_0000) + LittleEndian16(v / 0x1_0000)
  }

  function FromLittleEndian32(s: seq<byte>): u32
    requires |s| == 4
  {
    FromLittleEndian16(s[..2]) as int + FromLittleEndian16(s[2..]) as int * 0x1_0000
  }

  function LittleEndian64(v: u64): (s: seq<byte>)
    ensures |s| == 8 && FromLittleEndian64(s) == v
  {
    LittleEndian32(v % 0x1_0000_0000) + LittleEndian32(v / 0x1_0000_0000)
  }

  function FromLittleEndian64(s: seq<byte>): u64
    requires |s| == 8
  {
    FromLittleEndian32(s[..4]) as int + FromLittleEndian32(s[4..]) as int * 0x1_0000_0000
  }

  lemma Quarters(v: nat)
    ensures v / 0x1_0000 / 0x100 == v / 0x100_0000 && v % 0x1_0000 % 0x100 == v % 0x100
    ensures v % 0x1_0000 / 0x100 == v / 0x100 % 0x100
  {
    var q, r := v / 0x1_0000, v % 0x1_0000;
    assert v / 0x100 == q * 0x100 + r / 0x100;
  }

  /** Network order puts the highest octet first. */
  lemma BigEndianOctets(v: u32, w: u16)
    ensures BigEndian16(w) == [w as int / 0x100, w as int % 0x100]
    ensures BigEndian32(v)
         == [v as int / 0x100_0000, v as int / 0x1_0000 % 0x100, v as int / 0x100 % 0x100, v as int % 0x100]
  {
    Quarters(v);
  }

  /** The packed structures put the lowest octet first. */
  lemma LittleEndianOctets(v: u32, w: u16)
    ensures LittleEndian16(w) == [w as int % 0x100, w as int / 0x100]
    ensures LittleEndian32(v)
         == [v as int % 0x100, v as int / 0x100 % 0x100, v as int / 0x1_0000 % 0x100, v as int / 0x100_0000]
  {
    Quarters(v);
  }

  lemma LittleEndian64Octets(v: u64)
    ensures LittleEndian64(v)[..4] == LittleEndian32(v % 0x1_0000_0000)
    ensures LittleEndian64(v)[4..] == LittleEndian32(v / 0x1_0000_0000)
  {}

  /** A memory copy into the middle of a buffer. */
  method CopyBytes(dst: array<byte>, offset: nat, src: seq<byte>)
    requires offset + |src| <= dst.Length
    modifies dst
    ensures forall j | 0 <= j < |src| :: dst[offset + j] == src[j]
    ensures forall j | 0 <= j < dst.Length && !(offset <= j < offset + |src|) :: dst[j] == old(dst[j])
    ensures dst[..offset + |src|] == old(dst[..offset]) + src
    ensures dst[offset + |src|..] == old(dst[offset + |src|..])
  {
    var i := 0;
    while i < |src|
      invariant 0 <= i <= |src|
      invariant forall j | 0 <= j < i :: dst[offset + j] == src[j]
      invariant forall j | 0 <= j < dst.Length && !(offset <= j < offset + i) :: dst[j] == old(dst[j])
    {
      dst[offset + i] := src[i];
      i := i + 1;
    }
  }
}
