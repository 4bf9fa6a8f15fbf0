/** Fixed-size string fields and 64-bit values, as the service, the driver and the GUI lay
    them out in their packed structures. */
module TextFields {
  import opened ByteTypes

  function Ascii(s: string): (b: seq<byte>)
    ensures |b| == |s|
  {
    seq(|s|, i requires 0 <= i < |s| => s[i] as int % 0x100)
  }

  function Zeros(n: nat): (z: seq<byte>)
    ensures |z| == n
  {
    seq(n, _ => 0)
  }

  function Clipped(name: seq<byte>, size: nat): (t: seq<byte>)
    requires size > 0
    ensures |t| < size
  {
    if |name| < size then name else name[..size - 1]
  }

  /** At most size - 1 octets, padded with zeros. */
  function NameField(name: seq<byte>, size: nat): (field: seq<byte>)
    requires size > 0
    ensures |field| == size
  {
    Clipped(name, size) + Zeros(size - |Clipped(name, size)|)
  }

  /** copy_name: overwrites the front of a field and terminates it. */
  function CopyName(field: seq<byte>, name: seq<byte>): (r: seq<byte>)
    requires field != []
    ensures |r| == |field|
  {
    var t := Clipped(name, |field|);
    t + [0] + field[|t| + 1..]
  }

  /** The octets before the first NUL, or all of them. */
  function UpToNul(field: seq<byte>): seq<byte> {
    if field == [] || field[0] == 0 then [] else [field[0]] + UpToNul(field[1..])
  }

  lemma {:induction false} UpToNulIs(field: seq<byte>)
    ensures var n := |UpToNul(field)|;
      && n <= |field| && 0 !in UpToNul(field) && UpToNul(field) == field[..n]
      && (n < |field| ==> field[n] == 0)
  {
    if field != [] && field[0] != 0 {
      UpToNulIs(field[1..]);
    }
  }

  lemma {:induction false} UpToNulStops(name: seq<byte>, rest: seq<byte>)
    ensures UpToNul(name + [0] + rest) == UpToNul(name)
  {
    var field := name + [0] + rest;
    if name != [] {
      UpToNulStops(name[1..], rest);
      assert field[0] == name[0] && field[1..] == name[1..] + [0] + rest;
    }
  }

  lemma {:induction false} UpToNulWhole(name: seq<byte>)
    requires 0 !in name
    ensures UpToNul(name) == name
  {
    if name != [] { UpToNulWhole(name[1..]); }
  }

  /** A bounded reader sees the first size - 1 octets of the name, up to its first NUL. */
  lemma NameFieldReads(name: seq<byte>, size: nat)
    requires size > 0
    ensures UpToNul(NameField(name, size)) == UpToNul(Clipped(name, size))
  {
    var t := Clipped(name, size);
    assert NameField(name, size) == t + [0] + Zeros(size - |t| - 1);
    UpToNulStops(t, Zeros(size - |t| - 1));
  }

  lemma CopyNameReads(field: seq<byte>, name: seq<byte>)
    requires field != []
    ensures UpToNul(CopyName(field, name)) == UpToNul(Clipped(name, |field|))
  {
    var t := Clipped(name, |field|);
    UpToNulStops(t, field[|t| + 1..]);
  }

  /** Two's complement. */
  function Wrap64(v: i64): u64 {
    if v >= 0 then v else v + 0x1_0000_0000_0000_0000
  }

  lemma TwosComplement(v: i64)
    ensures Wrap64(v) as int == v as int % 0x1_0000_0000_0000_0000
  {}

  function Unwrap64(u: u64): (v: i64)
    ensures Wrap64(v) == u
  {
    if u < 0x8000_0000_0000_0000 then u else u - 0x1_0000_0000_0000_0000
  }

  lemma Split16(lo: u16, hi: u16)
    ensures (lo as int + hi as int * 0x1_0000) % 0x1_0000 == lo as int
    ensures (lo as int + hi as int * 0x1_0000) / 0x1_0000 == hi as int
  {}

  lemma Split32(lo: u32, hi: u32)
    ensures (lo as int + hi as int * 0x1_0000_0000) % 0x1_0000_0000 == lo as int
    ensures (lo as int + hi as int * 0x1_0000_0000) / 0x1_0000_0000 == hi as int
  {}

  lemma LittleEndian16Whole(s: seq<byte>)
    requires |s| == 2
    ensures LittleEndian16(FromLittleEndian16(s)) == s
  {}

  lemma LittleEndian32Whole(s: seq<byte>)
    requires |s| == 4
    ensures LittleEndian32(FromLittleEndian32(s)) == s
  {
    hide LittleEndian16, FromLittleEndian16;
    LittleEndian16Whole(s[..2]);
    LittleEndian16Whole(s[2..]);
    Split16(FromLittleEndian16(s[..2]), FromLittleEndian16(s[2..]));
    assert s[..2] + s[2..] == s;
  }

  /** Eight octets are those of the number they stand for. */
  lemma LittleEndian64Whole(s: seq<byte>)
    requires |s| == 8
    ensures LittleEndian64(Wrap64(Unwrap64(FromLittleEndian64(s)))) == s
  {
    hide LittleEndian32, FromLittleEndian32;
    LittleEndian32Whole(s[..4]);
    LittleEndian32Whole(s[4..]);
    Split32(FromLittleEndian32(s[..4]), FromLittleEndian32(s[4..]));
    assert s[..4] + s[4..] == s;
  }

  lemma Unwrap64Wrap(v: i64)
    ensures Unwrap64(Wrap64(v)) == v
  {}
}
