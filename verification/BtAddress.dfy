/** Bluetooth addresses as text: the GUI prints them (DevicesViewModel.cs), the driver parses
    the property string back (driver/src/owb_a2dp.c). */
module BtAddress {
  import opened ByteTypes

  const TWO_48 := 0x1_0000_0000_0000
  const TWO_64 := 0x1_0000_0000_0000_0000

  // ---- Hexadecimal text ------------------------------------------------------------

  type digit = x: int | 0 <= x < 16

  function HexDigit(c: char): Option<digit> {
    if '0' <= c <= '9' then Some(c as int - '0' as int)
    else if 'a' <= c <= 'f' then Some(10 + c as int - 'a' as int)
    else if 'A' <= c <= 'F' then Some(10 + c as int - 'A' as int)
    else None
  }

  /** The hex digits of a string, everything else skipped. */
  function Digits(s: string): seq<digit> {
    if s == [] then []
    else Digits(s[..|s| - 1]) + match HexDigit(s[|s| - 1]) case Some(d) => [d] case None => []
  }

  function Value(ds: seq<digit>): nat {
    if ds == [] then 0 else Value(ds[..|ds| - 1]) * 16 + ds[|ds| - 1]
  }

  // ---- The parser -------------------------------------------------------------------

  lemma WrappingStep(v: nat, d: digit)
    ensures (v % TWO_64 * 16) % TWO_64 + d == (v * 16 + d) % TWO_64
  {
    var q, r := v / TWO_64, v % TWO_64;
    var k, w := r * 16 / TWO_64, r * 16 % TWO_64;
    assert w == 16 * (r - k * (TWO_64 / 16));
    assert w + d < TWO_64;
    assert v * 16 + d == TWO_64 * (16 * q + k) + (w + d);
    Remainder(16 * q + k, w + d);
  }

  lemma Remainder(q: int, r: int)
    requires 0 <= r < TWO_64
    ensures (TWO_64 * q + r) % TWO_64 == r
  {}

  lemma WrapThenMask(v: int)
    ensures v % TWO_64 % TWO_48 == v % TWO_48
  {}

  /** OwbParseBtAddrHex: a 64-bit fold that wraps, masked to 48 bits, is the value of the hex
      digits modulo 2^48, however long the string and whatever separates them. */
  method ParseBtAddrHex(str: string) returns (address: u64)
    ensures address == Value(Digits(str)) % TWO_48
  {
    var addr: u64 := 0;
    var i := 0;
    while i < |str|
      invariant 0 <= i <= |str|
      invariant addr == Value(Digits(str[..i])) % TWO_64
    {
      hide Digits, Value, HexDigit;
      var nibble := HexDigit(str[i]);
      assert str[..i + 1][..i] == str[..i];
      DigitsStep(str[..i + 1]);
      if nibble.Some? {
        WrappingStep(Value(Digits(str[..i])), nibble.value);
        addr := (addr as int * 16) % TWO_64 + nibble.value;
      }
      i := i + 1;
    }
    assert str[..i] == str;
    WrapThenMask(Value(Digits(str)));
    address := addr as int % TWO_48;
  }

  lemma DigitsStep(s: string)
    requires s != []
    ensures var last := HexDigit(s[|s| - 1]);
      var before := Value(Digits(s[..|s| - 1]));
      Value(Digits(s)) == if last.Some? then before * 16 + last.value else before
  {
    var ds, before := Digits(s), Digits(s[..|s| - 1]);
    if HexDigit(s[|s| - 1]).Some? {
      assert ds[..|ds| - 1] == before;
    } else {
      assert ds == before;
    }
  }

  // ---- The printer --------------------------------------------------------------------

  function HexChar(d: digit): (c: char)
    ensures HexDigit(c) == Some(d)
  {
    if d < 10 then '0' + d as char else 'A' + (d - 10) as char
  }

  /** The X2 format of one octet. */
  function HexByte(b: byte): string {
    [HexChar(b / 16), HexChar(b % 16)]
  }

  function Octet(address: u64, i: nat): byte
    requires i < 6
  {
    var shift := if i == 0 then 1 else if i == 1 then 0x100 else if i == 2 then 0x1_0000
                 else if i == 3 then 0x100_0000 else if i == 4 then 0x1_0000_0000 else 0x100_0000_0000;
    address as int / shift % 256
  }

  function BtAddressToKey(address: u64): string {
    HexByte(Octet(address, 5)) + HexByte(Octet(address, 4)) + HexByte(Octet(address, 3))
    + HexByte(Octet(address, 2)) + HexByte(Octet(address, 1)) + HexByte(Octet(address, 0))
  }

  function Upper(c: char): char {
    if 'a' <= c <= 'z' then 'A' + (c - 'a') else c
  }

  function ToUpper(s: string): (u: string)
    ensures |u| == |s|
  {
    seq(|s|, i requires 0 <= i < |s| => Upper(s[i]))
  }

  function Colons(a: string, b: string, c: string, d: string, e: string, f: string): string {
    ToUpper(a) + ":" + ToUpper(b) + ":" + ToUpper(c) + ":" + ToUpper(d) + ":" + ToUpper(e) + ":" + ToUpper(f)
  }

  function FormatMac(key: string): string {
    if |key| != 12 then ToUpper(key)
    else Colons(key[0..2], key[2..4], key[4..6], key[6..8], key[8..10], key[10..12])
  }

  /** The printed form, character by character: pairs between colons for a twelve-character key,
      capitals in any case. */
  lemma FormatMacText(key: string)
    ensures |key| != 12 ==> FormatMac(key) == ToUpper(key)
    ensures |key| == 12 ==>
      && |FormatMac(key)| == 17
      && forall i | 0 <= i < 17 :: FormatMac(key)[i] == if i % 3 == 2 then ':' else Upper(key[i / 3 * 2 + i % 3])
  {}

  /** Capitals of the 26 letters; every other character stays. */
  lemma UpperTable(c: char, i: nat)
    requires i < 26
    ensures Upper("abcdefghijklmnopqrstuvwxyz"[i]) == "ABCDEFGHIJKLMNOPQRSTUVWXYZ"[i]
    ensures !('a' <= c <= 'z') ==> Upper(c) == c
  {}

  /** The 22 hexadecimal characters and their values. */
  lemma HexDigitTable(c: char, d: digit)
    ensures HexDigit(c).Some? <==> c in "0123456789abcdefABCDEF"
    ensures HexDigit("0123456789abcdef"[d]) == HexDigit("0123456789ABCDEF"[d]) == Some(d)
  {
    assert HexDigit("0123456789abcdef"[d]) == Some(d) by { LowerDigit(d); }
    assert HexDigit("0123456789ABCDEF"[d]) == Some(d) by { CapitalDigit(d); }
    HexCharacters(c);
  }

  lemma LowerDigit(d: digit)
    ensures HexDigit("0123456789abcdef"[d]) == Some(d)
  {}

  lemma CapitalDigit(d: digit)
    ensures HexDigit("0123456789ABCDEF"[d]) == Some(d)
  {}

  lemma HexCharacters(c: char)
    ensures c in "0123456789abcdefABCDEF" <==> '0' <= c <= '9' || 'a' <= c <= 'f' || 'A' <= c <= 'F'
  {
    var s := "0123456789abcdefABCDEF";
    if '0' <= c <= '9' {
      assert s[c as int - '0' as int] == c;
    } else if 'a' <= c <= 'f' {
      assert s[10 + c as int - 'a' as int] == c;
    } else if 'A' <= c <= 'F' {
      assert s[16 + c as int - 'A' as int] == c;
    }
  }

  // ---- They undo each other ---------------------------------------------------------------

  lemma {:induction false} DigitsConcat(a: string, b: string)
    ensures Digits(a + b) == Digits(a) + Digits(b)
  {
    if b == [] {
      assert a + b == a;
    } else {
      DigitsConcat(a, b[..|b| - 1]);
      assert (a + b)[..|a + b| - 1] == a + b[..|b| - 1];
    }
  }

  lemma UpperKeepsDigit(c: char)
    ensures HexDigit(Upper(c)) == HexDigit(c)
  {}

  /** Colons and case do not change what a key means, whatever its length. */
  lemma FormatKeepsDigits(key: string)
    ensures Digits(FormatMac(key)) == Digits(key)
  {
    hide Digits, Colons;
    if |key| == 12 {
      PairsKeepDigits(key);
    } else {
      UpperDigits(key);
    }
  }

  lemma PairsKeepDigits(key: string)
    requires |key| == 12
    ensures Digits(FormatMac(key)) == Digits(key)
  {
    hide Digits, Colons;
    var a, b, c, d, e, f := key[0..2], key[2..4], key[4..6], key[6..8], key[8..10], key[10..12];
    ColonsKeepDigits(a, b, c, d, e, f);
    assert a + b == key[..4] && key[..4] + c == key[..6] && key[..6] + d == key[..8];
    assert key[..8] + e == key[..10] && key[..10] + f == key;
  }

  lemma ColonsKeepDigits(a: string, b: string, c: string, d: string, e: string, f: string)
    ensures Digits(Colons(a, b, c, d, e, f)) == Digits(a + b + c + d + e + f)
  {
    hide Digits, ToUpper;
    UpperDigits(a);
    var m2 := Joined(ToUpper(a), a, b);
    var m3 := Joined(m2, a + b, c);
    var m4 := Joined(m3, a + b + c, d);
    var m5 := Joined(m4, a + b + c + d, e);
    var m6 := Joined(m5, a + b + c + d + e, f);
  }

  /** Appending a colon and a capitalised pair adds the digits of the pair. */
  lemma Joined(printed: string, plain: string, pair: string) returns (longer: string)
    requires Digits(printed) == Digits(plain)
    ensures longer == printed + ":" + ToUpper(pair) && Digits(longer) == Digits(plain + pair)
  {
    longer := printed + ":" + ToUpper(pair);
    assert (printed + ":")[..|printed|] == printed;
    assert Digits(printed + ":") == Digits(printed);
    DigitsConcat(printed + ":", ToUpper(pair));
    UpperDigits(pair);
    DigitsConcat(plain, pair);
  }

  lemma DigitsOfHexByte(b: byte)
    ensures Digits(HexByte(b)) == [b / 16, b % 16]
  {
    var s := HexByte(b);
    assert s[..1][..0] == [];
    assert Digits(s[..1]) == Digits([]) + [b / 16];
  }

  lemma ValueConcat(ds: seq<digit>, hi: digit, lo: digit)
    ensures Value(ds + [hi, lo]) == Value(ds) * 256 + hi * 16 + lo
  {
    var all := ds + [hi, lo];
    assert all[..|all| - 1] == ds + [hi];
    assert (ds + [hi])[..|ds|] == ds;
  }

  lemma ValueAppendByte(s: string, b: byte)
    ensures Value(Digits(s + HexByte(b))) == Value(Digits(s)) * 256 + b
  {
    DigitsConcat(s, HexByte(b));
    DigitsOfHexByte(b);
    ValueConcat(Digits(s), b / 16, b % 16);
  }

  /** Parsing what the GUI prints, bare or with colons, gives the address back modulo 2^48. */
  lemma PrintedParses(address: u64)
    ensures Value(Digits(BtAddressToKey(address))) == address % TWO_48
    ensures Value(Digits(FormatMac(BtAddressToKey(address)))) == address % TWO_48
  {
    hide Digits, Value, HexByte;
    var key := BtAddressToKey(address);
    KeyLength(address);
    FormatKeepsDigits(key);
    var k1: string := [] + HexByte(Octet(address, 5));
    var k2 := k1 + HexByte(Octet(address, 4));
    var k3 := k2 + HexByte(Octet(address, 3));
    var k4 := k3 + HexByte(Octet(address, 2));
    var k5 := k4 + HexByte(Octet(address, 1));
    ValueAppendByte([], Octet(address, 5));
    ValueAppendByte(k1, Octet(address, 4));
    ValueAppendByte(k2, Octet(address, 3));
    ValueAppendByte(k3, Octet(address, 2));
    ValueAppendByte(k4, Octet(address, 1));
    ValueAppendByte(k5, Octet(address, 0));
    EmptyValue();
    assert key == k5 + HexByte(Octet(address, 0));
    OctetsAddUp(address);
  }

  lemma KeyLength(address: u64)
    ensures |BtAddressToKey(address)| == 12
  {}

  lemma EmptyValue()
    ensures Value(Digits([])) == 0
  {}

  lemma OctetsAddUp(address: u64)
    ensures ((((Octet(address, 5) * 256 + Octet(address, 4)) * 256 + Octet(address, 3)) * 256 + Octet(address, 2)) * 256
             + Octet(address, 1)) * 256 + Octet(address, 0) == address % TWO_48
  {
    var a0 := address as int;
    var a1 := a0 / 0x100;
    var a2 := a1 / 0x100;
    var a3 := a2 / 0x100;
    var a4 := a3 / 0x100;
    var a5 := a4 / 0x100;
    assert a0 / 0x1_0000 == a2;
    assert a0 / 0x100_0000 == a3;
    assert a0 / 0x1_0000_0000 == a4;
    assert a0 / 0x100_0000_0000 == a5;
    SixOctets(a5 / 0x100, a5 % 0x100, a4 % 0x100, a3 % 0x100, a2 % 0x100, a1 % 0x100, a0 % 0x100, a0);
  }

  lemma SixOctets(q: nat, o5: byte, o4: byte, o3: byte, o2: byte, o1: byte, o0: byte, a: nat)
    requires a == (((((q * 256 + o5) * 256 + o4) * 256 + o3) * 256 + o2) * 256 + o1) * 256 + o0
    ensures a % TWO_48 == ((((o5 as int * 256 + o4) * 256 + o3) * 256 + o2) * 256 + o1) * 256 + o0
  {
    var low := ((((o5 as int * 256 + o4) * 256 + o3) * 256 + o2) * 256 + o1) * 256 + o0;
    assert a == TWO_48 * q + low && 0 <= low < TWO_48;
    Masked(q, low);
  }

  lemma Masked(q: nat, low: nat)
    requires low < TWO_48
    ensures (TWO_48 * q + low) % TWO_48 == low
  {}

  /** A capital hexadecimal string, as the printer writes them. */
  predicate CapitalHex(s: string) {
    forall i | 0 <= i < |s| :: HexDigit(s[i]).Some? && !('a' <= s[i] <= 'f')
  }

  lemma LastDigit(s: string)
    requires s != [] && CapitalHex(s)
    ensures Value(Digits(s)) == Value(Digits(s[..|s| - 1])) * 16 + HexDigit(s[|s| - 1]).value
    ensures CapitalHex(s[..|s| - 1])
  {
    DigitsStep(s);
  }

  lemma CapitalInjective(c: char, d: char)
    requires HexDigit(c).Some? && HexDigit(d).Some? && !('a' <= c <= 'f') && !('a' <= d <= 'f')
    requires HexDigit(c) == HexDigit(d)
    ensures c == d
  {}

  lemma {:induction false} SameValueSameText(s: string, t: string)
    requires |s| == |t| && CapitalHex(s) && CapitalHex(t)
    requires Value(Digits(s)) == Value(Digits(t))
    ensures s == t
  {
    hide Digits, Value, HexDigit;
    if s != [] {
      LastDigit(s);
      LastDigit(t);
      var n := |s| - 1;
      CapitalInjective(s[n], t[n]);
      SameValueSameText(s[..n], t[..n]);
      assert s == s[..n] + [s[n]] && t == t[..n] + [t[n]];
    }
  }

  function Pow16(n: nat): nat {
    if n == 0 then 1 else 16 * Pow16(n - 1)
  }

  lemma {:induction false} ValueBound(s: string)
    requires CapitalHex(s)
    ensures Value(Digits(s)) < Pow16(|s|)
  {
    if s != [] {
      LastDigit(s);
      ValueBound(s[..|s| - 1]);
    }
  }

  lemma Pow16Twelve()
    ensures Pow16(12) == TWO_48
  {
    assert Pow16(4) == 0x1_0000;
    assert Pow16(8) == 16 * 16 * 16 * 16 * Pow16(4);
    assert Pow16(12) == 16 * 16 * 16 * 16 * Pow16(8);
  }

  lemma KeyIsCapital(address: u64)
    ensures |BtAddressToKey(address)| == 12 && CapitalHex(BtAddressToKey(address))
  {}

  /** Conversely, printing what was parsed from twelve hex digits gives them back in capitals. */
  lemma ParsedPrints(s: string, address: u64)
    requires |s| == 12 && forall i | 0 <= i < 12 :: HexDigit(s[i]).Some?
    requires address as int == Value(Digits(s)) % TWO_48
    ensures BtAddressToKey(address) == ToUpper(s)
  {
    hide BtAddressToKey, Digits, Value, HexDigit;
    var t := ToUpper(s);
    UpperIsCapital(s);
    UpperDigits(s);
    ValueBound(t);
    Pow16Twelve();
    PrintedParses(address);
    KeyIsCapital(address);
    SameValueSameText(BtAddressToKey(address), t);
  }

  lemma UpperIsCapital(s: string)
    requires forall i | 0 <= i < |s| :: HexDigit(s[i]).Some?
    ensures CapitalHex(ToUpper(s))
  {}

  lemma {:induction false} UpperDigits(s: string)
    ensures Digits(ToUpper(s)) == Digits(s)
  {
    if s != [] {
      UpperDigits(s[..|s| - 1]);
      UpperKeepsDigit(s[|s| - 1]);
      assert ToUpper(s)[..|s| - 1] == ToUpper(s[..|s| - 1]);
    }
  }
}
