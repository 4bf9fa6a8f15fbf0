/** The binary IPC protocol: service/src/ipc_protocol.h as the server reads and writes it,
    gui/OpenWinBlue/Models/IpcProtocol.cs as the GUI does. All integers little-endian. */
module IpcProtocol {
  import opened ByteTypes
  import opened TextFields

  const PING: u16 := 0x0001
  const PONG: u16 := 0x0002
  const GET_STATUS: u16 := 0x0010
  const STATUS_REPLY: u16 := 0x0011
  const SET_CODEC: u16 := 0x0020
  const CODEC_ACK: u16 := 0x0021

  const HEADER_SIZE := 4
  const NAME_SIZE := 16
  const STATUS_SIZE := 24
  const SET_CODEC_SIZE := 40

  // ---- Messages ---------------------------------------------------------------------

  datatype RawMessage = Message(kind: u16, payload: seq<byte>)
  type Message = m: RawMessage | |m.payload| < 0x1_0000 witness Message(0, [])

  function Header(kind: u16, len: u16): (h: seq<byte>)
    ensures |h| == HEADER_SIZE
  {
    LittleEndian16(kind) + LittleEndian16(len)
  }

  function Encode(m: Message): seq<byte> {
    Header(m.kind, |m.payload|) + m.payload
  }

  function EncodeAll(ms: seq<Message>): seq<byte> {
    if ms == [] then [] else Encode(ms[0]) + EncodeAll(ms[1..])
  }

  /** A reader that trusts the length of every header; an incomplete last message is left. */
  function ParseAll(bytes: seq<byte>): seq<Message> {
    if |bytes| < HEADER_SIZE then []
    else
      var len := FromLittleEndian16(bytes[2..4]) as int;
      if |bytes| < HEADER_SIZE + len then []
      else
        [Message(FromLittleEndian16(bytes[..2]), bytes[HEADER_SIZE..HEADER_SIZE + len])]
        + ParseAll(bytes[HEADER_SIZE + len..])
  }

  lemma HeaderFields(kind: u16, len: u16, rest: seq<byte>)
    ensures var bytes := Header(kind, len) + rest;
      FromLittleEndian16(bytes[..2]) == kind && FromLittleEndian16(bytes[2..4]) == len && bytes[HEADER_SIZE..] == rest
  {
    var bytes := Header(kind, len) + rest;
    assert bytes[..2] == LittleEndian16(kind) && bytes[2..4] == LittleEndian16(len);
  }

  lemma ParseOne(m: Message, rest: seq<byte>)
    ensures ParseAll(Encode(m) + rest) == [m] + ParseAll(rest)
  {
    hide Header;
    var bytes := Encode(m) + rest;
    assert bytes == Header(m.kind, |m.payload|) + (m.payload + rest);
    HeaderFields(m.kind, |m.payload|, m.payload + rest);
    var len := |m.payload|;
    assert bytes[HEADER_SIZE..HEADER_SIZE + len] == bytes[HEADER_SIZE..][..len] == m.payload;
    assert bytes[HEADER_SIZE + len..] == bytes[HEADER_SIZE..][len..] == rest;
  }

  lemma {:induction false} ParseEncode(ms: seq<Message>)
    ensures ParseAll(EncodeAll(ms)) == ms
  {
    hide Encode;
    if ms != [] {
      ParseEncode(ms[1..]);
      ParseOne(ms[0], EncodeAll(ms[1..]));
    }
  }

  /** A message in octets: type and payload length lowest octet first, then the payload. */
  lemma MessageOctets(m: Message)
    ensures Encode(m)
         == [m.kind as int % 0x100, m.kind as int / 0x100, |m.payload| % 0x100, |m.payload| / 0x100] + m.payload
  {
    LittleEndianOctets(0, m.kind);
    LittleEndianOctets(0, |m.payload|);
  }

  // ---- Payloads ------------------------------------------------------------------------

  /** SetCodecPayload as the server reads it. */
  datatype SetCodecRequest = SetCodecRequest(codec: seq<byte>, key: seq<byte>, value: i64)

  function ReadSetCodec(payload: seq<byte>): SetCodecRequest
    requires |payload| == SET_CODEC_SIZE
  {
    SetCodecRequest(UpToNul(payload[..NAME_SIZE]), UpToNul(payload[NAME_SIZE..2 * NAME_SIZE]),
                    Unwrap64(FromLittleEndian64(payload[2 * NAME_SIZE..])))
  }

  /** The server's reading in octets: each name ends at its first NUL or its sixteenth octet. */
  lemma ReadSetCodecOctets(payload: seq<byte>)
    requires |payload| == 40
    ensures var r := ReadSetCodec(payload);
      && |r.codec| <= 16 && 0 !in r.codec && r.codec == payload[..|r.codec|]
      && (|r.codec| < 16 ==> payload[|r.codec|] == 0)
      && |r.key| <= 16 && 0 !in r.key && r.key == payload[16..16 + |r.key|]
      && (|r.key| < 16 ==> payload[16 + |r.key|] == 0)
      && payload[32..] == LittleEndian64(Wrap64(r.value))
  {
    UpToNulIs(payload[..16]);
    UpToNulIs(payload[16..32]);
    LittleEndian64Whole(payload[32..]);
  }

  /** Encoding.ASCII: one octet a character, '?' for what ASCII lacks. */
  function AsciiOctets(s: string): (b: seq<byte>)
    ensures |b| == |s|
  {
    seq(|s|, i requires 0 <= i < |s| => if s[i] as int < 0x80 then s[i] as int else '?' as int)
  }

  lemma AsciiOctetsExactly(s: string, i: nat)
    requires i < |s|
    ensures AsciiOctets(s)[i] == if s[i] as int < 128 then s[i] as int else 63
  {}

  /** SetCodecPayload.Create and WriteSetCodec's marshalling. */
  function GuiSetCodec(codec: string, key: string, value: i64): (payload: seq<byte>)
    ensures |payload| == SET_CODEC_SIZE
  {
    NameField(AsciiOctets(codec), NAME_SIZE) + NameField(AsciiOctets(key), NAME_SIZE) + LittleEndian64(Wrap64(value))
  }

  /** The GUI's payload in octets: at most fifteen characters in each name field, zeros behind
      them, the value lowest octet first. */
  lemma GuiSetCodecOctets(codec: string, key: string, value: i64, i: nat)
    requires i < 16
    ensures var payload := GuiSetCodec(codec, key, value);
      && payload[i] == (if i < 15 && i < |codec| then AsciiOctets(codec)[i] else 0)
      && payload[16 + i] == (if i < 15 && i < |key| then AsciiOctets(key)[i] else 0)
      && payload[32..] == LittleEndian64(Wrap64(value))
  {}

  /** Create: fills two 16-octet arrays, at most 15 octets each. */
  method GuiNameBytes(name: string) returns (field: seq<byte>)
    ensures field == NameField(AsciiOctets(name), NAME_SIZE)
  {
    var a := new byte[NAME_SIZE](_ => 0);
    var n := if |name| < NAME_SIZE - 1 then |name| else NAME_SIZE - 1;
    CopyBytes(a, 0, AsciiOctets(name)[..n]);
    field := a[..];
    assert field[..n] == Clipped(AsciiOctets(name), NAME_SIZE);
    assert field[n..] == Zeros(NAME_SIZE - n) by {
      assert forall j | n <= j < NAME_SIZE :: field[j] == 0;
    }
  }

  /** What the GUI builds arrives: the server reads the first 15 characters of both names,
      up to a NUL if they hold one, and the very same 64-bit value. */
  lemma GuiSetCodecArrives(codec: string, key: string, value: i64)
    ensures ReadSetCodec(GuiSetCodec(codec, key, value))
         == SetCodecRequest(UpToNul(Clipped(AsciiOctets(codec), NAME_SIZE)),
                            UpToNul(Clipped(AsciiOctets(key), NAME_SIZE)), value)
  {
    hide NameField, UpToNul, LittleEndian64, Wrap64, Unwrap64, FromLittleEndian64;
    var payload := GuiSetCodec(codec, key, value);
    assert payload[..NAME_SIZE] == NameField(AsciiOctets(codec), NAME_SIZE);
    assert payload[NAME_SIZE..2 * NAME_SIZE] == NameField(AsciiOctets(key), NAME_SIZE);
    assert payload[2 * NAME_SIZE..] == LittleEndian64(Wrap64(value));
    NameFieldReads(AsciiOctets(codec), NAME_SIZE);
    NameFieldReads(AsciiOctets(key), NAME_SIZE);
    Unwrap64Wrap(value);
  }

  /** StatusPayload: codec name, bitrate, capturing, HFP guard, two octets of padding. */
  datatype Status = Status(codecName: seq<byte>, bitrate: u32, capturing: bool)

  const DEFAULT_CODEC: seq<byte> := [0x53, 0x42, 0x43]  // "SBC"

  /** The name is copied over the default one. */
  function StatusBytes(st: Status): (b: seq<byte>)
    ensures |b| == STATUS_SIZE
  {
    CopyName(CopyName(Zeros(NAME_SIZE), DEFAULT_CODEC), st.codecName)
    + LittleEndian32(st.bitrate) + [if st.capturing then 1 else 0, 0, 0, 0]
  }

  /** The status in octets: the name and its NUL at the front of sixteen, bitrate lowest octet
      first, the capture flag, and zeros for the HFP guard and the padding. */
  lemma StatusOctets(st: Status)
    ensures var b := StatusBytes(st);
      var n := if |st.codecName| < 16 then |st.codecName| else 15;
      && b[..n] == st.codecName[..n] && b[n] == 0
      && b[16..20] == LittleEndian32(st.bitrate)
      && b[20] == (if st.capturing then 1 else 0) && b[21..] == [0, 0, 0]
  {}

  /** StatusPayload.CodecName, Bitrate and IsCapturing as the GUI reads them. */
  function GuiReadStatus(b: seq<byte>): Status
    requires |b| == STATUS_SIZE
  {
    Status(UpToNul(b[..NAME_SIZE]), FromLittleEndian32(b[NAME_SIZE..NAME_SIZE + 4]), b[NAME_SIZE + 4] != 0)
  }

  /** The GUI shows what the server reported: name up to its first NUL and 15 octets, whatever
      default it overwrote, bitrate and capture flag. */
  lemma StatusArrives(st: Status)
    ensures GuiReadStatus(StatusBytes(st)) == st.(codecName := UpToNul(Clipped(st.codecName, NAME_SIZE)))
  {
    hide UpToNul, CopyName, LittleEndian32, FromLittleEndian32;
    var field := CopyName(Zeros(NAME_SIZE), DEFAULT_CODEC);
    var b := StatusBytes(st);
    assert b[..NAME_SIZE] == CopyName(field, st.codecName);
    assert b[NAME_SIZE..NAME_SIZE + 4] == LittleEndian32(st.bitrate);
    CopyNameReads(field, st.codecName);
  }
}
