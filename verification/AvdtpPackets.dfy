/** driver/src/avdtp_packets.c: the AVDTP packet parsers and builders (AVDTP 1.3
    sections 8.6 and 8.21, A2DP 1.3 section 4).

    The byte-level loops are proved against two list readings of a packet: a DISCOVER
    response is a list of endpoints, a GET_CAPABILITIES response a list of capabilities
    followed by a truncated rest. */
module AvdtpPackets {
  import opened ByteTypes

  const SEID_NONE: byte := 0
  const CATEGORY_MEDIA_TRANSPORT: byte := 0x01
  const CATEGORY_MEDIA_CODEC: byte := 0x07
  const SET_CONFIGURATION_MAX_LEN := 19

  // ---- Codec table --------------------------------------------------------

  /** Codec-specific octets after the Media Type octet; the first matchLen of them
      identify the codec. */
  datatype RawCodecConfig = CodecConfig(codecId: u32, info: seq<byte>, matchLen: nat)
  type CodecConfig = c: RawCodecConfig | c.matchLen <= |c.info| < 0xFF
    witness CodecConfig(CODEC_SBC, [], 0)

  const CODEC_CONFIGS: seq<CodecConfig> := [
    CodecConfig(CODEC_SBC, [0x00, 0x21, 0x15, 0x02, 0x35], 1),
    CodecConfig(CODEC_AAC, [0x02, 0x80, 0x01, 0x04, 0x03, 0xE8, 0x00], 1),
    CodecConfig(CODEC_APTX, [0xFF, 0x4F, 0x00, 0x00, 0x00, 0x01, 0x00, 0x22], 7),
    CodecConfig(CODEC_APTX_HD, [0xFF, 0xD7, 0x00, 0x00, 0x00, 0x24, 0x00, 0x22, 0, 0, 0, 0], 7),
    CodecConfig(CODEC_LDAC, [0xFF, 0x2D, 0x01, 0x00, 0x00, 0xAA, 0x00, 0x20, 0x01], 7)
  ]

  predicate Configurable(codecId: u32) {
    codecId in {CODEC_SBC, CODEC_AAC, CODEC_APTX, CODEC_APTX_HD, CODEC_LDAC}
  }

  function ConfigFor(codecId: u32): (r: Option<CodecConfig>)
    ensures r.Some? <==> Configurable(codecId)
    ensures r.Some? ==> r.value in CODEC_CONFIGS && r.value.codecId == codecId
  {
    if codecId == CODEC_SBC then Some(CODEC_CONFIGS[0])
    else if codecId == CODEC_AAC then Some(CODEC_CONFIGS[1])
    else if codecId == CODEC_APTX then Some(CODEC_CONFIGS[2])
    else if codecId == CODEC_APTX_HD then Some(CODEC_CONFIGS[3])
    else if codecId == CODEC_LDAC then Some(CODEC_CONFIGS[4])
    else None
  }

  method FindCodecConfig(codecId: u32) returns (r: Option<CodecConfig>)
    ensures r == ConfigFor(codecId)
  {
    var i := 0;
    while i < |CODEC_CONFIGS|
      invariant 0 <= i <= |CODEC_CONFIGS|
      invariant forall j :: 0 <= j < i ==> CODEC_CONFIGS[j].codecId != codecId
    {
      if CODEC_CONFIGS[i].codecId == codecId {
        return Some(CODEC_CONFIGS[i]);
      }
      i := i + 1;
    }
    assert CODEC_CONFIGS[0].codecId != codecId && CODEC_CONFIGS[1].codecId != codecId;
    assert CODEC_CONFIGS[2].codecId != codecId && CODEC_CONFIGS[3].codecId != codecId;
    assert CODEC_CONFIGS[4].codecId != codecId;
    r := None;
  }

  // ---- DISCOVER responses --------------------------------------------------

  /** One two-octet endpoint entry, reserved bits included. */
  datatype Endpoint = Endpoint(seid: int, inUse: bool, rfa0: int, mediaType: int, sink: bool, rfa1: int)

  predicate EndpointInRange(e: Endpoint) {
    0 <= e.seid < 64 && 0 <= e.rfa0 < 2 && 0 <= e.mediaType < 16 && 0 <= e.rfa1 < 8
  }

  function DecodeEndpoint(b0: byte, b1: byte): (e: Endpoint)
    ensures EndpointInRange(e)
  {
    Endpoint(b0 / 4, b0 / 2 % 2 == 1, b0 % 2, b1 / 16, b1 / 8 % 2 == 1, b1 % 8)
  }

  function EncodeEndpoint(e: Endpoint): (s: seq<byte>)
    requires EndpointInRange(e)
    ensures |s| == 2 && DecodeEndpoint(s[0], s[1]) == e
  {
    [e.seid * 4 + (if e.inUse then 2 else 0) + e.rfa0,
     e.mediaType * 16 + (if e.sink then 8 else 0) + e.rfa1]
  }

  predicate FreeAudioSink(e: Endpoint) {
    !e.inUse && e.sink && e.mediaType == 0
  }

  function Endpoints(data: seq<byte>): seq<Endpoint> {
    if |data| < 2 then [] else [DecodeEndpoint(data[0], data[1])] + Endpoints(data[2..])
  }

  function SerializeEndpoints(es: seq<Endpoint>): seq<byte>
    requires forall e <- es :: EndpointInRange(e)
  {
    if es == [] then [] else EncodeEndpoint(es[0]) + SerializeEndpoints(es[1..])
  }

  lemma ConsEndpoint(e: Endpoint, rest: seq<byte>)
    requires EndpointInRange(e)
    ensures Endpoints(EncodeEndpoint(e) + rest) == [e] + Endpoints(rest)
  {
    assert (EncodeEndpoint(e) + rest)[2..] == rest;
  }

  /** Every endpoint list survives the wire; an odd last octet is ignored. */
  lemma {:induction false} EndpointsRoundTrip(es: seq<Endpoint>, tail: seq<byte>)
    requires forall e <- es :: EndpointInRange(e)
    requires |tail| < 2
    ensures Endpoints(SerializeEndpoints(es) + tail) == es
  {
    if es == [] {
      assert SerializeEndpoints(es) + tail == tail;
    } else {
      var rest := SerializeEndpoints(es[1..]);
      EndpointsRoundTrip(es[1..], tail);
      ConsEndpoint(es[0], rest + tail);
      assert EncodeEndpoint(es[0]) + rest + tail == EncodeEndpoint(es[0]) + (rest + tail);
    }
  }

  function FirstFreeSink(es: seq<Endpoint>): (seid: byte)
    requires forall e <- es :: EndpointInRange(e)
    ensures seid < 64
  {
    if es == [] then SEID_NONE
    else if FreeAudioSink(es[0]) then
      assert EndpointInRange(es[0]);
      es[0].seid
    else FirstFreeSink(es[1..])
  }

  lemma {:induction false} EndpointsInRange(data: seq<byte>)
    ensures forall e <- Endpoints(data) :: EndpointInRange(e)
  {
    if |data| >= 2 { EndpointsInRange(data[2..]); }
  }

  function FreeSinkSeid(data: seq<byte>): (seid: byte)
    ensures seid < 64
  {
    EndpointsInRange(data);
    FirstFreeSink(Endpoints(data))
  }

  ghost predicate FirstFreeAt(es: seq<Endpoint>, i: int) {
    0 <= i < |es| && FreeAudioSink(es[i]) && forall j | 0 <= j < i :: !FreeAudioSink(es[j])
  }

  /** The search answers the SEID of the first free audio sink; SEID_NONE when there is
      none, and also when that first sink itself carries the forbidden SEID 0. */
  lemma {:induction false} FirstFreeSinkIsFirst(es: seq<Endpoint>)
    requires forall e <- es :: EndpointInRange(e)
    ensures (forall e <- es :: !FreeAudioSink(e)) ==> FirstFreeSink(es) == SEID_NONE
    ensures forall i | FirstFreeAt(es, i) :: FirstFreeSink(es) == es[i].seid
  {
    if es != [] && !FreeAudioSink(es[0]) {
      FirstFreeSinkIsFirst(es[1..]);
      forall i | FirstFreeAt(es, i)
        ensures FirstFreeSink(es) == es[i].seid
      {
        assert FirstFreeAt(es[1..], i - 1);
      }
    }
  }

  /** An endpoint is found exactly when the first free audio sink carries a permitted SEID. */
  lemma SinkFoundExactly(es: seq<Endpoint>)
    requires forall e <- es :: EndpointInRange(e)
    ensures FirstFreeSink(es) != SEID_NONE <==> exists i :: FirstFreeAt(es, i) && es[i].seid != 0
  {
    FirstFreeSinkIsFirst(es);
    if exists e <- es :: FreeAudioSink(e) {
      var i := FirstFreeIndex(es);
      assert FirstFreeAt(es, i);
    }
  }

  lemma {:induction false} FirstFreeIndex(es: seq<Endpoint>) returns (i: nat)
    requires exists e <- es :: FreeAudioSink(e)
    ensures FirstFreeAt(es, i)
  {
    if FreeAudioSink(es[0]) {
      i := 0;
    } else {
      var k := FirstFreeIndex(es[1..]);
      i := k + 1;
      assert forall j | 0 < j < i :: es[j] == es[1..][j - 1];
    }
  }

  /** A free audio sink with the forbidden SEID 0 hides the usable endpoint behind it. */
  lemma ForbiddenSeidHides()
    ensures FreeSinkSeid([0x00, 0x08, 0x14, 0x08]) == SEID_NONE
    ensures FreeSinkSeid([0x14, 0x08]) == 5
  {
    var usable: seq<byte> := [0x14, 0x08];
    var both: seq<byte> := [0x00, 0x08, 0x14, 0x08];
    assert usable[2..] == [] && both[2..] == usable;
    assert Endpoints(usable) == [DecodeEndpoint(0x14, 0x08)];
    assert Endpoints(both) == [DecodeEndpoint(0x00, 0x08)] + Endpoints(usable);
  }

  /** The search in octets: SEID in the high six bits of the first, in-use in bit 1, media type
      in the high four bits of the second, sink in bit 3. */
  lemma FreeSinkOctets(data: seq<byte>)
    ensures |data| < 2 ==> FreeSinkSeid(data) == 0
    ensures |data| >= 2 ==>
      FreeSinkSeid(data) ==
        if data[0] / 2 % 2 == 0 && data[1] / 16 == 0 && data[1] / 8 % 2 == 1 then data[0] / 4
        else FreeSinkSeid(data[2..])
  {
    if |data| >= 2 {
      assert Endpoints(data)[0] == DecodeEndpoint(data[0], data[1]);
      assert Endpoints(data)[1..] == Endpoints(data[2..]);
    }
  }

  method FindFreeAudioSinkSeid(data: seq<byte>) returns (seid: byte)
    ensures seid == FreeSinkSeid(data)
  {
    var i := 0;
    while i + 2 <= |data|
      invariant 0 <= i <= |data|
      invariant FreeSinkSeid(data) == FreeSinkSeid(data[i..])
    {
      var rest := data[i..];
      assert rest[2..] == data[i + 2..];
      var inUse := data[i] / 2 % 2 == 1;
      var sink := data[i + 1] / 8 % 2 == 1;
      if !inUse && sink && data[i + 1] / 16 == 0 {
        return data[i] / 4;
      }
      i := i + 2;
    }
    seid := SEID_NONE;
  }

  // ---- Capability lists ----------------------------------------------------

  /** A service capability: category octet and at most 255 octets of payload. */
  datatype RawCapability = Capability(category: byte, payload: seq<byte>)
  type Capability = c: RawCapability | |c.payload| < 0x100 witness Capability(0, [])

  function SerializeOne(c: Capability): seq<byte> {
    [c.category, |c.payload|] + c.payload
  }

  function Serialize(cs: seq<Capability>): seq<byte> {
    if cs == [] then [] else SerializeOne(cs[0]) + Serialize(cs[1..])
  }

  /** Too short to hold the capability it announces. */
  predicate Truncated(bytes: seq<byte>) {
    |bytes| < 2 || |bytes| < 2 + bytes[1] as int
  }

  function Parse(bytes: seq<byte>): seq<Capability> {
    if Truncated(bytes) then []
    else [Capability(bytes[0], bytes[2..2 + bytes[1] as int])] + Parse(bytes[2 + bytes[1] as int..])
  }

  function Rest(bytes: seq<byte>): seq<byte> {
    if Truncated(bytes) then bytes else Rest(bytes[2 + bytes[1] as int..])
  }

  lemma ParseOne(c: Capability, rest: seq<byte>)
    ensures var bytes := SerializeOne(c) + rest;
            Parse(bytes) == [c] + Parse(rest) && Rest(bytes) == Rest(rest)
  {
    var bytes := SerializeOne(c) + rest;
    assert bytes[0] == c.category && bytes[1] == |c.payload|;
    assert bytes[2..2 + |c.payload|] == c.payload;
    assert bytes[2 + |c.payload|..] == rest;
  }

  lemma {:induction false} ParseSerialize(cs: seq<Capability>, tail: seq<byte>)
    requires Truncated(tail)
    ensures Parse(Serialize(cs) + tail) == cs && Rest(Serialize(cs) + tail) == tail
  {
    if cs == [] {
      assert Serialize(cs) + tail == tail;
    } else {
      hide SerializeOne, Truncated, Parse, Rest;
      ParseSerialize(cs[1..], tail);
      SerializeCons(cs, tail);
      ParseOne(cs[0], Serialize(cs[1..]) + tail);
    }
  }

  lemma SerializeCons(cs: seq<Capability>, tail: seq<byte>)
    requires cs != []
    ensures Serialize(cs) + tail == SerializeOne(cs[0]) + (Serialize(cs[1..]) + tail)
    ensures [cs[0]] + cs[1..] == cs
  {
    hide SerializeOne;
    var one, others := SerializeOne(cs[0]), Serialize(cs[1..]);
    assert Serialize(cs) == one + others;
    hide Serialize;
    Associative(one, others, tail);
  }

  lemma Associative(a: seq<byte>, b: seq<byte>, c: seq<byte>)
    ensures (a + b) + c == a + (b + c)
  {}

  /** Conversely every byte string is a serialized list and a truncated rest. */
  lemma {:induction false} SerializeParse(bytes: seq<byte>)
    ensures bytes == Serialize(Parse(bytes)) + Rest(bytes) && Truncated(Rest(bytes))
  {
    if !Truncated(bytes) {
      var n := 2 + bytes[1] as int;
      SerializeParse(bytes[n..]);
      SplitOne(bytes);
      hide SerializeOne, Truncated;
      var cs := Parse(bytes);
      assert cs[1..] == Parse(bytes[n..]);
      SerializeCons(cs, Rest(bytes));
    }
  }

  lemma SplitOne(bytes: seq<byte>)
    requires !Truncated(bytes)
    ensures var n := 2 + bytes[1] as int;
      bytes == SerializeOne(Capability(bytes[0], bytes[2..n])) + bytes[n..]
  {}

  predicate Matches(c: Capability, config: CodecConfig)
  {
    && c.category == CATEGORY_MEDIA_CODEC
    && |c.payload| >= 1 + config.matchLen
    && c.payload[0] / 16 == 0
    && c.payload[1..1 + config.matchLen] == config.info[..config.matchLen]
  }

  ghost predicate SomeMatch(cs: seq<Capability>, config: CodecConfig)
  {
    exists c <- cs :: Matches(c, config)
  }

  /** SomeMatch read off the octets, capability by capability. */
  ghost predicate WalkFinds(bytes: seq<byte>, config: CodecConfig) {
    if Truncated(bytes) then false
    else
      var len := 2 + bytes[1] as int;
      Matches(Capability(bytes[0], bytes[2..len]), config) || WalkFinds(bytes[len..], config)
  }

  lemma {:induction false} WalkFindsSomeMatch(bytes: seq<byte>, config: CodecConfig)
    ensures WalkFinds(bytes, config) <==> SomeMatch(Parse(bytes), config)
  {
    if !Truncated(bytes) {
      var len := 2 + bytes[1] as int;
      var c := Capability(bytes[0], bytes[2..len]);
      WalkFindsSomeMatch(bytes[len..], config);
      assert Parse(bytes) == [c] + Parse(bytes[len..]);
      assert c in [c];
    }
  }

  /** The walk over the octets of a GET_CAPABILITIES response. */
  method CapabilitiesContainConfig(caps: seq<byte>, config: CodecConfig) returns (found: bool)
    ensures found <==> SomeMatch(Parse(caps), config)
  {
    WalkFindsSomeMatch(caps, config);
    var i := 0;
    while i + 2 <= |caps|
      invariant 0 <= i <= |caps|
      invariant WalkFinds(caps, config) <==> WalkFinds(caps[i..], config)
      decreases |caps| - i
    {
      var len := 2 + caps[i + 1] as int;
      if i + len > |caps| {
        return false;
      }
      assert caps[i..][2..len] == caps[i..i + len][2..];
      if MediaCodecMatches(caps[i..i + len], config) {
        return true;
      }
      assert caps[i..][len..] == caps[i + len..];
      i := i + len;
    }
    found := false;
  }

  /** capability starts at the Service Category octet of a complete capability. */
  predicate MediaCodecMatches(capability: seq<byte>, config: CodecConfig)
    requires |capability| >= 2 && |capability| == 2 + capability[1] as int
    ensures MediaCodecMatches(capability, config) <==> Matches(Capability(capability[0], capability[2..]), config)
  {
    && capability[0] == CATEGORY_MEDIA_CODEC
    && capability[1] >= 1 + config.matchLen
    && capability[2] / 16 == 0
    && assert capability[2..][1..1 + config.matchLen] == capability[3..3 + config.matchLen];
       capability[3..3 + config.matchLen] == config.info[..config.matchLen]
  }

  // ---- Codec selection -----------------------------------------------------

  ghost predicate ContainsCodec(caps: seq<byte>, codecId: u32) {
    ConfigFor(codecId).Some? && SomeMatch(Parse(caps), ConfigFor(codecId).value)
  }

  ghost function SelectedCodec(preferred: u32, caps: seq<byte>): (codec: u32)
    ensures Configurable(codec)
  {
    if ContainsCodec(caps, preferred) then preferred else CODEC_SBC
  }

  method SelectCodec(preferred: u32, caps: seq<byte>) returns (codec: u32)
    ensures codec == SelectedCodec(preferred, caps)
  {
    var config := FindCodecConfig(preferred);
    var contains := false;
    if config.Some? {
      contains := CapabilitiesContainConfig(caps, config.value);
    }
    codec := if contains then preferred else CODEC_SBC;
  }

  /** On a serialized list the octet walk answers exactly the list question, whatever
      truncated capability follows. */
  lemma WalkerAgreesWithList(cs: seq<Capability>, tail: seq<byte>, codecId: u32)
    requires Truncated(tail)
    ensures ContainsCodec(Serialize(cs) + tail, codecId)
       <==> ConfigFor(codecId).Some? && exists c <- cs :: Matches(c, ConfigFor(codecId).value)
  {
    ParseSerialize(cs, tail);
  }

  /** Selection depends neither on the order of the capabilities nor on a truncated rest. */
  lemma SelectionIgnoresOrder(preferred: u32, cs: seq<Capability>, cs': seq<Capability>,
                              tail: seq<byte>, tail': seq<byte>)
    requires Truncated(tail) && Truncated(tail')
    requires multiset(cs) == multiset(cs')
    ensures SelectedCodec(preferred, Serialize(cs) + tail) == SelectedCodec(preferred, Serialize(cs') + tail')
  {
    WalkerAgreesWithList(cs, tail, preferred);
    WalkerAgreesWithList(cs', tail', preferred);
    assert forall c :: c in cs <==> c in multiset(cs);
    assert forall c :: c in cs' <==> c in multiset(cs');
  }

  /** What a Media Codec capability must hold to advertise a codec, in octets: audio in the
      high four bits of the first, then the codec type, and behind 0xFF the vendor and its
      codec. */
  lemma AdvertisedOctets(c: Capability, codecId: u32)
    ensures var s := c.payload;
      var audio := c.category == 7 && |s| >= 1 && s[0] / 16 == 0;
      && ConfigFor(codecId).Some? == (codecId in {0, 1, 2, 3, 4})
      && (ConfigFor(codecId).Some? ==>
            (Matches(c, ConfigFor(codecId).value) <==>
               audio &&
               if codecId == 0 then |s| >= 2 && s[1] == 0x00
               else if codecId == 4 then |s| >= 2 && s[1] == 0x02
               else if codecId == 2 then |s| >= 8 && s[1..8] == [0xFF, 0x4F, 0x00, 0x00, 0x00, 0x01, 0x00]
               else if codecId == 3 then |s| >= 8 && s[1..8] == [0xFF, 0xD7, 0x00, 0x00, 0x00, 0x24, 0x00]
               else |s| >= 8 && s[1..8] == [0xFF, 0x2D, 0x01, 0x00, 0x00, 0xAA, 0x00]))
  {
    if ConfigFor(codecId).Some? {
      var config := ConfigFor(codecId).value;
      var prefix := config.info[..config.matchLen];
      if |c.payload| >= 1 + config.matchLen {
        assert c.payload[1..1 + config.matchLen] == prefix <==>
          forall i | 0 <= i < config.matchLen :: c.payload[1 + i] == prefix[i];
      }
    }
  }

  /** The preferred codec when the sink advertises it, and SBC in every other case: none of
      the capabilities is that codec's, or it has no A2DP configuration at all. */
  lemma SelectedExactly(preferred: u32, cs: seq<Capability>, tail: seq<byte>)
    requires Truncated(tail)
    ensures var codec := SelectedCodec(preferred, Serialize(cs) + tail);
      if ConfigFor(preferred).Some? && exists c <- cs :: Matches(c, ConfigFor(preferred).value)
      then codec == preferred
      else codec == 0
    ensures SelectionSound(preferred, Serialize(cs) + tail)
  {
    WalkerAgreesWithList(cs, tail, preferred);
    SelectionIsSound(preferred, Serialize(cs) + tail);
  }

  ghost predicate SelectionSound(preferred: u32, caps: seq<byte>) {
    var codec := SelectedCodec(preferred, caps);
    codec == 0 || (codec == preferred && ContainsCodec(caps, codec))
  }

  lemma SelectionIsSound(preferred: u32, caps: seq<byte>)
    ensures SelectionSound(preferred, caps)
    ensures SelectedCodec(preferred, caps) == preferred <==> preferred == 0 || ContainsCodec(caps, preferred)
  {}

  // ---- SET_CONFIGURATION ---------------------------------------------------

  function EncodeSeid(seid: byte): byte {
    seid % 64 * 4
  }

  /** The capability list that configures one codec. */
  function ConfigurationList(config: CodecConfig): (cs: seq<Capability>)
  {
    [Capability(CATEGORY_MEDIA_TRANSPORT, []), Capability(CATEGORY_MEDIA_CODEC, [0] + config.info)]
  }

  function SetConfigurationPayload(codecId: u32, acpSeid: byte, intSeid: byte): (s: seq<byte>)
    requires Configurable(codecId)
  {
    [EncodeSeid(acpSeid), EncodeSeid(intSeid)] + Serialize(ConfigurationList(ConfigFor(codecId).value))
  }

  lemma PayloadLayout(codecId: u32, acpSeid: byte, intSeid: byte)
    requires Configurable(codecId)
    ensures var info := ConfigFor(codecId).value.info;
            SetConfigurationPayload(codecId, acpSeid, intSeid)
            == [EncodeSeid(acpSeid), EncodeSeid(intSeid), 0x01, 0x00, 0x07, 1 + |info|, 0x00] + info
            && |SetConfigurationPayload(codecId, acpSeid, intSeid)| <= SET_CONFIGURATION_MAX_LEN
  {
    var cs := ConfigurationList(ConfigFor(codecId).value);
    assert cs[1..][1..] == [];
    assert Serialize(cs[1..]) == SerializeOne(cs[1]);
    assert Serialize(cs) == SerializeOne(cs[0]) + SerializeOne(cs[1]);
  }

  /** The command payload for each codec, octet by octet. */
  lemma PayloadOctets(codecId: u32, acpSeid: byte, intSeid: byte)
    requires codecId in {0, 1, 2, 3, 4}
    ensures Configurable(codecId)
    ensures SetConfigurationPayload(codecId, acpSeid, intSeid) == [acpSeid % 64 * 4, intSeid % 64 * 4] +
      match codecId
      case 0 => [1, 0, 7, 6, 0, 0x00, 0x21, 0x15, 0x02, 0x35]
      case 1 => [1, 0, 7, 10, 0, 0xFF, 0x2D, 0x01, 0x00, 0x00, 0xAA, 0x00, 0x20, 0x01]
      case 2 => [1, 0, 7, 9, 0, 0xFF, 0x4F, 0x00, 0x00, 0x00, 0x01, 0x00, 0x22]
      case 3 => [1, 0, 7, 13, 0, 0xFF, 0xD7, 0x00, 0x00, 0x00, 0x24, 0x00, 0x22, 0x00, 0x00, 0x00, 0x00]
      case _ => [1, 0, 7, 8, 0, 0x02, 0x80, 0x01, 0x04, 0x03, 0xE8, 0x00]
  {
    PayloadLayout(codecId, acpSeid, intSeid);
  }

  /** Writes the payload at the front of buf and returns its length; 0, leaving buf
      alone, when the codec has no A2DP configuration or buf is too small. */
  method BuildSetConfiguration(codecId: u32, acpSeid: byte, intSeid: byte, buf: array<byte>) returns (n: nat)
    modifies buf
    ensures Configurable(codecId) && buf.Length >= |SetConfigurationPayload(codecId, acpSeid, intSeid)|
            ==> n == |SetConfigurationPayload(codecId, acpSeid, intSeid)|
                && buf[..n] == SetConfigurationPayload(codecId, acpSeid, intSeid)
                && buf[n..] == old(buf[n..])
    ensures !Configurable(codecId) || buf.Length < |SetConfigurationPayload(codecId, acpSeid, intSeid)|
            ==> n == 0 && buf[..] == old(buf[..])
  {
    var found := FindCodecConfig(codecId);
    if found.None? {
      return 0;
    }
    var config := found.value;
    PayloadLayout(codecId, acpSeid, intSeid);
    var losc := 1 + |config.info|;
    var total := 2 + 2 + 2 + losc;
    if buf.Length < total {
      return 0;
    }
    buf[0] := EncodeSeid(acpSeid);
    buf[1] := EncodeSeid(intSeid);
    buf[2] := CATEGORY_MEDIA_TRANSPORT;
    buf[3] := 0x00;
    buf[4] := CATEGORY_MEDIA_CODEC;
    buf[5] := losc;
    buf[6] := 0x00;
    CopyBytes(buf, 7, config.info);
    n := total;
  }

  /** Reads a SET_CONFIGURATION payload: the codec whose full configuration octets the
      first capability of the Media Codec category carries. */
  function DecodeConfiguration(payload: seq<byte>): Option<u32> {
    if |payload| < 2 then None else CodecOfList(Parse(payload[2..]))
  }

  function CodecOfList(cs: seq<Capability>): Option<u32> {
    if cs == [] then None
    else if cs[0].category == CATEGORY_MEDIA_CODEC && |cs[0].payload| > 0 then CodecOfInfo(cs[0].payload[1..])
    else CodecOfList(cs[1..])
  }

  function CodecOfInfo(info: seq<byte>): Option<u32> {
    if info == CODEC_CONFIGS[0].info then Some(CODEC_SBC)
    else if info == CODEC_CONFIGS[1].info then Some(CODEC_AAC)
    else if info == CODEC_CONFIGS[2].info then Some(CODEC_APTX)
    else if info == CODEC_CONFIGS[3].info then Some(CODEC_APTX_HD)
    else if info == CODEC_CONFIGS[4].info then Some(CODEC_LDAC)
    else None
  }

  /** The builder agrees with the walker and with the decoder: the capability list it
      writes advertises its own codec and no other, and decodes to it. */
  lemma BuilderAgreesWithWalker(codecId: u32, acpSeid: byte, intSeid: byte, other: u32)
    requires Configurable(codecId)
    ensures var payload := SetConfigurationPayload(codecId, acpSeid, intSeid);
      && payload[0] / 4 == acpSeid % 64 && payload[1] / 4 == intSeid % 64
      && (ContainsCodec(payload[2..], other) <==> other == codecId)
      && DecodeConfiguration(payload) == Some(codecId)
      && Rest(payload[2..]) == []
  {
    var config := ConfigFor(codecId).value;
    var cs := ConfigurationList(config);
    var payload := SetConfigurationPayload(codecId, acpSeid, intSeid);
    assert payload[2..] == Serialize(cs) + [];
    WalkerAgreesWithList(cs, [], other);
    ParseSerialize(cs, []);
    assert cs[1].payload[1..] == config.info;
    assert CodecOfList(cs) == CodecOfList(cs[1..]) == CodecOfInfo(config.info);
    assert CodecOfInfo(config.info) == Some(codecId) by { TableIsInjective(config); }
    if ConfigFor(other).Some? {
      OnlyItselfMatches(config, ConfigFor(other).value);
      assert Matches(cs[1], ConfigFor(other).value) <==> other == codecId;
      assert !Matches(cs[0], ConfigFor(other).value);
      assert cs[1] in cs;
    }
  }

  lemma BuiltDecodes(codecId: u32, acpSeid: byte, intSeid: byte)
    requires Configurable(codecId)
    ensures var payload := SetConfigurationPayload(codecId, acpSeid, intSeid);
      payload != [] && payload[0] == EncodeSeid(acpSeid) && DecodeConfiguration(payload) == Some(codecId)
  {
    BuilderAgreesWithWalker(codecId, acpSeid, intSeid, codecId);
  }

  lemma TableIsInjective(config: CodecConfig)
    requires config in CODEC_CONFIGS
    ensures CodecOfInfo(config.info) == Some(config.codecId)
  {
    assert CODEC_CONFIGS[0].info[0] == 0x00;
    assert CODEC_CONFIGS[1].info[0] == 0x02;
    assert CODEC_CONFIGS[2].info[1] == 0x4F;
    assert CODEC_CONFIGS[3].info[1] == 0xD7;
    assert CODEC_CONFIGS[4].info[1] == 0x2D;
  }

  lemma OnlyItselfMatches(config: CodecConfig, other: CodecConfig)
    requires config in CODEC_CONFIGS && other in CODEC_CONFIGS
    ensures Matches(Capability(CATEGORY_MEDIA_CODEC, [0] + config.info), other) <==> other == config
  {
    var c := Capability(CATEGORY_MEDIA_CODEC, [0] + config.info);
    assert c.payload[1] == config.info[0];
    assert c.payload[1..] == config.info;
    if Matches(c, other) {
      assert c.payload[1..1 + other.matchLen] == config.info[..other.matchLen];
      assert other.info[..other.matchLen][0] == other.info[0] == config.info[0];
      if other.matchLen == 7 {
        assert other.info[..7][1] == other.info[1] == config.info[1];
      }
    }
  }
}
