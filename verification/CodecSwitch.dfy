/** A codec switch end to end: the request A2dpStream::set_codec_config sends
    (service/src/a2dp_stream.cpp), its dispatch (driver/src/ioctl.c) and the
    renegotiation it starts (driver/src/avdtp.c). */
module CodecSwitch {
  import opened ByteTypes
  import opened A2dpDriver
  import opened TextFields
  import P = AvdtpPackets

  const PARAM_KEY_SIZE := 16

  /** OWB_CODEC_CONFIG, packed: codec id, key field, value. */
  function CodecConfigBuffer(codecId: u32, key: seq<byte>, value: i64): (buf: seq<byte>)
    ensures |buf| == CODEC_CONFIG_SIZE
  {
    LittleEndian32(codecId) + NameField(key, PARAM_KEY_SIZE) + LittleEndian64(Wrap64(value))
  }

  /** The request in octets: id lowest octet first, at most fifteen octets of the key and zeros
      behind it, the value lowest octet first. */
  lemma ConfigOctets(codecId: u32, key: seq<byte>, value: i64, i: nat)
    requires i < 16
    ensures var buf := CodecConfigBuffer(codecId, key, value);
      && |buf| == 28
      && buf[..4] == [codecId as int % 0x100, codecId as int / 0x100 % 0x100, codecId as int / 0x1_0000 % 0x100,
                      codecId as int / 0x100_0000]
      && buf[4 + i] == (if i < 15 && i < |key| then key[i] else 0)
      && buf[20..] == LittleEndian64(Wrap64(value))
  {
    LittleEndianOctets(codecId, 0);
  }

  /** set_codec_config: refuses a closed device; otherwise fills a zeroed structure field by
      field, the key last. */
  method BuildCodecConfig(isOpen: bool, codecId: u32, key: seq<byte>, value: i64) returns (request: Option<seq<byte>>)
    ensures request == if isOpen then Some(CodecConfigBuffer(codecId, key, value)) else None
  {
    if !isOpen {
      return None;
    }
    var keyLen := if |key| < PARAM_KEY_SIZE then |key| else PARAM_KEY_SIZE - 1;
    var buf := FillCodecConfig(LittleEndian32(codecId), LittleEndian64(Wrap64(value)), key[..keyLen]);
    assert NameField(key, PARAM_KEY_SIZE) == key[..keyLen] + Zeros(16 - keyLen);
    request := Some(buf);
  }

  method FillCodecConfig(id: seq<byte>, value: seq<byte>, key: seq<byte>) returns (request: seq<byte>)
    requires |id| == 4 && |value| == 8 && |key| < PARAM_KEY_SIZE
    ensures request == id + (key + Zeros(16 - |key|)) + value
  {
    var cfg := new byte[CODEC_CONFIG_SIZE](_ => 0);
    CopyBytes(cfg, 0, id);
    CopyBytes(cfg, 20, value);
    assert forall j | 4 <= j < 20 :: cfg[j] == 0;
    assert forall j | 0 <= j < 4 :: cfg[j] == id[j];
    assert forall j | 0 <= j < 8 :: cfg[20 + j] == value[j];
    CopyBytes(cfg, 4, key);
    request := cfg[..];
    assert forall j | 0 <= j < |key| :: request[4 + j] == key[j];
    assert forall j | 0 <= j < 8 :: request[20 + j] == value[j];
    ghost var tail := request[20..];
    forall j | 0 <= j < 8
      ensures tail[j] == value[j]
    {
      assert request[20 + j] == value[j];
    }
    assert request[..4] == id && request[4..4 + |key|] == key && tail == value;
    assert request[4 + |key|..20] == Zeros(16 - |key|);
  }

  /** The driver recovers the codec id, and takes the request for a switch exactly when the
      key begins with "sw"; any other key leaves the driver as it was. */
  lemma RequestDispatch(d: Driver, codecId: u32, key: seq<byte>, value: i64,
                        suspend: SendOutcome, discover: SendOutcome)
    ensures var buf := CodecConfigBuffer(codecId, key, value);
      && (SwitchRequested(buf) <==> |key| >= 2 && key[0] == 's' as int && key[1] == 'w' as int)
      && SetCodecConfig(d, buf, suspend, discover)
         == if SwitchRequested(buf) then SetPreferredCodec(d, codecId, suspend, discover) else (d, true)
  {
    hide SetPreferredCodec;
    var buf := CodecConfigBuffer(codecId, key, value);
    assert buf[..4] == LittleEndian32(codecId);
    var field := NameField(key, PARAM_KEY_SIZE);
    assert buf[4..20] == field;
    assert buf[4] == buf[4..20][0] && buf[5] == buf[4..20][1];
  }

  // ---- One negotiation with a cooperating peer -------------------------------------------

  function AcceptPacket(signal: byte, payload: seq<byte>): seq<byte>
    requires signal < 64
  {
    [MESSAGE_ACCEPT, signal] + payload
  }

  /** The stack announces a packet and the work item reads it whole. */
  function Delivery(packet: seq<byte>, media: Handle): seq<Event>
    requires |packet| <= WORK_BUFFER
  {
    [PacketIndication(|packet|), SignalingWork(Received(packet), Opened(media), Submitted)]
  }

  /** The commands of one round, in order, and the payload of the peer's answer to each. */
  function RoundSignal(k: nat): byte
    requires k < 5
  {
    [SIGNAL_DISCOVER, SIGNAL_GET_CAPABILITIES, SIGNAL_SET_CONFIGURATION, SIGNAL_OPEN, SIGNAL_START][k]
  }

  function Answer(k: nat, seps: seq<byte>, caps: seq<byte>): (packet: seq<byte>)
    requires k < 5 && |seps| <= WORK_BUFFER - 2 && |caps| <= WORK_BUFFER - 2
    ensures 2 <= |packet| <= WORK_BUFFER && packet[0] == MESSAGE_ACCEPT && Signal(packet) == RoundSignal(k)
    ensures packet[2..] == if k == 0 then seps else if k == 1 then caps else []
  {
    AcceptPacket(RoundSignal(k), if k == 0 then seps else if k == 1 then caps else [])
  }

  /** The peer's answers to the commands of a round from the k-th on, each accepted. */
  function Round(k: nat, seps: seq<byte>, caps: seq<byte>, media: Handle): seq<Event>
    requires k <= 5 && |seps| <= WORK_BUFFER - 2 && |caps| <= WORK_BUFFER - 2
    decreases 5 - k
  {
    if k == 5 then [] else Delivery(Answer(k, seps, caps), media) + Round(k + 1, seps, caps, media)
  }

  predicate Connected(d: Driver) {
    d.hasInterface && d.remoteAddress != 0 && d.signalingHandle != 0
  }

  lemma DeliveryHandled(d: Driver, packet: seq<byte>, media: Handle, rest: seq<Event>)
    requires Connected(d) && 2 <= |packet| <= WORK_BUFFER
    ensures var d' := HandlePacket(d.(avdtpQueued := false, pendingRecvLen := 0), packet, Opened(media), Submitted);
      && Run(d, Delivery(packet, media) + rest) == Run(d', rest)
      && (EnabledRun(d, Delivery(packet, media) + rest) <==> EnabledRun(d', rest))
  {
    hide HandlePacket;
    var es := Delivery(packet, media) + rest;
    var d1 := Step(d, es[0]);
    assert es[1..][1..] == rest;
    assert Run(d, es) == Run(d1, es[1..]) == Run(Step(d1, es[1]), rest);
  }

  /** A command on a connected driver goes out. */
  lemma CommandGoesOut(d: Driver, signal: byte, payload: seq<byte>)
    requires Connected(d) && |payload| <= 0xFFFD && signal < 64
    ensures var (d', ok) := SendCommand(d, signal, payload, Submitted);
      && ok && d' == d.(transactionId := d'.transactionId, wire := d'.wire)
      && Sends(d.wire, d'.wire, signal)
  {}

  /** One more packet on the wire, a command with this signal. */
  predicate Sends(wire: seq<seq<byte>>, wire': seq<seq<byte>>, signal: byte) {
    && |wire'| == |wire| + 1 && wire'[..|wire|] == wire
    && |wire'[|wire|]| >= 2 && Signal(wire'[|wire|]) == signal
  }

  /** What one accepted answer does, whatever state the driver is in. */
  lemma AnswerHandled(d: Driver, k: nat, seps: seq<byte>, caps: seq<byte>, media: Handle)
    requires Connected(d) && k < 5 && |seps| <= WORK_BUFFER - 2 && |caps| <= WORK_BUFFER - 2
    ensures var d' := HandlePacket(d, Answer(k, seps, caps), Opened(media), Submitted);
      var seid := P.FreeSinkSeid(seps);
      && Connected(d') && d'.signalingHandle == d.signalingHandle && d'.preferredCodecId == d.preferredCodecId
      && d'.remoteSeid == (if k == 0 && seid != P.SEID_NONE then seid else d.remoteSeid)
      && d'.pendingCodecId == (if k == 1 then P.SelectedCodec(d.preferredCodecId, caps) else d.pendingCodecId)
      && d'.activeCodecId == (if k == 2 then d.pendingCodecId else d.activeCodecId)
      && d'.mediaHandle == (if k == 3 then media else d.mediaHandle)
      && (k == 4 ==> d'.state == Streaming)
      && (k < 4 && (k == 0 ==> seid != P.SEID_NONE) ==> Sends(d.wire, d'.wire, RoundSignal(k + 1)))
  {
    hide SendCommand, Sends, P.SelectedCodec, P.SetConfigurationPayload, P.FreeSinkSeid, P.EncodeSeid;
    if k == 0 {
      var seid := P.FreeSinkSeid(seps);
      CommandGoesOut(d.(remoteSeid := seid, state := Configuring), SIGNAL_GET_CAPABILITIES, [P.EncodeSeid(seid)]);
    } else if k == 1 {
      var codec := P.SelectedCodec(d.preferredCodecId, caps);
      var payload := P.SetConfigurationPayload(codec, d.remoteSeid, d.localSeid);
      P.PayloadLayout(codec, d.remoteSeid, d.localSeid);
      CommandGoesOut(d, SIGNAL_SET_CONFIGURATION, payload);
    } else if k == 2 {
      CommandGoesOut(d.(activeCodecId := d.pendingCodecId), SIGNAL_OPEN, [P.EncodeSeid(d.remoteSeid)]);
    } else if k == 3 {
      CommandGoesOut(d.(mediaHandle := media), SIGNAL_START, [P.EncodeSeid(d.remoteSeid)]);
    }
  }

  /** The codec an accepted round ends with, from the k-th answer on: chosen when the
      capabilities arrive, pending until the configuration is accepted, active from then. */
  ghost function Outcome(d: Driver, k: nat, caps: seq<byte>): u32 {
    if k <= 1 then P.SelectedCodec(d.preferredCodecId, caps)
    else if k == 2 then d.pendingCodecId
    else d.activeCodecId
  }

  /** From any connected driver, whatever its state and wherever the round begins, accepted
      answers end in Streaming. A DISCOVER response without a usable sink leaves the endpoint
      as it was, and the driver takes answers to commands it never sent. */
  lemma {:induction false} RoundStreams(d: Driver, k: nat, seps: seq<byte>, caps: seq<byte>, media: Handle)
    requires Connected(d) && k < 5 && |seps| <= WORK_BUFFER - 2 && |caps| <= WORK_BUFFER - 2
    ensures EnabledRun(d, Round(k, seps, caps, media))
    ensures var d' := Run(d, Round(k, seps, caps, media));
      && Connected(d') && d'.state == Streaming && d'.signalingHandle == d.signalingHandle
      && d'.preferredCodecId == d.preferredCodecId
      && d'.activeCodecId == Outcome(d, k, caps)
      && d'.mediaHandle == (if k <= 3 then media else d.mediaHandle)
      && d'.remoteSeid == (if k == 0 && P.FreeSinkSeid(seps) != P.SEID_NONE then P.FreeSinkSeid(seps) else d.remoteSeid)
    decreases 5 - k
  {
    hide HandlePacket, Answer, P.SelectedCodec, P.FreeSinkSeid, Run, EnabledRun;
    var packet := Answer(k, seps, caps);
    var taken := d.(avdtpQueued := false, pendingRecvLen := 0);
    var d1 := HandlePacket(taken, packet, Opened(media), Submitted);
    AnswerHandled(taken, k, seps, caps, media);
    DeliveryHandled(d, packet, media, Round(k + 1, seps, caps, media));
    if k < 4 {
      RoundStreams(d1, k + 1, seps, caps, media);
    } else {
      EmptyRun(d1);
    }
  }

  lemma EmptyRun(d: Driver)
    ensures Run(d, []) == d && EnabledRun(d, [])
  {}

  /** The answer the service gets: a switch is refused exactly when it interrupts a stream and
      SUSPEND or DISCOVER cannot be sent. Either way the driver's preference has changed. */
  lemma SwitchAnswered(d: Driver, codecId: u32, key: seq<byte>, value: i64, suspend: SendOutcome, discover: SendOutcome)
    requires Connected(d) && |key| >= 2 && key[0] == 's' as int && key[1] == 'w' as int
    ensures var (d', ok) := SetCodecConfig(d, CodecConfigBuffer(codecId, key, value), suspend, discover);
      && (ok <==> d.state != Streaming || (suspend == Submitted && discover == Submitted))
      && Connected(d') && d'.preferredCodecId == codecId
      && d'.activeCodecId == d.activeCodecId && d'.pendingCodecId == d.pendingCodecId
      && d'.mediaHandle == d.mediaHandle && d'.remoteSeid == d.remoteSeid
      && d'.signalingHandle == d.signalingHandle
  {
    hide CodecConfigBuffer, SwitchRequested, P.EncodeSeid;
    RequestDispatch(d, codecId, key, value, suspend, discover);
  }

  /** A switch in any state and with any send outcome, followed by accepted answers from any
      point of a round: the codec that streams is the requested one exactly when
      - the capabilities were still to come and it is SBC or advertised,
      - the configuration was still unanswered and it is the pending one, or
      - it is the active one already. */
  lemma SwitchTakesEffect(d: Driver, codecId: u32, key: seq<byte>, value: i64, suspend: SendOutcome,
                          discover: SendOutcome, k: nat, seps: seq<byte>, caps: seq<byte>, media: Handle)
    requires Connected(d) && k < 5
    requires |key| >= 2 && key[0] == 's' as int && key[1] == 'w' as int
    requires |seps| <= WORK_BUFFER - 2 && |caps| <= WORK_BUFFER - 2
    ensures var request := CodecConfigRequest(CodecConfigBuffer(codecId, key, value), suspend, discover);
      var d' := Run(d, [request] + Round(k, seps, caps, media));
      && Connected(d') && d'.state == Streaming && d'.preferredCodecId == codecId
      && d'.activeCodecId == Outcome(d.(preferredCodecId := codecId), k, caps)
      && (d'.activeCodecId == codecId <==>
            if k <= 1 then codecId == CODEC_SBC || P.ContainsCodec(caps, codecId)
            else codecId == if k == 2 then d.pendingCodecId else d.activeCodecId)
  {
    hide SetCodecConfig, P.ContainsCodec, CodecConfigBuffer, Round;
    var request := CodecConfigRequest(CodecConfigBuffer(codecId, key, value), suspend, discover);
    SwitchAnswered(d, codecId, key, value, suspend, discover);
    var d1 := Step(d, request);
    RoundStreams(d1, k, seps, caps, media);
    var es := [request] + Round(k, seps, caps, media);
    assert es[1..] == Round(k, seps, caps, media);
    assert Run(d, es) == Run(d1, es[1..]);
  }

  // ---- A peer with several endpoints ---------------------------------------------------------

  datatype Sep = Sep(endpoint: P.Endpoint, caps: seq<byte>)

  /** Stream endpoints with distinct, permitted SEIDs. */
  predicate ValidPeer(peer: seq<Sep>) {
    && (forall p <- peer :: P.EndpointInRange(p.endpoint) && p.endpoint.seid != 0 && |p.caps| <= WORK_BUFFER - 2)
    && (forall i, j | 0 <= i < j < |peer| :: peer[i].endpoint.seid != peer[j].endpoint.seid)
    && 2 * |peer| <= WORK_BUFFER - 2
  }

  function EndpointsOf(peer: seq<Sep>): (es: seq<P.Endpoint>)
    ensures |es| == |peer| && forall i | 0 <= i < |peer| :: es[i] == peer[i].endpoint
  {
    seq(|peer|, i requires 0 <= i < |peer| => peer[i].endpoint)
  }

  lemma {:induction false} SerializedLength(es: seq<P.Endpoint>)
    requires forall e <- es :: P.EndpointInRange(e)
    ensures |P.SerializeEndpoints(es)| == 2 * |es|
  {
    if es != [] {
      SerializedLength(es[1..]);
    }
  }

  /** Its answer to DISCOVER. */
  function DiscoverAnswer(peer: seq<Sep>): (seps: seq<byte>)
    requires ValidPeer(peer)
    ensures |seps| <= WORK_BUFFER - 2
  {
    SerializedLength(EndpointsOf(peer));
    P.SerializeEndpoints(EndpointsOf(peer))
  }

  /** Its answer to GET_CAPABILITIES for one endpoint. */
  function CapsOf(peer: seq<Sep>, seid: byte): (caps: seq<byte>)
    requires forall p <- peer :: |p.caps| <= WORK_BUFFER - 2
    ensures |caps| <= WORK_BUFFER - 2
  {
    if peer == [] then [] else if peer[0].endpoint.seid == seid then peer[0].caps else CapsOf(peer[1..], seid)
  }

  lemma {:induction false} CapsOfAt(peer: seq<Sep>, i: nat)
    requires i < |peer| && forall p <- peer :: |p.caps| <= WORK_BUFFER - 2
    requires forall i, j | 0 <= i < j < |peer| :: peer[i].endpoint.seid != peer[j].endpoint.seid
    requires 0 <= peer[i].endpoint.seid < 0x100
    ensures CapsOf(peer, peer[i].endpoint.seid) == peer[i].caps
  {
    if i > 0 {
      assert forall p <- peer[1..] :: p in peer;
      CapsOfAt(peer[1..], i - 1);
    }
  }

  ghost predicate FirstFreeSep(peer: seq<Sep>, i: nat) {
    P.FirstFreeAt(EndpointsOf(peer), i)
  }

  /** The driver asks the first free audio sink and no other. So the round ends with the
      preferred codec exactly when it is SBC or that sink advertises it, whatever the peer's
      other endpoints offer. */
  lemma FirstSinkDecides(d: Driver, peer: seq<Sep>, i: nat, media: Handle)
    requires Connected(d) && ValidPeer(peer) && FirstFreeSep(peer, i)
    ensures var seps := DiscoverAnswer(peer);
      var seid := P.FreeSinkSeid(seps);
      var d' := Run(d, Round(0, seps, CapsOf(peer, seid), media));
      && seid == peer[i].endpoint.seid == d'.remoteSeid && d'.state == Streaming
      && (d'.activeCodecId == d.preferredCodecId <==>
            d.preferredCodecId == CODEC_SBC || P.ContainsCodec(peer[i].caps, d.preferredCodecId))
  {
    hide Round, P.ContainsCodec, Run;
    var es := EndpointsOf(peer);
    var seps := DiscoverAnswer(peer);
    assert forall e <- es :: P.EndpointInRange(e);
    P.EndpointsRoundTrip(es, []);
    assert P.SerializeEndpoints(es) + [] == seps;
    P.FirstFreeSinkIsFirst(es);
    assert peer[i] in peer;
    CapsOfAt(peer, i);
    RoundStreams(d, 0, seps, peer[i].caps, media);
  }

  /** A GET_CAPABILITIES answer that advertises LDAC. */
  const LDAC_CAPS: seq<byte> := [0x07, 0x0A, 0x00, 0xFF, 0x2D, 0x01, 0x00, 0x00, 0xAA, 0x00, 0x20, 0x01]

  lemma LdacAdvertised()
    ensures P.ContainsCodec(LDAC_CAPS, CODEC_LDAC) && !P.ContainsCodec([], CODEC_LDAC)
  {
    var config := P.ConfigFor(CODEC_LDAC).value;
    var c: P.Capability := P.Capability(0x07, LDAC_CAPS[2..]);
    P.ParseOne(c, []);
    assert P.SerializeOne(c) + [] == LDAC_CAPS;
    assert c.payload[1..1 + config.matchLen] == config.info[..config.matchLen];
    assert P.Matches(c, config) && c in P.Parse(LDAC_CAPS);
  }

  function FreeSink(seid: int): P.Endpoint {
    P.Endpoint(seid, false, 0, 0, true, 0)
  }

  /** A peer with two free sinks, of which only the second advertises LDAC: a driver that
      prefers LDAC ends the round with SBC. */
  lemma SecondSinkIgnored(d: Driver, media: Handle)
    requires Connected(d) && d.preferredCodecId == CODEC_LDAC
    ensures var peer := [Sep(FreeSink(1), []), Sep(FreeSink(2), LDAC_CAPS)];
      && ValidPeer(peer) && P.ContainsCodec(LDAC_CAPS, CODEC_LDAC)
      && var seps := DiscoverAnswer(peer);
      Run(d, Round(0, seps, CapsOf(peer, P.FreeSinkSeid(seps)), media)).activeCodecId == CODEC_SBC
  {
    hide P.ContainsCodec, Round, Run, DiscoverAnswer, CapsOf;
    var peer := [Sep(FreeSink(1), []), Sep(FreeSink(2), LDAC_CAPS)];
    LdacAdvertised();
    assert EndpointsOf(peer)[0] == peer[0].endpoint;
    FirstSinkDecides(d, peer, 0, media);
    var seps := DiscoverAnswer(peer);
    CapsOfAt(peer, 0);
    RoundStreams(d, 0, seps, [], media);
  }
}
