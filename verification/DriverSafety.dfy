/** What every run of the driver keeps against an arbitrary peer: any packet, any timer,
    work item and disconnect order, any preferred codec, any request buffer. */
module DriverSafety {
  import opened ByteTypes
  import opened A2dpDriver
  import P = AvdtpPackets
  import M = MediaFraming

  // ---- RTP bookkeeping --------------------------------------------------------

  /** How many of these packets carry an RTP header. */
  function Stamps(media: seq<MediaRecord>): nat {
    if media == [] then 0
    else Stamps(media[..|media| - 1]) + if media[|media| - 1].codecId in {2, 3, 6} then 0 else 1
  }

  /** The PCM time they stand for. */
  function Ticks(media: seq<MediaRecord>): nat {
    if media == [] then 0 else Ticks(media[..|media| - 1]) + M.SamplesPerFrame(media[|media| - 1].codecId)
  }

  ghost predicate Numbered(media: seq<MediaRecord>, i: nat)
    requires i < |media|
  {
    media[i].packet == M.MediaPacket(media[i].codecId, Stamps(media[..i]) % 0x1_0000,
                                     Ticks(media[..i]) % 0x1_0000_0000, media[i].frame)
  }

  // ---- The invariant ------------------------------------------------------------

  predicate CleanWhenClosed(d: Driver) {
    d.signalingHandle == 0 ==>
      && d.state == Idle
      && d.mediaHandle == 0
      && d.rtpSeqNum == 0 && d.rtpTimestamp == 0
      && d.wire == [] && d.media == []
  }

  ghost predicate RtpCounted(d: Driver) {
    && d.rtpSeqNum == Stamps(d.media) % 0x1_0000
    && d.rtpTimestamp == Ticks(d.media) % 0x1_0000_0000
    && (forall i | 0 <= i < |d.media| :: Numbered(d.media, i))
  }

  predicate CodecsInTable(d: Driver) {
    && P.Configurable(d.activeCodecId) && P.Configurable(d.pendingCodecId)
    && d.remoteSeid < 64 && d.localSeid == 1
  }

  ghost predicate Safe(d: Driver) {
    CleanWhenClosed(d) && CodecsInTable(d) && RtpCounted(d)
  }

  lemma InitiallySafe(hasInterface: bool, remoteAddress: u64, open: OpenOutcome, o: SendOutcome)
    ensures Safe(DeviceAdded(hasInterface, remoteAddress, open, o))
  {}

  lemma RecordNumbered(media: seq<MediaRecord>, m: MediaRecord)
    requires forall i | 0 <= i < |media| :: Numbered(media, i)
    requires m.packet == M.MediaPacket(m.codecId, Stamps(media) % 0x1_0000, Ticks(media) % 0x1_0000_0000, m.frame)
    ensures forall i | 0 <= i < |media + [m]| :: Numbered(media + [m], i)
    ensures Stamps(media + [m]) == Stamps(media) + if m.codecId in {2, 3, 6} then 0 else 1
    ensures Ticks(media + [m]) == Ticks(media) + M.SamplesPerFrame(m.codecId)
  {
    var media' := media + [m];
    assert media'[..|media|] == media;
    forall i | 0 <= i < |media'|
      ensures Numbered(media', i)
    {
      if i < |media| {
        assert Numbered(media, i);
        assert media'[..i] == media[..i];
      }
    }
  }

  lemma AddModulo(total: nat, more: nat)
    ensures (total % 0x1_0000 + more) % 0x1_0000 == (total + more) % 0x1_0000
    ensures (total % 0x1_0000_0000 + more) % 0x1_0000_0000 == (total + more) % 0x1_0000_0000
  {}

  lemma MediaStepCounted(d: Driver, codecId: u32, frame: seq<byte>, o: SendOutcome)
    requires RtpCounted(d)
    ensures RtpCounted(SendMedia(d, codecId, frame, o).0)
  {
    hide Numbered, M.MediaPacket, Stamps, Ticks;
    var f := M.FramingOf(codecId);
    var m := MediaRecord(codecId, frame, M.MediaPacket(codecId, d.rtpSeqNum, d.rtpTimestamp, frame), o == Submitted);
    RecordNumbered(d.media, m);
    M.PacketOctets(codecId, 0, 0, []);
    AddModulo(Stamps(d.media), 1);
    AddModulo(Ticks(d.media), f.tsIncr);
  }

  lemma MediaStepElse(d: Driver, codecId: u32, frame: seq<byte>, o: SendOutcome)
    ensures var d' := SendMedia(d, codecId, frame, o).0;
      && d' == d.(rtpSeqNum := d'.rtpSeqNum, rtpTimestamp := d'.rtpTimestamp, media := d'.media)
      && (d' != d ==> d.state == Streaming)
  {}

  /** What signalling leaves alone: the RTP counters and whether the channel is open. */
  predicate SameRtp(d: Driver, d': Driver) {
    d'.rtpSeqNum == d.rtpSeqNum && d'.rtpTimestamp == d.rtpTimestamp && d'.media == d.media
  }

  predicate SignalingFrame(d: Driver, d': Driver) {
    SameRtp(d, d') && d'.signalingHandle == d.signalingHandle
  }

  lemma DiscoverFrame(d: Driver, data: seq<byte>, o: SendOutcome)
    requires CodecsInTable(d)
    ensures SignalingFrame(d, OnDiscover(d, data, o)) && CodecsInTable(OnDiscover(d, data, o))
  {}

  lemma GetCapabilitiesFrame(d: Driver, data: seq<byte>, o: SendOutcome)
    requires CodecsInTable(d)
    ensures SignalingFrame(d, OnGetCapabilities(d, data, o)) && CodecsInTable(OnGetCapabilities(d, data, o))
  {}

  lemma SetConfigurationFrame(d: Driver, o: SendOutcome)
    requires CodecsInTable(d)
    ensures SignalingFrame(d, OnSetConfiguration(d, o)) && CodecsInTable(OnSetConfiguration(d, o))
  {}

  lemma OpenFrame(d: Driver, open: OpenOutcome, o: SendOutcome)
    requires CodecsInTable(d)
    ensures SignalingFrame(d, OnOpen(d, open, o)) && CodecsInTable(OnOpen(d, open, o))
  {}

  lemma PacketFrame(d: Driver, data: seq<byte>, open: OpenOutcome, o: SendOutcome)
    requires CodecsInTable(d)
    ensures SignalingFrame(d, HandlePacket(d, data, open, o)) && CodecsInTable(HandlePacket(d, data, open, o))
  {
    hide OnDiscover, OnGetCapabilities, OnSetConfiguration, OnOpen;
    if |data| >= 2 {
      DiscoverFrame(d, data[2..], o);
      GetCapabilitiesFrame(d, data[2..], o);
      SetConfigurationFrame(d, o);
      OpenFrame(d, open, o);
    }
  }

  lemma PreferenceFrame(d: Driver, codecId: u32, suspend: SendOutcome, discover: SendOutcome)
    requires CodecsInTable(d)
    ensures var d' := SetPreferredCodec(d, codecId, suspend, discover).0;
      && SignalingFrame(d, d') && CodecsInTable(d')
      && (d.state != Streaming ==> d' == d.(preferredCodecId := codecId))
  {
    hide P.EncodeSeid, P.Configurable;
  }

  lemma OpenSignalingFrame(d: Driver, open: OpenOutcome, o: SendOutcome)
    requires CodecsInTable(d)
    ensures var d' := OpenSignaling(d, open, o);
      && SignalingFrame(d.(signalingHandle := d'.signalingHandle), d') && CodecsInTable(d')
      && d'.mediaHandle == d.mediaHandle
      && (d' == d || (d'.signalingHandle != 0 && |d'.wire| <= 1))
  {}

  lemma FrameKeepsCounted(d: Driver, d': Driver)
    requires RtpCounted(d) && SameRtp(d, d')
    ensures RtpCounted(d')
  {
    hide Numbered;
  }

  lemma StepKeepsSafe(d: Driver, e: Event)
    requires Safe(d) && Enabled(d, e)
    ensures Safe(Step(d, e))
  {
    hide RtpCounted, HandlePacket, SetPreferredCodec, OpenSignaling, SendMedia;
    var d' := Step(d, e);
    match e
    case AudioFrameRequest(buf, o) =>
      var input := M.ValidatedFrame(buf);
      if input.Some? {
        MediaStepCounted(d, input.value.0, input.value.1, o);
        MediaStepElse(d, input.value.0, input.value.1, o);
      }
    case SignalingWork(read, open, o) =>
      if Processes(d, read) {
        PacketFrame(d.(avdtpQueued := false, pendingRecvLen := 0), read.data, open, o);
      }
      FrameKeepsCounted(d, d');
    case CodecConfigRequest(buf, suspend, discover) =>
      if SwitchRequested(buf) {
        PreferenceFrame(d, FromLittleEndian32(buf[..4]), suspend, discover);
      }
      FrameKeepsCounted(d, d');
    case ReconnectWork(open, o) =>
      OpenSignalingFrame(d.(reconnectQueued := false), open, o);
      FrameKeepsCounted(d, d');
    case RemoteDisconnect =>
      EmptyLogCounted(d');
    case Timer =>
      FrameKeepsCounted(d, d');
    case PacketIndication(_) =>
      FrameKeepsCounted(d, d');
  }

  lemma EmptyLogCounted(d: Driver)
    requires d.media == [] && d.rtpSeqNum == 0 && d.rtpTimestamp == 0
    ensures RtpCounted(d)
  {}

  lemma {:induction false} RunKeepsSafe(d: Driver, es: seq<Event>)
    requires Safe(d) && EnabledRun(d, es)
    ensures Safe(Run(d, es))
    decreases |es|
  {
    if es != [] {
      StepKeepsSafe(d, es[0]);
      RunKeepsSafe(Step(d, es[0]), es[1..]);
    }
  }

  // ---- Main results ----------------------------------------------------------------

  /** Over every run: a closed signalling channel means an idle, clean driver, so every
      session starts from scratch; and codec negotiation stays inside the table. */
  lemma EveryRunSafe(hasInterface: bool, remoteAddress: u64, open: OpenOutcome, o: SendOutcome, es: seq<Event>)
    requires EnabledRun(DeviceAdded(hasInterface, remoteAddress, open, o), es)
    ensures var d := Run(DeviceAdded(hasInterface, remoteAddress, open, o), es);
      && CleanWhenClosed(d)
      && P.Configurable(d.activeCodecId) && P.Configurable(d.pendingCodecId)
  {
    InitiallySafe(hasInterface, remoteAddress, open, o);
    RunKeepsSafe(DeviceAdded(hasInterface, remoteAddress, open, o), es);
  }

  /** No step replaces a live signalling handle: it is opened from zero or closed to zero. */
  lemma HandleNeverOverwritten(d: Driver, e: Event)
    requires Safe(d) && Enabled(d, e)
    requires Step(d, e).signalingHandle != d.signalingHandle
    ensures d.signalingHandle == 0 || Step(d, e).signalingHandle == 0
    ensures d.signalingHandle == 0 ==>
      var d' := Step(d, e);
      e.ReconnectWork? && d'.mediaHandle == 0 && d'.rtpSeqNum == 0 && d'.rtpTimestamp == 0 && d'.media == []
      && |d'.wire| <= 1
  {
    hide RtpCounted, HandlePacket, SetPreferredCodec, OpenSignaling, SendMedia;
    match e
    case AudioFrameRequest(buf, o) =>
      var input := M.ValidatedFrame(buf);
      if input.Some? {
        MediaStepElse(d, input.value.0, input.value.1, o);
      }
    case SignalingWork(read, open, o) =>
      if Processes(d, read) {
        PacketFrame(d.(avdtpQueued := false, pendingRecvLen := 0), read.data, open, o);
      }
    case CodecConfigRequest(buf, suspend, discover) =>
      if SwitchRequested(buf) {
        PreferenceFrame(d, FromLittleEndian32(buf[..4]), suspend, discover);
      }
    case ReconnectWork(open, o) =>
      OpenSignalingFrame(d.(reconnectQueued := false), open, o);
    case _ =>
  }

  // ---- Reconnecting ------------------------------------------------------------------

  /** A signalling channel is only ever opened to a known device. */
  predicate Attached(d: Driver) {
    d.signalingHandle != 0 ==> d.hasInterface && d.remoteAddress != 0
  }

  predicate SameDevice(d: Driver, d': Driver) {
    d'.hasInterface == d.hasInterface && d'.remoteAddress == d.remoteAddress
  }

  lemma PacketSameDevice(d: Driver, data: seq<byte>, open: OpenOutcome, o: SendOutcome)
    ensures SameDevice(d, HandlePacket(d, data, open, o))
    ensures HandlePacket(d, data, open, o).signalingHandle == d.signalingHandle
  {
    hide P.SelectedCodec, P.SetConfigurationPayload, P.FreeSinkSeid, P.EncodeSeid;
  }

  lemma StepKeepsAttached(d: Driver, e: Event)
    requires Attached(d)
    ensures SameDevice(d, Step(d, e)) && Attached(Step(d, e))
  {
    hide HandlePacket, P.EncodeSeid, M.MediaPacket, M.ValidatedFrame;
    if e.SignalingWork? && Processes(d, e.read) {
      PacketSameDevice(d.(avdtpQueued := false, pendingRecvLen := 0), e.read.data, e.open, e.send);
    }
  }

  lemma {:induction false} RunKeepsAttached(d: Driver, es: seq<Event>)
    requires Attached(d)
    ensures SameDevice(d, Run(d, es)) && Attached(Run(d, es))
    decreases |es|
  {
    hide Step, Attached;
    if es != [] {
      StepKeepsAttached(d, es[0]);
      RunKeepsAttached(Step(d, es[0]), es[1..]);
    }
  }

  /** In every reachable state a reconnect is due exactly when a known device has no
      signalling channel (Idle adds nothing), and then timer and work item open it again
      and restart the negotiation. */
  lemma ReconnectDueExactly(hasInterface: bool, remoteAddress: u64, open: OpenOutcome, o: SendOutcome,
                            es: seq<Event>, handle: Handle)
    requires EnabledRun(DeviceAdded(hasInterface, remoteAddress, open, o), es)
    ensures var d := Run(DeviceAdded(hasInterface, remoteAddress, open, o), es);
      && (ShouldReconnect(d) <==> hasInterface && remoteAddress != 0 && d.signalingHandle == 0)
      && (ShouldReconnect(d) ==>
            && Enabled(Step(d, Timer), ReconnectWork(Opened(handle), Submitted))
            && var d' := Step(Step(d, Timer), ReconnectWork(Opened(handle), Submitted));
            && d'.signalingHandle == handle && d'.state == Discovering
            && |d'.wire| == 1 && |d'.wire[0]| == 2 && d'.wire[0][1] == 1)
  {
    var d0 := DeviceAdded(hasInterface, remoteAddress, open, o);
    EveryRunSafe(hasInterface, remoteAddress, open, o, es);
    RunKeepsAttached(d0, es);
  }

  // ---- What one packet may change ---------------------------------------------------------

  /** A message of type accept (2) that answers this signal. */
  predicate Accepts(data: seq<byte>, signal: byte) {
    |data| >= 2 && data[0] % 4 == 2 && data[1] % 64 == signal
  }

  predicate OneMore(wire: seq<seq<byte>>, wire': seq<seq<byte>>) {
    |wire'| == |wire| + 1 && wire'[..|wire|] == wire
  }

  lemma SendEffect(d: Driver, signal: byte, payload: seq<byte>, o: SendOutcome)
    ensures var (d', ok) := SendCommand(d, signal, payload, o);
      && d' == d.(transactionId := d'.transactionId, wire := d'.wire)
      && (if ok then OneMore(d.wire, d'.wire) else d'.wire == d.wire)
  {}

  /** The codec is chosen by the answer to GET_CAPABILITIES, takes effect with the one to
      SET_CONFIGURATION, and stays otherwise. A packet makes the driver send one command at
      most, START and everything it does not handle none. */
  lemma PacketEffect(d: Driver, data: seq<byte>, open: OpenOutcome, o: SendOutcome)
    ensures var d' := HandlePacket(d, data, open, o);
      && d'.preferredCodecId == d.preferredCodecId && SameQueue(d, d')
      && d'.activeCodecId == (if Accepts(data, 3) then d.pendingCodecId else d.activeCodecId)
      && (d'.wire == d.wire || OneMore(d.wire, d'.wire))
      && (d'.pendingCodecId == d.pendingCodecId || Accepts(data, 2))
      && (Accepts(data, 2) && d'.wire != d.wire ==>
            d'.pendingCodecId == P.SelectedCodec(d.preferredCodecId, data[2..]))
      && (d'.wire != d.wire ==>
            Accepts(data, 1) || Accepts(data, 2)
            || Accepts(data, 3) || Accepts(data, 6))
  {
    hide OneMore, OnDiscover, OnGetCapabilities, OnSetConfiguration, OnOpen, P.SelectedCodec;
    if |data| >= 2 {
      DiscoverEffect(d, data[2..], o);
      GetCapabilitiesEffect(d, data[2..], o);
      SetConfigurationEffect(d, o);
      OpenEffect(d, open, o);
    }
  }

  /** The codecs, and what the work item looks at. */
  predicate SameCodecs(d: Driver, d': Driver) {
    && d'.preferredCodecId == d.preferredCodecId
    && d'.activeCodecId == d.activeCodecId && d'.pendingCodecId == d.pendingCodecId
    && SameQueue(d, d')
  }

  predicate SameQueue(d: Driver, d': Driver) {
    d'.pendingRecvLen == d.pendingRecvLen && d'.avdtpQueued == d.avdtpQueued && d'.hasInterface == d.hasInterface
  }

  lemma DiscoverEffect(d: Driver, data: seq<byte>, o: SendOutcome)
    ensures var d' := OnDiscover(d, data, o);
      && SameCodecs(d, d') && (d'.wire == d.wire || OneMore(d.wire, d'.wire))
      && d'.state == (if P.FreeSinkSeid(data) != 0 then Configuring else d.state)
      && (d'.wire != d.wire ==> P.FreeSinkSeid(data) != 0)
  {
    hide SendCommand, OneMore, P.FreeSinkSeid, P.EncodeSeid;
    var seid := P.FreeSinkSeid(data);
    SendEffect(d.(remoteSeid := seid, state := Configuring), SIGNAL_GET_CAPABILITIES, [P.EncodeSeid(seid)], o);
  }

  lemma GetCapabilitiesEffect(d: Driver, data: seq<byte>, o: SendOutcome)
    ensures var d' := OnGetCapabilities(d, data, o);
      && SameCodecs(d.(pendingCodecId := d'.pendingCodecId), d')
      && (if d'.wire == d.wire then d'.pendingCodecId == d.pendingCodecId && d'.state == d.state
          else OneMore(d.wire, d'.wire) && d'.pendingCodecId == P.SelectedCodec(d.preferredCodecId, data)
               && d'.state == Configured)
  {
    hide SendCommand, OneMore, P.SelectedCodec, P.SetConfigurationPayload;
    var payload := P.SetConfigurationPayload(P.SelectedCodec(d.preferredCodecId, data), d.remoteSeid, d.localSeid);
    SendEffect(d, SIGNAL_SET_CONFIGURATION, payload, o);
    LongerDiffers(d.wire, SendCommand(d, SIGNAL_SET_CONFIGURATION, payload, o).0.wire);
  }

  lemma SetConfigurationEffect(d: Driver, o: SendOutcome)
    ensures var d' := OnSetConfiguration(d, o);
      && SameCodecs(d.(activeCodecId := d.pendingCodecId), d')
      && (if d'.wire == d.wire then d'.state == d.state else OneMore(d.wire, d'.wire) && d'.state == Open)
  {
    hide SendCommand, OneMore, P.EncodeSeid;
    LongerDiffers(d.wire, OnSetConfiguration(d, o).wire);
    SendEffect(d.(activeCodecId := d.pendingCodecId), SIGNAL_OPEN, [P.EncodeSeid(d.remoteSeid)], o);
  }

  lemma OpenEffect(d: Driver, open: OpenOutcome, o: SendOutcome)
    ensures var d' := OnOpen(d, open, o);
      && SameCodecs(d, d') && (d'.wire == d.wire || OneMore(d.wire, d'.wire))
      && d'.state == (if OpenMedia(d, open).1 then d.state else Idle)
      && (d'.wire != d.wire ==> OpenMedia(d, open).1)
  {
    hide SendCommand, OneMore, P.EncodeSeid;
    SendEffect(OpenMedia(d, open).0, SIGNAL_START, [P.EncodeSeid(d.remoteSeid)], o);
  }

  /** In octets: a command, a general reject, a reject (message types 0, 1 and 3), a short packet
      and an answer to any other signal change nothing. */
  lemma OthersIgnored(d: Driver, data: seq<byte>, open: OpenOutcome, o: SendOutcome)
    requires |data| < 2 || data[0] % 4 != 2 || data[1] % 64 !in {1, 2, 3, 6, 7}
    ensures HandlePacket(d, data, open, o) == d
  {}

  /** A command in octets: label and message type, signal, payload. */
  lemma SentOctets(d: Driver, signal: byte, payload: seq<byte>)
    requires d.hasInterface && d.signalingHandle != 0 && |payload| <= 0xFFFD && signal < 64
    ensures var (d', ok) := SendCommand(d, signal, payload, Submitted);
      && ok && d' == d.(transactionId := d'.transactionId, wire := d'.wire)
      && d'.transactionId as int == (d.transactionId as int + 1) % 16
      && d'.wire == d.wire + [[(d.transactionId as int + 1) % 16 * 16, signal as int] + payload]
  {}

  lemma Short(x: byte, y: byte, z: byte)
    ensures [x, y] + [z] == [x, y, z] && [x, y] + [] == [x, y]
  {}

  /** In octets: what an accepted answer makes a connected driver send, and the state and codec
      it leaves. */
  lemma AnswerOctets(d: Driver, data: seq<byte>, handle: Handle)
    requires d.hasInterface && d.remoteAddress != 0 && d.signalingHandle != 0
    requires |data| >= 2 && data[0] % 4 == 2
    ensures var d' := HandlePacket(d, data, Opened(handle), Submitted);
      var head := (d.transactionId as int + 1) % 16 * 16;
      var seid := d.remoteSeid as int % 64 * 4;
      var sink := P.FreeSinkSeid(data[2..]);
      var codec := P.SelectedCodec(d.preferredCodecId, data[2..]);
      && (data[1] % 64 == 1 && sink != 0 ==>
            d'.remoteSeid == sink && d'.state == Configuring && d'.wire == d.wire + [[head, 2, sink as int % 64 * 4]])
      && (data[1] % 64 == 1 && sink == 0 ==> d' == d)
      && (data[1] % 64 == 2 ==>
            && d'.pendingCodecId == codec && d'.state == Configured
            && d'.wire == d.wire + [[head, 3] + P.SetConfigurationPayload(codec, d.remoteSeid, d.localSeid)])
      && (data[1] % 64 == 3 ==>
            d'.activeCodecId == d.pendingCodecId && d'.state == Open && d'.wire == d.wire + [[head, 6, seid]])
      && (data[1] % 64 == 6 ==>
            d'.mediaHandle == handle && d'.state == d.state && d'.wire == d.wire + [[head, 7, seid]])
      && (data[1] % 64 == 7 ==> d' == d.(state := Streaming))
  {
    hide SendCommand, P.SelectedCodec, P.SetConfigurationPayload, P.FreeSinkSeid;
    var head := (d.transactionId as int + 1) % 16 * 16;
    var seid := d.remoteSeid as int % 64 * 4;
    if data[1] % 64 == 1 {
      var sink := P.FreeSinkSeid(data[2..]);
      SentOctets(d.(remoteSeid := sink, state := Configuring), 2, [sink as int % 64 * 4]);
      Short(head, 2, sink as int % 64 * 4);
    } else if data[1] % 64 == 2 {
      var codec := P.SelectedCodec(d.preferredCodecId, data[2..]);
      P.PayloadLayout(codec, d.remoteSeid, d.localSeid);
      SentOctets(d, 3, P.SetConfigurationPayload(codec, d.remoteSeid, d.localSeid));
    } else if data[1] % 64 == 3 {
      SentOctets(d.(activeCodecId := d.pendingCodecId), 6, [seid]);
      Short(head, 6, seid);
    } else if data[1] % 64 == 6 {
      SentOctets(d.(mediaHandle := handle), 7, [seid]);
      Short(head, 7, seid);
    }
  }

  /** In octets: a switch that interrupts a stream sends SUSPEND, then DISCOVER. */
  lemma SwitchOctets(d: Driver, codecId: u32)
    requires d.hasInterface && d.signalingHandle != 0 && d.state == Streaming
    ensures var (d', ok) := SetPreferredCodec(d, codecId, Submitted, Submitted);
      var t := d.transactionId as int;
      && ok && d'.state == Discovering && d'.preferredCodecId == codecId
      && d'.wire == d.wire + [[(t + 1) % 16 * 16, 9, d.remoteSeid as int % 64 * 4], [(t + 2) % 16 * 16, 1]]
  {
    hide SendCommand;
    var t := d.transactionId as int;
    var seid := d.remoteSeid as int % 64 * 4;
    var d0 := d.(preferredCodecId := codecId);
    SentOctets(d0, 9, [seid]);
    Short((t + 1) % 16 * 16, 9, seid);
    var d1 := SendCommand(d0, 9, [seid], Submitted).0;
    SentOctets(d1.(state := Idle), 1, []);
    assert ((t + 1) % 16 + 1) % 16 == (t + 2) % 16;
    Short((t + 2) % 16 * 16, 1, 0);
    OneAndOne(d.wire, [(t + 1) % 16 * 16, 9, seid], [(t + 2) % 16 * 16, 1]);
  }

  lemma OneAndOne(wire: seq<seq<byte>>, a: seq<byte>, b: seq<byte>)
    ensures (wire + [a]) + [b] == wire + [a, b]
  {}

  /** Labels count the commands that were given a packet, sent or not, modulo 16. */
  function Attempts(d: Driver, signal: byte, payload: seq<byte>, os: seq<SendOutcome>): Driver
    decreases |os|
  {
    if os == [] then d else Attempts(SendCommand(d, signal, payload, os[0]).0, signal, payload, os[1..])
  }

  lemma {:induction false} LabelsCount(d: Driver, signal: byte, payload: seq<byte>, os: seq<SendOutcome>)
    requires |payload| <= 0xFFFD && NoPool !in os && d.transactionId < 16
    ensures Attempts(d, signal, payload, os).transactionId as int == (d.transactionId as int + |os|) % 16
    decreases |os|
  {
    hide SendCommand;
    if os != [] {
      OneAttempt(d, signal, payload, os[0]);
      LabelsCount(SendCommand(d, signal, payload, os[0]).0, signal, payload, os[1..]);
    }
  }

  lemma OneAttempt(d: Driver, signal: byte, payload: seq<byte>, o: SendOutcome)
    requires |payload| <= 0xFFFD && o != NoPool && d.transactionId < 16
    ensures SendCommand(d, signal, payload, o).0.transactionId as int == (d.transactionId as int + 1) % 16
  {}

  /** Each announcement is read once: a second work item changes nothing more. Of two
      announcements before it runs, the later counts. */
  lemma OneReadPerAnnouncement(d: Driver, read: ReadOutcome, open: OpenOutcome, o: SendOutcome,
                               read': ReadOutcome, open': OpenOutcome, o': SendOutcome, a: u32, b: u32)
    ensures AvdtpWork(AvdtpWork(d, read, open, o), read', open', o') == AvdtpWork(d, read, open, o)
    ensures Step(Step(d, PacketIndication(a)), PacketIndication(b)) == Step(d, PacketIndication(b))
  {
    hide HandlePacket;
    if Processes(d, read) {
      PacketEffect(d.(avdtpQueued := false, pendingRecvLen := 0), read.data, open, o);
    }
  }

  /** A disconnect leaves the label, the endpoint, the preference and the codecs as they were,
      so labels go on in the next session. */
  lemma AcrossDisconnect(d: Driver, handle: Handle)
    requires d.hasInterface && d.remoteAddress != 0
    ensures var d1 := Step(d, RemoteDisconnect);
      && d1.preferredCodecId == d.preferredCodecId && d1.remoteSeid == d.remoteSeid
      && d1.activeCodecId == d.activeCodecId && d1.pendingCodecId == d.pendingCodecId
      && d1.pendingRecvLen == d.pendingRecvLen && d1.avdtpQueued == d.avdtpQueued
      && var d2 := Step(Step(d1, Timer), ReconnectWork(Opened(handle), Submitted));
      d2.signalingHandle == handle && d2.wire == [[(d.transactionId as int + 1) % 16 * 16, 1]]
  {
    hide SendCommand;
    var d1 := Disconnected(d);
    SentOctets(d1.(reconnectQueued := false, signalingHandle := handle, state := Connecting), 1, []);
    Short((d.transactionId as int + 1) % 16 * 16, 1, 0);
  }

  /** A new device is Idle with nothing open, prefers and runs SBC under SEID 1, and has no
      endpoint; if its channel opens, the first packet is DISCOVER under label 1. */
  lemma FreshDevice(hasInterface: bool, remoteAddress: u64, handle: Handle)
    ensures var d := DeviceAdded(hasInterface, remoteAddress, OpenFailed, Submitted);
      && d.state == Idle && d.signalingHandle == 0 && d.mediaHandle == 0
      && d.rtpSeqNum == 0 && d.rtpTimestamp == 0 && d.pendingRecvLen == 0
      && d.preferredCodecId == d.activeCodecId == d.pendingCodecId == 0 && d.localSeid == 1 && d.remoteSeid == 0
      && !d.avdtpQueued && !d.reconnectQueued && d.wire == []
    ensures hasInterface && remoteAddress != 0 ==>
      var d := DeviceAdded(hasInterface, remoteAddress, Opened(handle), Submitted);
      d.signalingHandle == handle && d.state == Discovering && d.wire == [[0x10, 0x01]]
  {
    if hasInterface && remoteAddress != 0 {
      SentOctets(Zeroed(hasInterface, remoteAddress).(signalingHandle := handle, state := Connecting), 1, []);
      Short(0x10, 1, 0);
    }
  }

  /** A work item runs once each time it is queued; the timer queues a reconnect exactly when
      interface and address are there, the channel is closed and the driver Idle; an
      announcement queues the signalling work, which reads no more than was announced and no
      more than 672 octets. */
  lemma WorkItems(d: Driver, read: ReadOutcome, open: OpenOutcome, o: SendOutcome, len: u32)
    ensures !Step(d, ReconnectWork(open, o)).reconnectQueued && !Step(d, SignalingWork(read, open, o)).avdtpQueued
    ensures Step(d, Timer).reconnectQueued
         == (d.reconnectQueued || (d.hasInterface && d.remoteAddress != 0 && d.signalingHandle == 0 && d.state == Idle))
    ensures Step(d, PacketIndication(len)) == d.(avdtpQueued := true, pendingRecvLen := len)
    ensures Enabled(d, SignalingWork(read, open, o)) && read.Received? ==>
      |read.data| <= d.pendingRecvLen && |read.data| <= 672
    ensures Enabled(d, ReconnectWork(open, o)) <==> d.reconnectQueued
  {
    hide HandlePacket;
    if Processes(d, read) {
      PacketEffect(d.(avdtpQueued := false, pendingRecvLen := 0), read.data, open, o);
    }
  }

  /** A command without a packet buffer, or whose payload would not fit 16 bits, changes
      nothing at all; one that has a buffer but no open channel goes nowhere. */
  lemma UnsentCommands(d: Driver, signal: byte, payload: seq<byte>, o: SendOutcome)
    ensures |payload| > 65533 || o == NoPool ==> SendCommand(d, signal, payload, o) == (d, false)
    ensures !d.hasInterface || d.signalingHandle == 0 || o != Submitted ==>
      var (d', ok) := SendCommand(d, signal, payload, o);
      !ok && d'.wire == d.wire && d' == d.(transactionId := d'.transactionId, wire := d'.wire)
  {}

  /** A codec configuration request needs its 28 octets, a frame request one octet of data. */
  lemma ShortRequestsRefused(d: Driver, buf: seq<byte>, suspend: SendOutcome, o: SendOutcome)
    ensures |buf| < 28 ==> SetCodecConfig(d, buf, suspend, o) == (d, false)
    ensures |buf| < 9 ==> SendAudioFrame(d, buf, o) == (d, false)
  {
    M.ValidatedExactly(buf);
  }

  lemma LongerDiffers(wire: seq<seq<byte>>, wire': seq<seq<byte>>)
    ensures OneMore(wire, wire') ==> wire' != wire
  {}

  /** What a packet makes of the state. */
  lemma PacketState(d: Driver, data: seq<byte>, open: OpenOutcome, o: SendOutcome)
    ensures var d' := HandlePacket(d, data, open, o);
      var sent := d'.wire != d.wire;
      d'.state ==
        if Accepts(data, 1) then (if P.FreeSinkSeid(data[2..]) != 0 then Configuring else d.state)
        else if Accepts(data, 2) then (if sent then Configured else d.state)
        else if Accepts(data, 3) then (if sent then Open else d.state)
        else if Accepts(data, 6) then (if OpenMedia(d, open).1 then d.state else Idle)
        else if Accepts(data, 7) then Streaming
        else d.state
    ensures Accepts(data, 1) && HandlePacket(d, data, open, o).wire != d.wire ==> P.FreeSinkSeid(data[2..]) != 0
    ensures Accepts(data, 6) && HandlePacket(d, data, open, o).wire != d.wire ==> OpenMedia(d, open).1
  {
    hide OneMore, OnDiscover, OnGetCapabilities, OnSetConfiguration, OnOpen, OpenMedia, P.FreeSinkSeid;
    if |data| >= 2 {
      DiscoverEffect(d, data[2..], o);
      GetCapabilitiesEffect(d, data[2..], o);
      SetConfigurationEffect(d, o);
      OpenEffect(d, open, o);
    }
  }

  // ---- RTP ------------------------------------------------------------------------------

  /** RTP over whole runs. Of the packets built since the last disconnect, one preceded by
      k stamped packets carries sequence number k modulo 2^16 and, as timestamp, the sum of
      their increments modulo 2^32; an aptX packet is the bare frame. Packets whose transfer
      failed count too. */
  lemma EveryRunNumbersRtp(hasInterface: bool, remoteAddress: u64, open: OpenOutcome, o: SendOutcome,
                           es: seq<Event>, i: nat)
    requires EnabledRun(DeviceAdded(hasInterface, remoteAddress, open, o), es)
    requires i < |Run(DeviceAdded(hasInterface, remoteAddress, open, o), es).media|
    ensures var media := Run(DeviceAdded(hasInterface, remoteAddress, open, o), es).media;
      var m := media[i];
      M.ParseMediaPacket(m.codecId, m.packet) == Some(M.Parsed(
        if m.codecId in {2, 3, 6} then None
        else Some(M.RtpFields(2, 96, Stamps(media[..i]) % 0x1_0000, Ticks(media[..i]) % 0x1_0000_0000, 1)),
        m.frame))
  {
    var d0 := DeviceAdded(hasInterface, remoteAddress, open, o);
    InitiallySafe(hasInterface, remoteAddress, open, o);
    RunKeepsSafe(d0, es);
    var media := Run(d0, es).media;
    assert Numbered(media, i);
    M.MediaPacketRoundTrip(media[i].codecId, Stamps(media[..i]) % 0x1_0000, Ticks(media[..i]) % 0x1_0000_0000,
                           media[i].frame);
  }

  /** Whatever the peer advertised and the user prefers, the SET_CONFIGURATION that answers
      GET_CAPABILITIES can be built within its 19-octet buffer, and its capability list
      configures exactly the codec recorded as pending. */
  lemma NegotiatedConfiguration(d: Driver, caps: seq<byte>, o: SendOutcome, other: u32)
    requires Safe(d) && d.hasInterface && d.signalingHandle != 0 && o == Submitted
    ensures var d' := OnGetCapabilities(d, caps, o);
      && |d'.wire| == |d.wire| + 1
      && var payload := d'.wire[|d.wire|][2..];
      && |payload| <= P.SET_CONFIGURATION_MAX_LEN
      && payload[0] / 4 == d.remoteSeid && payload[1] == 4
      && P.DecodeConfiguration(payload) == Some(d'.pendingCodecId)
      && (P.ContainsCodec(payload[2..], other) <==> other == d'.pendingCodecId)
      && (d'.pendingCodecId == 0
          || (d'.pendingCodecId == d.preferredCodecId && P.ContainsCodec(caps, d'.pendingCodecId)))
      && (P.ContainsCodec(caps, d.preferredCodecId) ==> d'.pendingCodecId == d.preferredCodecId)
  {
    var codec := P.SelectedCodec(d.preferredCodecId, caps);
    var payload := P.SetConfigurationPayload(codec, d.remoteSeid, d.localSeid);
    P.PayloadLayout(codec, d.remoteSeid, d.localSeid);
    P.BuilderAgreesWithWalker(codec, d.remoteSeid, d.localSeid, other);
    assert CommandPacket(NextLabel(d.transactionId), SIGNAL_SET_CONFIGURATION, payload)[2..] == payload;
  }

  /** Every command that goes out is a single-packet AVDTP command: label in the high four
      bits, packet type single and message type command in the low four, then the signal
      identifier and the payload; and its label differs from the one used before. */
  lemma CommandOnTheWire(d: Driver, signal: byte, payload: seq<byte>, o: SendOutcome)
    requires signal < 64 && d.transactionId < 16 && SendCommand(d, signal, payload, o).1
    ensures var d' := SendCommand(d, signal, payload, o).0;
      && |d'.wire| == |d.wire| + 1 && d'.wire[..|d.wire|] == d.wire
      && var p := d'.wire[|d.wire|];
      && p == [(d.transactionId as int + 1) % 16 * 16, signal as int] + payload
      && d'.transactionId as int == (d.transactionId as int + 1) % 16
  {
    assert signal as int % 64 == signal as int;
  }
}
