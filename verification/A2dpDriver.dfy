/** The A2DP signalling driver: driver/src/avdtp.c, l2cap_stream.c, owb_a2dp.c, ioctl.c.

    Driver and Step specify one atomic step of the driver per callback; class
    DeviceExtension is the driver's own form, fields updated by methods, each proved to
    perform that step. The Bluetooth stack answers through outcome parameters. */
module A2dpDriver {
  import opened ByteTypes
  import P = AvdtpPackets
  import M = MediaFraming

  datatype AvdtpState =
    | Idle | Connecting | Discovering | Configuring | Configured | Open | Streaming | Closing

  const SIGNAL_DISCOVER: byte := 0x01
  const SIGNAL_GET_CAPABILITIES: byte := 0x02
  const SIGNAL_SET_CONFIGURATION: byte := 0x03
  const SIGNAL_OPEN: byte := 0x06
  const SIGNAL_START: byte := 0x07
  const SIGNAL_SUSPEND: byte := 0x09

  const MESSAGE_COMMAND: byte := 0
  const MESSAGE_ACCEPT: byte := 2

  const WORK_BUFFER := 672

  // ---- Answers of the Bluetooth stack --------------------------------------

  type Handle = h: u64 | h != 0 witness 1

  datatype SendOutcome = NoPool | NoBrb | SubmitFailed | Submitted
  datatype OpenOutcome = OpenNoBrb | OpenFailed | Opened(handle: Handle)
  datatype ReadOutcome = ReadNoBrb | ReadFailed | Received(data: seq<byte>)

  // ---- Driver state ---------------------------------------------------------

  datatype MediaRecord = MediaRecord(codecId: u32, frame: seq<byte>, packet: seq<byte>, delivered: bool)

  /** The device extension. wire and media are histories: the signalling packets accepted
      by the stack in this session, and the media packets built since the last
      disconnect. */
  datatype Driver = Driver(
    hasInterface: bool,
    remoteAddress: u64,
    state: AvdtpState,
    remoteSeid: byte,
    localSeid: byte,
    transactionId: byte,
    activeCodecId: u32,
    pendingCodecId: u32,
    preferredCodecId: u32,
    signalingHandle: u64,
    mediaHandle: u64,
    rtpSeqNum: u16,
    rtpTimestamp: u32,
    pendingRecvLen: u32,
    avdtpQueued: bool,
    reconnectQueued: bool,
    wire: seq<seq<byte>>,
    media: seq<MediaRecord>)

  function Zeroed(hasInterface: bool, remoteAddress: u64): Driver {
    Driver(hasInterface, remoteAddress, Idle, 0, 1, 0, CODEC_SBC, CODEC_SBC, CODEC_SBC,
           0, 0, 0, 0, 0, false, false, [], [])
  }

  // ---- AVDTP commands ---------------------------------------------------------

  function CommandPacket(transactionId: byte, signal: byte, payload: seq<byte>): seq<byte>
    requires transactionId < 16
  {
    [transactionId * 16 + MESSAGE_COMMAND, signal % 64] + payload
  }

  function Signal(packet: seq<byte>): byte
    requires |packet| >= 2
  {
    packet[1] % 64
  }

  function NextLabel(transactionId: byte): byte {
    (transactionId as int + 1) % 16
  }

  /** The transaction label is consumed as soon as the packet is allocated. */
  function SendCommand(d: Driver, signal: byte, payload: seq<byte>, o: SendOutcome): (r: (Driver, bool)) {
    if |payload| > 0xFFFD || o.NoPool? then (d, false)
    else
      var labelled := d.(transactionId := NextLabel(d.transactionId));
      if !d.hasInterface || d.signalingHandle == 0 || o != Submitted then (labelled, false)
      else (labelled.(wire := d.wire + [CommandPacket(labelled.transactionId, signal, payload)]), true)
  }

  function Connect(d: Driver, o: SendOutcome): (Driver, bool) {
    if d.state != Idle && d.state != Connecting then (d, false)
    else
      var (d1, ok) := SendCommand(d, SIGNAL_DISCOVER, [], o);
      (if ok then d1.(state := Discovering) else d1, ok)
  }

  function OnDiscover(d: Driver, data: seq<byte>, o: SendOutcome): Driver {
    var seid := P.FreeSinkSeid(data);
    if seid == P.SEID_NONE then d
    else
      SendCommand(d.(remoteSeid := seid, state := Configuring),
                  SIGNAL_GET_CAPABILITIES, [P.EncodeSeid(seid)], o).0
  }

  ghost function OnGetCapabilities(d: Driver, data: seq<byte>, o: SendOutcome): Driver {
    var codec := P.SelectedCodec(d.preferredCodecId, data);
    var (d1, ok) := SendCommand(d, SIGNAL_SET_CONFIGURATION,
                                P.SetConfigurationPayload(codec, d.remoteSeid, d.localSeid), o);
    if ok then d1.(pendingCodecId := codec, state := Configured) else d1
  }

  function OnSetConfiguration(d: Driver, o: SendOutcome): Driver {
    var (d1, ok) := SendCommand(d.(activeCodecId := d.pendingCodecId), SIGNAL_OPEN, [P.EncodeSeid(d.remoteSeid)], o);
    if ok then d1.(state := Open) else d1
  }

  function OpenMedia(d: Driver, open: OpenOutcome): (Driver, bool) {
    if d.hasInterface && d.remoteAddress != 0 && open.Opened? then (d.(mediaHandle := open.handle), true)
    else (d, false)
  }

  function OnOpen(d: Driver, open: OpenOutcome, o: SendOutcome): Driver {
    var (d1, ok) := OpenMedia(d, open);
    if ok then SendCommand(d1, SIGNAL_START, [P.EncodeSeid(d1.remoteSeid)], o).0
    else d1.(state := Idle)
  }

  function SetPreferredCodec(d: Driver, codecId: u32, suspend: SendOutcome, discover: SendOutcome): (Driver, bool) {
    var d0 := d.(preferredCodecId := codecId);
    if d0.state != Streaming then (d0, true)
    else
      var (d1, ok) := SendCommand(d0, SIGNAL_SUSPEND, [P.EncodeSeid(d0.remoteSeid)], suspend);
      if ok then Connect(d1.(state := Idle), discover) else (d1, false)
  }

  ghost function HandlePacket(d: Driver, data: seq<byte>, open: OpenOutcome, o: SendOutcome): Driver {
    if |data| < 2 || data[0] % 4 != MESSAGE_ACCEPT then d
    else if Signal(data) == SIGNAL_DISCOVER then OnDiscover(d, data[2..], o)
    else if Signal(data) == SIGNAL_GET_CAPABILITIES then OnGetCapabilities(d, data[2..], o)
    else if Signal(data) == SIGNAL_SET_CONFIGURATION then OnSetConfiguration(d, o)
    else if Signal(data) == SIGNAL_OPEN then OnOpen(d, open, o)
    else if Signal(data) == SIGNAL_START then d.(state := Streaming)
    else d
  }

  // ---- Channels and work items ------------------------------------------------

  function OpenSignaling(d: Driver, open: OpenOutcome, o: SendOutcome): Driver {
    if !d.hasInterface || d.remoteAddress == 0 || !open.Opened? then d
    else Connect(d.(signalingHandle := open.handle, state := Connecting, wire := []), o).0
  }

  predicate ShouldReconnect(d: Driver) {
    d.hasInterface && d.remoteAddress != 0 && d.signalingHandle == 0 && d.state == Idle
  }

  function Disconnected(d: Driver): Driver {
    d.(signalingHandle := 0, mediaHandle := 0, rtpSeqNum := 0, rtpTimestamp := 0, state := Idle,
       wire := [], media := [])
  }

  /** The work item hands a packet on when one was announced and the read returned bytes. */
  predicate Processes(d: Driver, read: ReadOutcome) {
    d.hasInterface && d.pendingRecvLen != 0 && read.Received? && read.data != []
  }

  ghost function AvdtpWork(d: Driver, read: ReadOutcome, open: OpenOutcome, o: SendOutcome): Driver {
    var idle := d.(avdtpQueued := false);
    if !d.hasInterface || d.pendingRecvLen == 0 then idle
    else
      var taken := idle.(pendingRecvLen := 0);
      if Processes(d, read) then HandlePacket(taken, read.data, open, o) else taken
  }

  // ---- Media ------------------------------------------------------------------

  /** Builds the packet with the current counters and advances them if it carries RTP. */
  function BuildMedia(d: Driver, codecId: u32, frame: seq<byte>, delivered: bool): Driver {
    var f := M.FramingOf(codecId);
    var packet := M.MediaPacket(codecId, d.rtpSeqNum, d.rtpTimestamp, frame);
    d.(rtpSeqNum := if f.useRtp then (d.rtpSeqNum as int + 1) % 0x1_0000 else d.rtpSeqNum,
       rtpTimestamp := if f.useRtp then (d.rtpTimestamp as int + f.tsIncr as int) % 0x1_0000_0000 else d.rtpTimestamp,
       media := d.media + [MediaRecord(codecId, frame, packet, delivered)])
  }

  function SendMedia(d: Driver, codecId: u32, frame: seq<byte>, o: SendOutcome): (Driver, bool) {
    if d.state != Streaming || !d.hasInterface || M.HeaderLen(codecId) + |frame| > 0xFFFF || o.NoPool? then (d, false)
    else (BuildMedia(d, codecId, frame, o == Submitted), o == Submitted)
  }

  function SendAudioFrame(d: Driver, buf: seq<byte>, o: SendOutcome): (Driver, bool) {
    var input := M.ValidatedFrame(buf);
    if input.None? then (d, false) else SendMedia(d, input.value.0, input.value.1, o)
  }

  /** OWB_CODEC_CONFIG, packed: codec id, 16-octet key, 64-bit value. */
  const CODEC_CONFIG_SIZE := 28

  predicate SwitchRequested(buf: seq<byte>) {
    |buf| >= CODEC_CONFIG_SIZE && buf[4] == 's' as int && buf[5] == 'w' as int
  }

  function SetCodecConfig(d: Driver, buf: seq<byte>, suspend: SendOutcome, discover: SendOutcome): (Driver, bool) {
    if |buf| < CODEC_CONFIG_SIZE then (d, false)
    else if SwitchRequested(buf) then SetPreferredCodec(d, FromLittleEndian32(buf[..4]), suspend, discover)
    else (d, true)
  }

  // ---- Steps --------------------------------------------------------------------

  datatype Event =
    | Timer
    | ReconnectWork(open: OpenOutcome, send: SendOutcome)
    | PacketIndication(len: u32)
    | RemoteDisconnect
    | SignalingWork(read: ReadOutcome, open: OpenOutcome, send: SendOutcome)
    | CodecConfigRequest(buf: seq<byte>, suspend: SendOutcome, discover: SendOutcome)
    | AudioFrameRequest(buf: seq<byte>, send: SendOutcome)

  /** What the framework and the stack guarantee: a work item runs only when queued, and
      a read needs an open channel and returns at most the announced length. The peer is
      otherwise arbitrary. */
  predicate Enabled(d: Driver, e: Event) {
    match e
    case ReconnectWork(_, _) => d.reconnectQueued
    case SignalingWork(read, _, _) =>
      && d.avdtpQueued
      && (read.Received? ==> d.signalingHandle != 0 && |read.data| <= d.pendingRecvLen && |read.data| <= WORK_BUFFER)
    case _ => true
  }

  ghost function Step(d: Driver, e: Event): Driver {
    match e
    case Timer => if ShouldReconnect(d) then d.(reconnectQueued := true) else d
    case ReconnectWork(open, o) =>
      var idle := d.(reconnectQueued := false);
      if ShouldReconnect(d) then OpenSignaling(idle, open, o) else idle
    case PacketIndication(len) => d.(pendingRecvLen := len, avdtpQueued := true)
    case RemoteDisconnect => Disconnected(d)
    case SignalingWork(read, open, o) => AvdtpWork(d, read, open, o)
    case CodecConfigRequest(buf, suspend, discover) => SetCodecConfig(d, buf, suspend, discover).0
    case AudioFrameRequest(buf, o) => SendAudioFrame(d, buf, o).0
  }

  /** EvtDeviceAdd: a zeroed extension and one best-effort attempt to open the channel. */
  function DeviceAdded(hasInterface: bool, remoteAddress: u64, open: OpenOutcome, o: SendOutcome): Driver {
    OpenSignaling(Zeroed(hasInterface, remoteAddress), open, o)
  }

  ghost predicate EnabledRun(d: Driver, es: seq<Event>)
    decreases |es|
  {
    es == [] || (Enabled(d, es[0]) && EnabledRun(Step(d, es[0]), es[1..]))
  }

  ghost function Run(d: Driver, es: seq<Event>): Driver
    decreases |es|
  {
    if es == [] then d else Run(Step(d, es[0]), es[1..])
  }

  // ---- The driver as the source writes it ------------------------------------------

  class DeviceExtension {
    const hasInterface: bool
    const remoteAddress: u64
    var state: AvdtpState
    var remoteSeid: byte
    var localSeid: byte
    var transactionId: byte
    var activeCodecId: u32
    var pendingCodecId: u32
    var preferredCodecId: u32
    var signalingHandle: u64
    var mediaHandle: u64
    var rtpSeqNum: u16
    var rtpTimestamp: u32
    var pendingRecvLen: u32
    var avdtpQueued: bool
    var reconnectQueued: bool
    ghost var wire: seq<seq<byte>>
    ghost var media: seq<MediaRecord>

    ghost function Snapshot(): Driver
      reads this
    {
      Driver(hasInterface, remoteAddress, state, remoteSeid, localSeid, transactionId, activeCodecId, pendingCodecId,
             preferredCodecId, signalingHandle, mediaHandle, rtpSeqNum, rtpTimestamp, pendingRecvLen, avdtpQueued,
             reconnectQueued, wire, media)
    }

    constructor EvtDeviceAdd(hasInterface: bool, remoteAddress: u64, open: OpenOutcome, send: SendOutcome)
      ensures Snapshot() == DeviceAdded(hasInterface, remoteAddress, open, send)
    {
      this.hasInterface, this.remoteAddress := hasInterface, remoteAddress;
      signalingHandle, mediaHandle, rtpSeqNum, rtpTimestamp := 0, 0, 0, 0;
      preferredCodecId, pendingRecvLen, avdtpQueued, reconnectQueued := 0, 0, false, false;
      state, remoteSeid, localSeid, transactionId := Idle, 0, 1, 0;
      activeCodecId, pendingCodecId := CODEC_SBC, CODEC_SBC;
      wire, media := [], [];
      new;
      var _ := L2capOpenSignalingChannel(open, send);
    }

    method AvdtpSendCommand(signal: byte, payload: seq<byte>, send: SendOutcome) returns (ok: bool)
      modifies this
      ensures (Snapshot(), ok) == SendCommand(old(Snapshot()), signal, payload, send)
    {
      if |payload| > 0xFFFD || send.NoPool? {
        return false;
      }
      transactionId := (transactionId as int + 1) % 16;
      var buf := [transactionId * 16 + MESSAGE_COMMAND, signal % 64] + payload;
      ok := L2capSendSignaling(buf, send);
    }

    method L2capSendSignaling(packet: seq<byte>, send: SendOutcome) returns (ok: bool)
      modifies this`wire
      ensures ok == (hasInterface && signalingHandle != 0 && send == Submitted)
      ensures wire == if ok then old(wire) + [packet] else old(wire)
    {
      if !hasInterface || signalingHandle == 0 {
        return false;
      }
      ok := send == Submitted;
      if ok {
        wire := wire + [packet];
      }
    }

    method AvdtpConnect(send: SendOutcome) returns (ok: bool)
      modifies this
      ensures (Snapshot(), ok) == Connect(old(Snapshot()), send)
    {
      if state != Idle && state != Connecting {
        return false;
      }
      ok := AvdtpSendCommand(SIGNAL_DISCOVER, [], send);
      if ok {
        state := Discovering;
      }
    }

    method HandleDiscoverResponse(data: seq<byte>, send: SendOutcome)
      modifies this
      ensures Snapshot() == OnDiscover(old(Snapshot()), data, send)
    {
      var seid := P.FindFreeAudioSinkSeid(data);
      if seid == P.SEID_NONE {
        return;
      }
      remoteSeid := seid;
      state := Configuring;
      var _ := AvdtpSendCommand(SIGNAL_GET_CAPABILITIES, [P.EncodeSeid(seid)], send);
    }

    method HandleGetCapabilitiesResponse(data: seq<byte>, send: SendOutcome)
      modifies this
      ensures Snapshot() == OnGetCapabilities(old(Snapshot()), data, send)
    {
      var payload := new byte[P.SET_CONFIGURATION_MAX_LEN](_ => 0);
      var codec := P.SelectCodec(preferredCodecId, data);
      P.PayloadLayout(codec, remoteSeid, localSeid);
      var plen := P.BuildSetConfiguration(codec, remoteSeid, localSeid, payload);
      if plen == 0 {
        return;
      }
      var ok := AvdtpSendCommand(SIGNAL_SET_CONFIGURATION, payload[..plen], send);
      if !ok {
        return;
      }
      pendingCodecId := codec;
      state := Configured;
    }

    method HandleSetConfigurationResponse(send: SendOutcome)
      modifies this
      ensures Snapshot() == OnSetConfiguration(old(Snapshot()), send)
    {
      activeCodecId := pendingCodecId;
      var ok := AvdtpSendCommand(SIGNAL_OPEN, [P.EncodeSeid(remoteSeid)], send);
      if ok {
        state := Open;
      }
    }

    method HandleOpenResponse(open: OpenOutcome, send: SendOutcome)
      modifies this
      ensures Snapshot() == OnOpen(old(Snapshot()), open, send)
    {
      var ok := L2capOpenMediaChannel(open);
      if !ok {
        state := Idle;
        return;
      }
      var _ := AvdtpSendCommand(SIGNAL_START, [P.EncodeSeid(remoteSeid)], send);
    }

    method AvdtpSetPreferredCodec(codecId: u32, suspend: SendOutcome, discover: SendOutcome) returns (ok: bool)
      modifies this
      ensures (Snapshot(), ok) == SetPreferredCodec(old(Snapshot()), codecId, suspend, discover)
    {
      preferredCodecId := codecId;
      if state == Streaming {
        ok := AvdtpSendCommand(SIGNAL_SUSPEND, [P.EncodeSeid(remoteSeid)], suspend);
        if !ok {
          return;
        }
        state := Idle;
        ok := AvdtpConnect(discover);
        return;
      }
      ok := true;
    }

    method AvdtpHandleSignalingPacket(data: seq<byte>, open: OpenOutcome, send: SendOutcome)
      modifies this
      ensures Snapshot() == HandlePacket(old(Snapshot()), data, open, send)
    {
      if |data| < 2 {
        return;
      }
      var msgType, signalId := data[0] % 4, data[1] % 64;
      var payload := data[2..];
      if msgType != MESSAGE_ACCEPT {
        return;
      }
      if signalId == SIGNAL_DISCOVER {
        HandleDiscoverResponse(payload, send);
      } else if signalId == SIGNAL_GET_CAPABILITIES {
        HandleGetCapabilitiesResponse(payload, send);
      } else if signalId == SIGNAL_SET_CONFIGURATION {
        HandleSetConfigurationResponse(send);
      } else if signalId == SIGNAL_OPEN {
        HandleOpenResponse(open, send);
      } else if signalId == SIGNAL_START {
        state := Streaming;
      }
    }

    method L2capOpenSignalingChannel(open: OpenOutcome, send: SendOutcome) returns (ok: bool)
      modifies this
      ensures Snapshot() == OpenSignaling(old(Snapshot()), open, send)
      ensures ok == (hasInterface && remoteAddress != 0 && open.Opened? && send == Submitted)
    {
      if !hasInterface || remoteAddress == 0 || !open.Opened? {
        return false;
      }
      signalingHandle := open.handle;
      wire := [];
      state := Connecting;
      ok := AvdtpConnect(send);
    }

    method L2capOpenMediaChannel(open: OpenOutcome) returns (ok: bool)
      modifies this
      ensures (Snapshot(), ok) == OpenMedia(old(Snapshot()), open)
    {
      if !hasInterface || remoteAddress == 0 || !open.Opened? {
        return false;
      }
      mediaHandle := open.handle;
      ok := true;
    }

    method OwbReconnectTimer()
      modifies this
      ensures Snapshot() == Step(old(Snapshot()), Timer)
    {
      if OwbShouldReconnect() {
        reconnectQueued := true;
      }
    }

    predicate OwbShouldReconnect()
      reads this
      ensures OwbShouldReconnect() == ShouldReconnect(Snapshot())
    {
      hasInterface && remoteAddress != 0 && signalingHandle == 0 && state == Idle
    }

    method OwbReconnectWorkCallback(open: OpenOutcome, send: SendOutcome)
      modifies this
      ensures Snapshot() == Step(old(Snapshot()), ReconnectWork(open, send))
    {
      reconnectQueued := false;
      if !OwbShouldReconnect() {
        return;
      }
      var _ := L2capOpenSignalingChannel(open, send);
    }

    method IndicationRecvPacket(len: u32)
      modifies this
      ensures Snapshot() == Step(old(Snapshot()), PacketIndication(len))
    {
      pendingRecvLen := len;
      avdtpQueued := true;
    }

    method IndicationRemoteDisconnect()
      modifies this
      ensures Snapshot() == Disconnected(old(Snapshot()))
    {
      signalingHandle, mediaHandle := 0, 0;
      rtpSeqNum, rtpTimestamp := 0, 0;
      state := Idle;
      wire, media := [], [];
    }

    method OwbAvdtpWorkCallback(read: ReadOutcome, open: OpenOutcome, send: SendOutcome)
      modifies this
      ensures Snapshot() == Step(old(Snapshot()), SignalingWork(read, open, send))
    {
      avdtpQueued := false;
      if !hasInterface || pendingRecvLen == 0 {
        return;
      }
      pendingRecvLen := 0;
      if read.Received? && |read.data| > 0 {
        AvdtpHandleSignalingPacket(read.data, open, send);
      }
    }

    method L2capSendMediaFrame(codecId: u32, frame: seq<byte>, send: SendOutcome) returns (ok: bool)
      modifies this
      ensures (Snapshot(), ok) == SendMedia(old(Snapshot()), codecId, frame, send)
    {
      hide M.MediaPacket;
      if state != Streaming || !hasInterface {
        return false;
      }
      var useRtp, payloadHeader, tsIncr := M.MediaFramingPolicy(codecId);
      var pktLen := (if useRtp then M.RTP_HEADER_LEN else 0) + (if payloadHeader then 1 else 0) + |frame|;
      if pktLen > 0xFFFF || send.NoPool? {
        return false;
      }
      var packet := M.NewMediaPacket(codecId, rtpSeqNum, rtpTimestamp, frame);
      if useRtp {
        rtpSeqNum := (rtpSeqNum as int + 1) % 0x1_0000;
        rtpTimestamp := (rtpTimestamp as int + tsIncr as int) % 0x1_0000_0000;
      }
      ok := send == Submitted;
      media := media + [MediaRecord(codecId, frame, packet, ok)];
    }

    method IoctlSendAudioFrame(buf: seq<byte>, send: SendOutcome) returns (ok: bool)
      modifies this
      ensures (Snapshot(), ok) == SendAudioFrame(old(Snapshot()), buf, send)
    {
      if |buf| < 9 {
        return false;
      }
      var codecId, dataLen := FromLittleEndian32(buf[..4]), FromLittleEndian32(buf[4..8]);
      if dataLen > |buf| - 8 || dataLen > 0xFFFF - M.RTP_OVERHEAD {
        return false;
      }
      ok := L2capSendMediaFrame(codecId, buf[8..8 + dataLen as int], send);
    }

    method IoctlSetCodecConfig(buf: seq<byte>, suspend: SendOutcome, discover: SendOutcome) returns (ok: bool)
      modifies this
      ensures (Snapshot(), ok) == SetCodecConfig(old(Snapshot()), buf, suspend, discover)
    {
      if |buf| < CODEC_CONFIG_SIZE {
        return false;
      }
      ok := true;
      if buf[4] == 's' as int && buf[5] == 'w' as int {
        ok := AvdtpSetPreferredCodec(FromLittleEndian32(buf[..4]), suspend, discover);
      }
    }
  }
}
