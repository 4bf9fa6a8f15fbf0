/** When a session can still reach Streaming. Against a conforming peer the driver moves on
    only when a command of the negotiation is answered: it never repeats a command and, as
    long as the signalling channel stays open, never reconnects. */
module StalledSession {
  import opened ByteTypes
  import opened A2dpDriver
  import opened ConformingSession
  import opened TextFields
  import C = CodecSwitch
  import P = AvdtpPackets
  import S = DriverSafety

  /** An open channel, not streaming, and nothing outstanding but SUSPEND. */
  predicate Stalled(w: World) {
    w.d.signalingHandle != 0 && w.d.state != Streaming && AllSuspend(w.outstanding)
  }

  ghost predicate NoDisconnect(ms: seq<Move>) {
    forall m <- ms :: !m.e.RemoteDisconnect?
  }

  predicate IsSwitch(e: Event) {
    e.CodecConfigRequest? && SwitchRequested(e.buf)
  }

  ghost predicate NoSwitch(ms: seq<Move>) {
    forall m <- ms :: !IsSwitch(m.e)
  }

  ghost predicate ReachesStreaming(w: World, ms: seq<Move>) {
    ConformingRun(w, ms) && NoDisconnect(ms) && RunWorld(w, ms).d.state == Streaming
  }

  /** Some continuation without a disconnect leads to Streaming. */
  ghost predicate CanStream(w: World) {
    exists ms :: ReachesStreaming(w, ms)
  }

  // ---- A stalled session stays stalled ------------------------------------------------

  lemma NotStreaming(d: Driver, codecId: u32, suspend: SendOutcome, discover: SendOutcome)
    requires d.state != Streaming
    ensures SetPreferredCodec(d, codecId, suspend, discover).0 == d.(preferredCodecId := codecId)
  {}

  lemma NoFrames(d: Driver, buf: seq<byte>, o: SendOutcome)
    requires d.state != Streaming
    ensures SendAudioFrame(d, buf, o).0 == d
  {}

  lemma StalledStays(w: World, m: Move)
    requires Stalled(w) && Conforming(w, m) && !m.e.RemoteDisconnect?
    ensures Stalled(Next(w, m)) && Bookkeeping(w.d, Next(w, m).d)
  {
    hide SetPreferredCodec, OpenSignaling, SendAudioFrame, Signal;
    hide OnDiscover, OnGetCapabilities, OnSetConfiguration, OnOpen;
    match m.e
    case SignalingWork(read, open, o) =>
      if Delivers(w.d, m.e) {
        assert w.outstanding[m.answers] in w.outstanding;
      }
    case CodecConfigRequest(buf, suspend, discover) =>
      if SwitchRequested(buf) {
        NotStreaming(w.d, FromLittleEndian32(buf[..4]), suspend, discover);
      }
    case AudioFrameRequest(buf, o) =>
      NoFrames(w.d, buf, o);
    case _ =>
  }

  /** Until the channel is disconnected: no packet, timer, work item, codec switch or frame
      changes its state, handles, endpoint, codecs or the packets sent. */
  lemma {:induction false} StalledUntilDisconnect(w: World, ms: seq<Move>)
    requires Stalled(w) && ConformingRun(w, ms) && NoDisconnect(ms)
    ensures Stalled(RunWorld(w, ms)) && Bookkeeping(w.d, RunWorld(w, ms).d)
    decreases |ms|
  {
    hide Stalled, Conforming, Next;
    if ms != [] {
      assert ms[0] in ms && forall m <- ms[1..] :: m in ms;
      StalledStays(w, ms[0]);
      StalledUntilDisconnect(Next(w, ms[0]), ms[1..]);
    }
  }

  /** A DISCOVER answer that offers one free audio sink, with SEID 5. */
  const ONE_SINK: seq<byte> := [0x14, 0x08]

  // ---- Any other session can go on -----------------------------------------------------

  /** How many commands of the current round were sent; 0 also after SUSPEND. */
  function Place(w: World): nat {
    |w.d.wire| % 6
  }

  /** The last command of the negotiation is unanswered. */
  predicate Live(w: World) {
    && 1 <= Place(w) <= 5
    && w.outstanding != [] && Last(w.outstanding) == Last(w.d.wire)
  }

  /** The stack announces an accepting answer to the last command, and the work item reads
      it: seps for DISCOVER, caps for GET_CAPABILITIES. */
  function AnswerMoves(w: World, seps: seq<byte>, caps: seq<byte>): (ms: seq<Move>)
    requires Live(w) && |seps| <= WORK_BUFFER - 2 && |caps| <= WORK_BUFFER - 2
    ensures |ms| == 2
  {
    var packet := C.Answer(Place(w) - 1, seps, caps);
    [Move(PacketIndication(|packet|), 0),
     Move(SignalingWork(Received(packet), Opened(1), Submitted), |w.outstanding| - 1)]
  }

  lemma LivePosition(w: World)
    requires Inv(w) && Live(w)
    ensures w.d.state != Streaming && |Last(w.outstanding)| >= 2
    ensures Signal(Last(w.outstanding)) == C.RoundSignal(Place(w) - 1)
  {
    hide Inv;
    assert InCycle(w.d.wire) by { InvCycle(w); }
    Position(w.d.wire);
    LiveAnswer(w, |w.outstanding| - 1);
  }

  lemma InvCycle(w: World)
    requires Inv(w)
    ensures InCycle(w.d.wire)
  {}

  lemma TwoMoves(w: World, m: Move, n: Move)
    requires Conforming(w, m) && Conforming(Next(w, m), n)
    ensures ConformingRun(w, [m, n]) && RunWorld(w, [m, n]) == Next(Next(w, m), n)
  {
    hide Conforming, Next;
    var w1 := Next(w, m);
    assert [n][1..] == [];
    assert ConformingRun(w1, [n]) && RunWorld(w1, [n]) == Next(w1, n);
    assert [m, n][1..] == [n];
  }

  /** The work item hands the driver a packet that answers the last outstanding command. */
  lemma PacketTaken(w: World, packet: seq<byte>)
    requires C.Connected(w.d) && w.outstanding != [] && 2 <= |packet| <= WORK_BUFFER
    requires Answers(packet, Last(w.outstanding))
    ensures var m := Move(PacketIndication(|packet|), 0);
      var n := Move(SignalingWork(Received(packet), Opened(1), Submitted), |w.outstanding| - 1);
      && Conforming(w, m) && Conforming(Next(w, m), n)
      && var w' := Next(Next(w, m), n);
      && w'.d == HandlePacket(w.d.(avdtpQueued := false, pendingRecvLen := 0), packet, Opened(1), Submitted)
      && w'.outstanding == Sent(w.d, w'.d)
  {
    hide HandlePacket, Signal;
    var m := Move(PacketIndication(|packet|), 0);
    var w1 := Next(w, m);
    assert Sent(w.d, w1.d) == [] && w1.outstanding == w.outstanding;
    assert w1.outstanding[|w.outstanding|..] == [];
  }

  lemma AnswerTaken(w: World, seps: seq<byte>, caps: seq<byte>)
    requires Inv(w) && C.Connected(w.d) && Live(w)
    requires |seps| <= WORK_BUFFER - 2 && |caps| <= WORK_BUFFER - 2 && P.FreeSinkSeid(seps) != P.SEID_NONE
    ensures var ms := AnswerMoves(w, seps, caps);
      && Conforming(w, ms[0]) && Conforming(Next(w, ms[0]), ms[1])
      && Advanced(w, Next(Next(w, ms[0]), ms[1]), caps)
  {
    hide Inv, HandlePacket, P.FreeSinkSeid, P.SelectedCodec, C.Answer, Next, Conforming;
    LivePosition(w);
    var k := Place(w) - 1;
    var packet := C.Answer(k, seps, caps);
    PacketTaken(w, packet);
    C.AnswerHandled(w.d.(avdtpQueued := false, pendingRecvLen := 0), k, seps, caps, 1);
    var ms := AnswerMoves(w, seps, caps);
    var w2 := Next(Next(w, ms[0]), ms[1]);
    if k < 4 {
      assert w2.outstanding == w2.d.wire[|w.d.wire|..] && Last(w2.outstanding) == Last(w2.d.wire);
    }
  }

  /** The next command of the round is out, or the stream has started; the codec the round
      will end with is as the answer left it. */
  ghost predicate Advanced(w: World, w': World, caps: seq<byte>)
    requires Live(w)
  {
    && C.Connected(w'.d) && w'.d.preferredCodecId == w.d.preferredCodecId
    && (if Place(w) == 5 then w'.d.state == Streaming && w'.d.activeCodecId == w.d.activeCodecId
        else Live(w') && Place(w') == Place(w) + 1
             && C.Outcome(w'.d, Place(w), caps) == C.Outcome(w.d, Place(w) - 1, caps))
  }

  lemma AnswerAdvances(w: World, seps: seq<byte>, caps: seq<byte>)
    requires Inv(w) && C.Connected(w.d) && Live(w)
    requires |seps| <= WORK_BUFFER - 2 && |caps| <= WORK_BUFFER - 2 && P.FreeSinkSeid(seps) != P.SEID_NONE
    ensures var ms := AnswerMoves(w, seps, caps);
      && ConformingRun(w, ms) && NoDisconnect(ms) && NoSwitch(ms)
      && Inv(RunWorld(w, ms)) && Advanced(w, RunWorld(w, ms), caps)
  {
    hide Inv, Next, Conforming, ConformingRun, RunWorld, Advanced, P.FreeSinkSeid;
    var ms := AnswerMoves(w, seps, caps);
    AnswerTaken(w, seps, caps);
    StepKeepsInv(w, ms[0]);
    StepKeepsInv(Next(w, ms[0]), ms[1]);
    TwoMoves(w, ms[0], ms[1]);
    assert ms == [ms[0], ms[1]];
  }

  lemma {:induction false} RunAppend(w: World, ms: seq<Move>, ns: seq<Move>)
    requires ConformingRun(w, ms) && ConformingRun(RunWorld(w, ms), ns)
    ensures ConformingRun(w, ms + ns) && RunWorld(w, ms + ns) == RunWorld(RunWorld(w, ms), ns)
    decreases |ms|
  {
    hide Conforming, Next;
    if ms == [] {
      assert ms + ns == ns;
    } else {
      RunAppend(Next(w, ms[0]), ms[1..], ns);
      assert (ms + ns)[1..] == ms[1..] + ns;
    }
  }

  /** Accepting answers lead to Streaming, with the codec the round stands at. */
  lemma {:induction false} LiveReaches(w: World, seps: seq<byte>, caps: seq<byte>) returns (ms: seq<Move>)
    requires Inv(w) && C.Connected(w.d) && Live(w)
    requires |seps| <= WORK_BUFFER - 2 && |caps| <= WORK_BUFFER - 2 && P.FreeSinkSeid(seps) != P.SEID_NONE
    ensures ReachesStreaming(w, ms) && NoSwitch(ms)
    ensures var w' := RunWorld(w, ms);
      && Inv(w') && C.Connected(w'.d) && w'.d.preferredCodecId == w.d.preferredCodecId
      && w'.d.activeCodecId == C.Outcome(w.d, Place(w) - 1, caps)
    decreases 6 - Place(w)
  {
    hide Inv, ConformingRun, RunWorld, P.FreeSinkSeid, P.SelectedCodec, AnswerMoves;
    AnswerAdvances(w, seps, caps);
    ms := AnswerMoves(w, seps, caps);
    var w' := RunWorld(w, ms);
    if Place(w) < 5 {
      var rest := LiveReaches(w', seps, caps);
      RunAppend(w, ms, rest);
      ms := ms + rest;
    }
  }

  lemma ClosedIsClean(w: World)
    requires Inv(w) && w.d.signalingHandle == 0
    ensures w.d.state == Idle && w.d.wire == [] && w.outstanding == []
  {}

  lemma ReopenSends(d: Driver)
    requires d.hasInterface && d.remoteAddress != 0
    ensures var d' := OpenSignaling(d, Opened(1), Submitted);
      && C.Connected(d')
      && |d'.wire| == 1 && |d'.wire[0]| >= 2 && Signal(d'.wire[0]) == SIGNAL_DISCOVER
  {}

  lemma ReopenReaches(w: World) returns (ms: seq<Move>)
    requires Inv(w) && w.d.hasInterface && w.d.remoteAddress != 0 && w.d.signalingHandle == 0
    ensures ReachesStreaming(w, ms)
  {
    hide Inv, OpenSignaling, ConformingRun, RunWorld;
    ms := [Move(Timer, 0), Move(ReconnectWork(Opened(1), Submitted), 0)];
    ClosedIsClean(w);
    var w1 := Next(w, ms[0]);
    assert w1.outstanding == [];
    var w2 := Next(w1, ms[1]);
    ReopenSends(w1.d.(reconnectQueued := false));
    assert w2.outstanding == w2.d.wire;
    StepKeepsInv(w, ms[0]);
    StepKeepsInv(w1, ms[1]);
    TwoMoves(w, ms[0], ms[1]);
    P.ForbiddenSeidHides();
    var rest := LiveReaches(w2, ONE_SINK, []);
    RunAppend(w, ms, rest);
    ms := ms + rest;
  }

  // ---- Main results ------------------------------------------------------------------------

  lemma {:induction false} WorldKeepsAttached(w: World, ms: seq<Move>)
    requires S.Attached(w.d) && ConformingRun(w, ms)
    ensures S.Attached(RunWorld(w, ms).d) && S.SameDevice(w.d, RunWorld(w, ms).d)
    decreases |ms|
  {
    hide Step, S.Attached;
    if ms != [] {
      S.StepKeepsAttached(w.d, ms[0].e);
      WorldKeepsAttached(Next(w, ms[0]), ms[1..]);
    }
  }

  lemma Reachable(hasInterface: bool, remoteAddress: u64, open: OpenOutcome, o: SendOutcome, ms: seq<Move>)
    requires ConformingRun(Start(DeviceAdded(hasInterface, remoteAddress, open, o)), ms)
    ensures var w := RunWorld(Start(DeviceAdded(hasInterface, remoteAddress, open, o)), ms);
      Inv(w) && S.Attached(w.d) && w.d.hasInterface == hasInterface && w.d.remoteAddress == remoteAddress
  {
    hide Inv;
    var w := Start(DeviceAdded(hasInterface, remoteAddress, open, o));
    StartInv(hasInterface, remoteAddress, open, o);
    RunKeepsInv(w, ms);
    WorldKeepsAttached(w, ms);
  }

  /** In every reachable state, with any history of failed sends and opens, lost and rejecting
      answers, disconnects and switches: the session can still reach Streaming without a
      disconnect exactly when the driver knows its device and is not stalled. */
  lemma StreamsAgainExactly(hasInterface: bool, remoteAddress: u64, open: OpenOutcome, o: SendOutcome, ms: seq<Move>)
    requires ConformingRun(Start(DeviceAdded(hasInterface, remoteAddress, open, o)), ms)
    ensures var w := RunWorld(Start(DeviceAdded(hasInterface, remoteAddress, open, o)), ms);
      CanStream(w) <==> hasInterface && remoteAddress != 0 && !Stalled(w)
  {
    var w := RunWorld(Start(DeviceAdded(hasInterface, remoteAddress, open, o)), ms);
    Reachable(hasInterface, remoteAddress, open, o, ms);
    if hasInterface && remoteAddress != 0 && !Stalled(w) {
      NotStalledReaches(w);
    } else if CanStream(w) {
      var more :| ReachesStreaming(w, more);
      NeverStreams(w, more);
    }
  }

  lemma NotStalledReaches(w: World)
    requires Inv(w) && w.d.hasInterface && w.d.remoteAddress != 0 && !Stalled(w)
    ensures CanStream(w)
  {
    hide Inv, Stalled, Live;
    if w.d.signalingHandle == 0 {
      var more := ReopenReaches(w);
    } else if w.d.state == Streaming {
      assert ReachesStreaming(w, []);
    } else {
      NotStalledLives(w);
      P.ForbiddenSeidHides();
      var more := LiveReaches(w, ONE_SINK, []);
    }
  }

  lemma NotStalledLives(w: World)
    requires Inv(w) && w.d.signalingHandle != 0 && w.d.state != Streaming && !Stalled(w)
    ensures Live(w)
  {
    hide Clean, InCycle, SameEndpoint, NamesEndpoint, CodecAgreed, Signal;
    var c :| c in w.outstanding && !(|c| >= 2 && Signal(c) == SIGNAL_SUSPEND);
    Position(w.d.wire);
  }

  lemma NeverStreams(w: World, ms: seq<Move>)
    requires Inv(w) && S.Attached(w.d)
    requires !w.d.hasInterface || w.d.remoteAddress == 0 || Stalled(w)
    ensures !ReachesStreaming(w, ms)
  {
    hide Inv, Stalled;
    if ConformingRun(w, ms) && NoDisconnect(ms) {
      if Stalled(w) {
        StalledUntilDisconnect(w, ms);
        StalledIsSilent(RunWorld(w, ms));
      } else {
        RunKeepsInv(w, ms);
        WorldKeepsAttached(w, ms);
        ClosedIsClean(RunWorld(w, ms));
      }
    }
  }

  lemma StalledIsSilent(w: World)
    requires Stalled(w)
    ensures w.d.state != Streaming
  {}

  /** After an accepted answer to DISCOVER the session can still stream exactly when the
      answer offered a free audio sink with a permitted SEID and the next command went out. A
      switch sends SUSPEND but never CLOSE, so a peer whose only sink is the one in use has
      none to offer. */
  lemma SinkDecides(w: World, m: Move)
    requires Inv(w) && C.Connected(w.d) && Conforming(w, m) && Delivers(w.d, m.e)
    requires m.e.read.data[0] % 4 == MESSAGE_ACCEPT && Signal(m.e.read.data) == SIGNAL_DISCOVER
    ensures var w' := Next(w, m);
      && (CanStream(w') <==> P.FreeSinkSeid(m.e.read.data[2..]) != P.SEID_NONE && m.e.send == Submitted)
      && (Stalled(w') <==> !CanStream(w'))
  {
    hide Inv, Stalled, CanStream, Conforming, Step, HandlePacket, P.FreeSinkSeid;
    var w' := Next(w, m);
    SinkStalls(w, m);
    StepKeepsInv(w, m);
    S.StepKeepsAttached(w.d, m.e);
    if Stalled(w') {
      StalledCannot(w');
    } else {
      NotStalledReaches(w');
    }
  }

  lemma SinkStalls(w: World, m: Move)
    requires Inv(w) && C.Connected(w.d) && Conforming(w, m) && Delivers(w.d, m.e)
    requires m.e.read.data[0] % 4 == MESSAGE_ACCEPT && Signal(m.e.read.data) == SIGNAL_DISCOVER
    ensures Stalled(Next(w, m)) <==> P.FreeSinkSeid(m.e.read.data[2..]) == P.SEID_NONE || m.e.send != Submitted
    ensures S.SameDevice(w.d, Next(w, m).d) && Next(w, m).d.signalingHandle == w.d.signalingHandle
  {
    hide Inv, P.FreeSinkSeid, P.EncodeSeid, SendCommand, OnGetCapabilities, OnSetConfiguration, OnOpen;
    LiveAnswer(w, m.answers);
    var taken := w.d.(avdtpQueued := false, pendingRecvLen := 0);
    var data := m.e.read.data[2..];
    var seid := P.FreeSinkSeid(data);
    GoesOutExactly(taken.(remoteSeid := seid, state := Configuring), SIGNAL_GET_CAPABILITIES,
                   [P.EncodeSeid(seid)], m.e.send);
    assert Next(w, m).d == OnDiscover(taken, data, m.e.send);
    assert Next(w, m).outstanding == Sent(w.d, Next(w, m).d);
  }

  lemma GoesOutExactly(d: Driver, signal: byte, payload: seq<byte>, o: SendOutcome)
    requires C.Connected(d) && |payload| <= 0xFFFD && signal < 64 && signal != SIGNAL_SUSPEND
    ensures var d' := SendCommand(d, signal, payload, o).0;
      && d' == d.(transactionId := d'.transactionId, wire := d'.wire)
      && (AllSuspend(Sent(d, d')) <==> o != Submitted)
  {
    var d' := SendCommand(d, signal, payload, o).0;
    if o == Submitted {
      assert Sent(d, d') == [Last(d'.wire)];
      assert Last(d'.wire) in Sent(d, d');
    } else {
      assert Sent(d, d') == [];
    }
  }

  lemma StalledCannot(w: World)
    requires Inv(w) && S.Attached(w.d) && Stalled(w)
    ensures !CanStream(w)
  {
    hide Inv, Stalled, ReachesStreaming;
    forall ms ensures !ReachesStreaming(w, ms) {
      NeverStreams(w, ms);
    }
  }

  // ---- Idle with an open channel ---------------------------------------------------------------

  predicate IdleOpen(w: World) {
    w.d.state == Idle && w.d.signalingHandle != 0
  }

  /** OPEN was accepted, but the media channel could not be opened. */
  predicate MediaChannelFails(w: World, m: Move) {
    && Delivers(w.d, m.e) && m.e.read.data[0] % 4 == MESSAGE_ACCEPT && Signal(m.e.read.data) == SIGNAL_OPEN
    && !m.e.open.Opened?
  }

  /** A codec switch suspended the stream, but DISCOVER could not be sent. */
  predicate RestartFails(w: World, m: Move) {
    && m.e.CodecConfigRequest? && SwitchRequested(m.e.buf) && w.d.state == Streaming
    && m.e.suspend == Submitted && m.e.discover != Submitted
  }

  lemma PacketToIdle(d: Driver, data: seq<byte>, open: OpenOutcome, o: SendOutcome)
    requires C.Connected(d) && d.state != Idle
    ensures var d' := HandlePacket(d, data, open, o);
      var fails := |data| >= 2 && data[0] % 4 == MESSAGE_ACCEPT && Signal(data) == SIGNAL_OPEN && !open.Opened?;
      && (d'.state == Idle <==> fails)
      && (fails ==> d' == d.(state := Idle))
  {
    hide P.SelectedCodec, P.SetConfigurationPayload, P.FreeSinkSeid, P.EncodeSeid;
  }

  lemma SwitchToIdle(d: Driver, codecId: u32, suspend: SendOutcome, discover: SendOutcome)
    requires C.Connected(d) && d.state == Streaming
    ensures var d' := SetPreferredCodec(d, codecId, suspend, discover).0;
      var fails := suspend == Submitted && discover != Submitted;
      && d'.signalingHandle == d.signalingHandle
      && (d'.state == Idle <==> fails)
      && (fails ==> |d'.wire| == |d.wire| + 1 && d'.wire[..|d.wire|] == d.wire
                    && |Last(d'.wire)| >= 2 && Signal(Last(d'.wire)) == SIGNAL_SUSPEND)
  {
    hide P.EncodeSeid;
  }

  lemma DeliveryEntersIdleOpen(w: World, m: Move)
    requires Inv(w) && C.Connected(w.d) && Conforming(w, m) && Delivers(w.d, m.e) && w.d.state != Idle
    ensures IdleOpen(Next(w, m)) <==> MediaChannelFails(w, m)
    ensures IdleOpen(Next(w, m)) ==> Stalled(Next(w, m))
  {
    hide Inv, HandlePacket;
    var taken := w.d.(avdtpQueued := false, pendingRecvLen := 0);
    PacketToIdle(taken, m.e.read.data, m.e.open, m.e.send);
    S.PacketSameDevice(taken, m.e.read.data, m.e.open, m.e.send);
    if MediaChannelFails(w, m) {
      LiveAnswer(w, m.answers);
      assert Next(w, m).outstanding == [];
    }
  }

  lemma SwitchEntersIdleOpen(w: World, m: Move)
    requires w.outstanding == [] && C.Connected(w.d) && m.e.CodecConfigRequest? && w.d.state == Streaming
    ensures IdleOpen(Next(w, m)) <==> RestartFails(w, m)
    ensures IdleOpen(Next(w, m)) ==> Stalled(Next(w, m))
  {
    hide SetPreferredCodec;
    if SwitchRequested(m.e.buf) {
      SwitchToIdle(w.d, FromLittleEndian32(m.e.buf[..4]), m.e.suspend, m.e.discover);
    }
  }

  lemma ClosedStaysOutOfIdleOpen(w: World, m: Move)
    requires Inv(w) && w.d.signalingHandle == 0 && Conforming(w, m)
    ensures !IdleOpen(Next(w, m)) && !MediaChannelFails(w, m) && !RestartFails(w, m)
  {
    hide Inv, HandlePacket, SetPreferredCodec;
    ClosedIsClean(w);
    if m.e.CodecConfigRequest? && SwitchRequested(m.e.buf) {
      NotStreaming(w.d, FromLittleEndian32(m.e.buf[..4]), m.e.suspend, m.e.discover);
    }
  }

  /** The only two ways into it, both leaving nothing to wait for. */
  lemma EntersIdleOpen(w: World, m: Move)
    requires Inv(w) && S.Attached(w.d) && Conforming(w, m) && !IdleOpen(w)
    ensures IdleOpen(Next(w, m)) <==> MediaChannelFails(w, m) || RestartFails(w, m)
    ensures IdleOpen(Next(w, m)) ==> Stalled(Next(w, m))
  {
    hide Inv, HandlePacket, SetPreferredCodec, Stalled;
    if w.d.signalingHandle == 0 {
      ClosedStaysOutOfIdleOpen(w, m);
    } else if Delivers(w.d, m.e) {
      DeliveryEntersIdleOpen(w, m);
    } else if m.e.SignalingWork? && Processes(w.d, m.e.read) {
      PacketToIdle(w.d.(avdtpQueued := false, pendingRecvLen := 0), m.e.read.data, m.e.open, m.e.send);
    } else if m.e.CodecConfigRequest? && w.d.state == Streaming {
      InvSettled(w);
      SwitchEntersIdleOpen(w, m);
    } else if m.e.CodecConfigRequest? && SwitchRequested(m.e.buf) {
      NotStreaming(w.d, FromLittleEndian32(m.e.buf[..4]), m.e.suspend, m.e.discover);
    }
  }

  lemma {:induction false} RunKeepsIdleStalled(w: World, ms: seq<Move>)
    requires Inv(w) && S.Attached(w.d) && ConformingRun(w, ms)
    requires IdleOpen(w) ==> Stalled(w)
    ensures IdleOpen(RunWorld(w, ms)) ==> Stalled(RunWorld(w, ms))
    decreases |ms|
  {
    hide Inv, Stalled, S.Attached, Step, Conforming;
    if ms != [] {
      var m := ms[0];
      StepKeepsInv(w, m);
      S.StepKeepsAttached(w.d, m.e);
      IdleStaysStalled(w, m);
      RunKeepsIdleStalled(Next(w, m), ms[1..]);
    }
  }

  lemma IdleStaysStalled(w: World, m: Move)
    requires Inv(w) && S.Attached(w.d) && Conforming(w, m)
    requires IdleOpen(w) ==> Stalled(w)
    ensures IdleOpen(Next(w, m)) ==> Stalled(Next(w, m))
  {
    hide Inv, Stalled, S.Attached, Step, Conforming;
    if !IdleOpen(w) {
      EntersIdleOpen(w, m);
    } else if m.e.RemoteDisconnect? {
      assert Next(w, m).d == Step(w.d, m.e);
      DisconnectCloses(w.d);
    } else {
      StalledStays(w, m);
    }
  }

  lemma DisconnectCloses(d: Driver)
    ensures Step(d, RemoteDisconnect).signalingHandle == 0
  {}

  /** The timer is described as re-opening the channel whenever AVDTP is Idle. In every
      reachable state that is Idle with the channel still open it does not: the session is
      stalled until the peer disconnects. */
  lemma IdleOpenIsStalled(hasInterface: bool, remoteAddress: u64, open: OpenOutcome, o: SendOutcome, ms: seq<Move>)
    requires ConformingRun(Start(DeviceAdded(hasInterface, remoteAddress, open, o)), ms)
    ensures var w := RunWorld(Start(DeviceAdded(hasInterface, remoteAddress, open, o)), ms);
      IdleOpen(w) ==> Stalled(w) && !ShouldReconnect(w.d) && !CanStream(w)
  {
    hide Inv, Stalled, CanStream;
    var w0 := Start(DeviceAdded(hasInterface, remoteAddress, open, o));
    StartInv(hasInterface, remoteAddress, open, o);
    RunKeepsIdleStalled(w0, ms);
    StreamsAgainExactly(hasInterface, remoteAddress, open, o, ms);
  }

  /** The state EvtDeviceAdd leaves when the channel opens and DISCOVER goes out. */
  ghost function Opening(): World {
    Start(DeviceAdded(true, 1, Opened(1), Submitted))
  }

  /** A run that streams SBC. */
  lemma FirstStream() returns (ms: seq<Move>)
    ensures ReachesStreaming(Opening(), ms)
    ensures var w := RunWorld(Opening(), ms);
      Inv(w) && C.Connected(w.d) && w.d.activeCodecId == w.d.preferredCodecId == CODEC_SBC
  {
    hide Inv, ReachesStreaming, RunWorld, Opening, P.ContainsCodec;
    P.ForbiddenSeidHides();
    OpeningLives();
    ms := LiveReaches(Opening(), ONE_SINK, []);
  }

  /** Idle with an open channel is reached: stream, then a switch whose SUSPEND goes out and
      whose DISCOVER does not. */
  lemma IdleOpenReached() returns (ms: seq<Move>)
    ensures ConformingRun(Opening(), ms) && IdleOpen(RunWorld(Opening(), ms))
  {
    hide Inv, ConformingRun, RunWorld, NoDisconnect, Opening, Next, C.CodecConfigBuffer, SwitchRequested;
    hide MediaChannelFails, SetCodecConfig, IdleOpen;
    ms := FirstStream();
    var w := RunWorld(Opening(), ms);
    var m := Move(CodecConfigRequest(C.CodecConfigBuffer(CODEC_LDAC, SwitchKey(), 0), Submitted, NoPool), 0);
    C.RequestDispatch(w.d, CODEC_LDAC, SwitchKey(), 0, Submitted, NoPool);
    assert RestartFails(w, m) && !IdleOpen(w) by { StreamingIsNotIdle(w); }
    EntersIdleOpen(w, m);
    OneMove(w, m);
    RunAppend(Opening(), ms, [m]);
    ms := ms + [m];
  }

  /** The parameter key of a codec switch. */
  function SwitchKey(): (key: seq<byte>)
    ensures |key| >= 2 && key[0] == 's' as int && key[1] == 'w' as int
  {
    Ascii("switch")
  }

  lemma StreamingIsNotIdle(w: World)
    requires w.d.state == Streaming
    ensures !IdleOpen(w)
  {}

  lemma OpeningLives()
    ensures var w := Opening();
      Inv(w) && C.Connected(w.d) && Live(w) && Place(w) == 1 && w.d.preferredCodecId == CODEC_SBC
  {
    hide Inv;
    StartInv(true, 1, Opened(1), Submitted);
    ReopenSends(Zeroed(true, 1));
  }

  lemma OneMove(w: World, m: Move)
    requires Conforming(w, m)
    ensures ConformingRun(w, [m]) && RunWorld(w, [m]) == Next(w, m)
  {
    hide Conforming, Next;
    assert [m][1..] == [];
  }

  // ---- The state follows the commands -------------------------------------------------------------

  /** Which states the driver can be in after how many commands of a round. Configuring after
      DISCOVER, Idle after OPEN and Idle after SUSPEND are where a send or the media channel
      failed. */
  predicate StateFits(w: World) {
    if w.d.signalingHandle == 0 then w.d.state == Idle
    else match Place(w)
      case 0 => w.d.state == if w.d.wire == [] then Connecting else Idle
      case 1 => w.d.state in {Discovering, Configuring}
      case 2 => w.d.state == Configuring
      case 3 => w.d.state == Configured
      case 4 => w.d.state in {Open, Idle}
      case _ => w.d.state in {Open, Streaming}
  }

  lemma AnswerKeepsFit(w: World, m: Move)
    requires Inv(w) && StateFits(w) && (IdleOpen(w) ==> Stalled(w))
    requires Conforming(w, m) && Delivers(w.d, m.e)
    ensures StateFits(Next(w, m))
  {
    hide Inv, HandlePacket, P.FreeSinkSeid, OpenMedia, InCycle, Stalled;
    var data := m.e.read.data;
    var taken := w.d.(avdtpQueued := false, pendingRecvLen := 0);
    S.PacketEffect(taken, data, m.e.open, m.e.send);
    S.PacketState(taken, data, m.e.open, m.e.send);
    S.PacketSameDevice(taken, data, m.e.open, m.e.send);
    if data[0] % 4 == MESSAGE_ACCEPT && Signal(data) != SIGNAL_SUSPEND {
      LiveAnswer(w, m.answers);
      Position(w.d.wire);
      LiveIsNotStalled(w, m.answers);
    }
  }

  lemma LiveIsNotStalled(w: World, n: nat)
    requires n < |w.outstanding| && |w.outstanding[n]| >= 2 && Signal(w.outstanding[n]) != SIGNAL_SUSPEND
    ensures !Stalled(w)
  {
    assert w.outstanding[n] in w.outstanding;
  }

  lemma SwitchKeepsFit(d: Driver, codecId: u32, suspend: SendOutcome, discover: SendOutcome)
    requires d.signalingHandle != 0 && d.hasInterface && d.state == Streaming && |d.wire| % 6 == 5
    ensures var d' := SetPreferredCodec(d, codecId, suspend, discover).0;
      && d'.signalingHandle != 0
      && match |d'.wire| % 6
         case 5 => d'.state == Streaming
         case 0 => d'.state == Idle && d'.wire != []
         case 1 => d'.state == Discovering
         case _ => false
  {
    hide P.EncodeSeid;
  }

  lemma StepKeepsFit(w: World, m: Move)
    requires Inv(w) && S.Attached(w.d) && StateFits(w) && (IdleOpen(w) ==> Stalled(w)) && Conforming(w, m)
    ensures StateFits(Next(w, m))
  {
    hide Inv, HandlePacket, SetPreferredCodec, SendAudioFrame, OpenSignaling, Stalled;
    match m.e
    case SignalingWork(read, open, o) =>
      if Delivers(w.d, m.e) {
        AnswerKeepsFit(w, m);
      } else if Processes(w.d, read) {
        ShortPacket(w.d.(avdtpQueued := false, pendingRecvLen := 0), read.data, open, o);
      }
    case CodecConfigRequest(buf, suspend, discover) =>
      if SwitchRequested(buf) {
        if w.d.state == Streaming {
          StreamingPlace(w);
          SwitchKeepsFit(w.d, FromLittleEndian32(buf[..4]), suspend, discover);
        } else {
          NotStreaming(w.d, FromLittleEndian32(buf[..4]), suspend, discover);
        }
      }
    case ReconnectWork(open, o) =>
      if ShouldReconnect(w.d) {
        ClosedIsClean(w);
        OpenedFits(w.d.(reconnectQueued := false), open, o);
      }
    case AudioFrameRequest(buf, o) =>
      FrameEffect(w.d, buf, o);
    case _ =>
  }

  lemma OpenedFits(d: Driver, open: OpenOutcome, o: SendOutcome)
    requires d.signalingHandle == 0 && d.state == Idle && d.wire == []
    ensures StateFits(Start(OpenSignaling(d, open, o)))
  {}

  lemma ShortPacket(d: Driver, data: seq<byte>, open: OpenOutcome, o: SendOutcome)
    requires |data| < 2
    ensures HandlePacket(d, data, open, o) == d
  {}

  lemma FrameEffect(d: Driver, buf: seq<byte>, o: SendOutcome)
    ensures var d' := SendAudioFrame(d, buf, o).0;
      d' == d.(rtpSeqNum := d'.rtpSeqNum, rtpTimestamp := d'.rtpTimestamp, media := d'.media)
  {}

  lemma StreamingPlace(w: World)
    requires Inv(w) && w.d.state == Streaming
    ensures Place(w) == 5 && w.d.signalingHandle != 0
  {
    hide SameEndpoint, NamesEndpoint, OneLiveCommand, CodecAgreed;
    Position(w.d.wire);
  }

  lemma {:induction false} RunKeepsFit(w: World, ms: seq<Move>)
    requires Inv(w) && S.Attached(w.d) && StateFits(w) && (IdleOpen(w) ==> Stalled(w)) && ConformingRun(w, ms)
    ensures StateFits(RunWorld(w, ms))
    decreases |ms|
  {
    hide Inv, Stalled, S.Attached, Step, Conforming, StateFits;
    if ms != [] {
      var m := ms[0];
      StepKeepsInv(w, m);
      S.StepKeepsAttached(w.d, m.e);
      StepKeepsFit(w, m);
      IdleStaysStalled(w, m);
      RunKeepsFit(Next(w, m), ms[1..]);
    }
  }

  /** Over every run the reported state tells how far the round has come. */
  lemma StateFollowsCommands(hasInterface: bool, remoteAddress: u64, open: OpenOutcome, o: SendOutcome, ms: seq<Move>)
    requires ConformingRun(Start(DeviceAdded(hasInterface, remoteAddress, open, o)), ms)
    ensures StateFits(RunWorld(Start(DeviceAdded(hasInterface, remoteAddress, open, o)), ms))
  {
    hide Inv, Stalled, StateFits;
    var w0 := Start(DeviceAdded(hasInterface, remoteAddress, open, o));
    StartInv(hasInterface, remoteAddress, open, o);
    OpenedFits(Zeroed(hasInterface, remoteAddress), open, o);
    RunKeepsFit(w0, ms);
  }
}
