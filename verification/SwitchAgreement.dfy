/** Whether what streams is what was negotiated. The service switches pipeline and driver to the
    same codec; the pipeline keeps it, the driver treats it as a preference. */
module SwitchAgreement {
  import opened ByteTypes
  import opened A2dpDriver
  import opened ConformingSession
  import opened StalledSession
  import opened TextFields
  import C = CodecSwitch
  import P = AvdtpPackets
  import S = DriverSafety

  /** The preference and the capabilities a round's codec was chosen from. */
  datatype Choice = Choice(preferred: u32, caps: seq<byte>)

  /** A world and the choice last made in it. */
  datatype Track = Track(w: World, choice: Option<Choice>)

  /** The driver handles the capabilities of its endpoint. */
  predicate Chooses(w: World, m: Move) {
    Delivers(w.d, m.e) && S.Accepts(m.e.read.data, 2)
  }

  ghost function NextTrack(t: Track, m: Move): Track
    requires Conforming(t.w, m)
  {
    Track(Next(t.w, m), if Chooses(t.w, m) then Some(Choice(t.w.d.preferredCodecId, m.e.read.data[2..])) else t.choice)
  }

  ghost function RunTrack(t: Track, ms: seq<Move>): Track
    requires ConformingRun(t.w, ms)
    decreases |ms|
  {
    if ms == [] then t else RunTrack(NextTrack(t, ms[0]), ms[1..])
  }

  lemma {:induction false} RunTrackWorld(t: Track, ms: seq<Move>)
    requires ConformingRun(t.w, ms)
    ensures RunTrack(t, ms).w == RunWorld(t.w, ms)
    decreases |ms|
  {
    hide Conforming, Next, Chooses;
    if ms != [] {
      RunTrackWorld(NextTrack(t, ms[0]), ms[1..]);
    }
  }

  // ---- Invariant ------------------------------------------------------------------------

  ghost predicate ChosenBy(pending: u32, choice: Option<Choice>) {
    choice.Some? && pending == P.SelectedCodec(choice.value.preferred, choice.value.caps)
  }

  /** From SET_CONFIGURATION on the pending codec is the one chosen, from OPEN on the active
      one is the pending one. */
  ghost predicate TrackInv(t: Track) {
    && Inv(t.w) && S.Attached(t.w.d)
    && (3 <= Place(t.w) ==> ChosenBy(t.w.d.pendingCodecId, t.choice))
    && (4 <= Place(t.w) ==> t.w.d.activeCodecId == t.w.d.pendingCodecId)
  }

  /** What a move does to place and codecs. */
  lemma AnswerEffect(w: World, m: Move)
    requires Inv(w) && Conforming(w, m) && Delivers(w.d, m.e)
    ensures var w' := Next(w, m);
      && w'.d.preferredCodecId == w.d.preferredCodecId
      && (Place(w') == Place(w) || (1 <= Place(w) <= 4 && Place(w') == Place(w) + 1))
      && (Chooses(w, m) ==> Place(w) == 2)
      && (Place(w) == 2 && Place(w') == 3 ==>
            Chooses(w, m) && w'.d.pendingCodecId == P.SelectedCodec(w.d.preferredCodecId, m.e.read.data[2..]))
      && (Place(w) != 2 ==> w'.d.pendingCodecId == w.d.pendingCodecId)
      && (Place(w) == 3 && Place(w') == 4 ==> w'.d.activeCodecId == w.d.pendingCodecId)
      && (4 <= Place(w) ==> w'.d.activeCodecId == w.d.activeCodecId)
  {
    hide Inv, HandlePacket, P.SelectedCodec;
    var data := m.e.read.data;
    var taken := w.d.(avdtpQueued := false, pendingRecvLen := 0);
    S.PacketEffect(taken, data, m.e.open, m.e.send);
    if data[0] % 4 == MESSAGE_ACCEPT && Signal(data) != SIGNAL_SUSPEND {
      LiveAnswer(w, m.answers);
      Position(w.d.wire);
    }
  }

  lemma SwitchingEffect(d: Driver, codecId: u32, suspend: SendOutcome, discover: SendOutcome)
    requires d.signalingHandle != 0 && d.hasInterface
    ensures var d' := SetPreferredCodec(d, codecId, suspend, discover).0;
      && d'.preferredCodecId == codecId
      && d'.activeCodecId == d.activeCodecId && d'.pendingCodecId == d.pendingCodecId
      && (if d.state == Streaming && suspend == Submitted
          then |d.wire| + 1 <= |d'.wire| <= |d.wire| + 2
          else d'.wire == d.wire && d'.state == d.state)
  {
    hide P.EncodeSeid;
  }

  lemma SwitchEffect(w: World, m: Move)
    requires Inv(w) && S.Attached(w.d) && Conforming(w, m) && IsSwitch(m.e)
    ensures var w' := Next(w, m);
      && w'.d.preferredCodecId == FromLittleEndian32(m.e.buf[..4])
      && w'.d.activeCodecId == w.d.activeCodecId && w'.d.pendingCodecId == w.d.pendingCodecId
      && (if w.d.state == Streaming && m.e.suspend == Submitted
          then Place(w') <= 1
          else Place(w') == Place(w) && w'.d.state == w.d.state)
  {
    hide Inv, SetPreferredCodec;
    var codecId := FromLittleEndian32(m.e.buf[..4]);
    if w.d.state == Streaming {
      StreamingPlace(w);
      SwitchingEffect(w.d, codecId, m.e.suspend, m.e.discover);
    } else {
      NotStreaming(w.d, codecId, m.e.suspend, m.e.discover);
    }
  }

  /** Every other move leaves the codecs alone; a disconnect and a reconnect restart the
      session. */
  lemma OtherEffect(w: World, m: Move)
    requires Inv(w) && Conforming(w, m) && !Delivers(w.d, m.e) && !IsSwitch(m.e)
    ensures var w' := Next(w, m);
      && w'.d.preferredCodecId == w.d.preferredCodecId
      && w'.d.activeCodecId == w.d.activeCodecId && w'.d.pendingCodecId == w.d.pendingCodecId
      && (m.e.RemoteDisconnect? ==> Place(w') == 0)
      && (!m.e.RemoteDisconnect? ==> Place(w') == Place(w) || (Place(w) == 0 && Place(w') == 1))
  {
    hide Inv, HandlePacket, SendAudioFrame, OpenSignaling;
    match m.e
    case SignalingWork(read, open, o) =>
      if Processes(w.d, read) {
        assert |read.data| < 2;
        ShortPacket(w.d.(avdtpQueued := false, pendingRecvLen := 0), read.data, open, o);
      }
    case AudioFrameRequest(buf, o) =>
      FrameEffect(w.d, buf, o);
    case ReconnectWork(open, o) =>
      if w.d.signalingHandle == 0 {
        ClosedIsClean(w);
      }
      ReopenEffect(w.d.(reconnectQueued := false), open, o);
    case _ =>
  }

  lemma ReopenEffect(d: Driver, open: OpenOutcome, o: SendOutcome)
    ensures var d' := OpenSignaling(d, open, o);
      && d'.preferredCodecId == d.preferredCodecId
      && d'.activeCodecId == d.activeCodecId && d'.pendingCodecId == d.pendingCodecId
      && (d' == d || |d'.wire| <= 1)
  {}

  lemma StepKeepsTrack(t: Track, m: Move)
    requires TrackInv(t) && Conforming(t.w, m)
    ensures TrackInv(NextTrack(t, m))
  {
    hide Inv, Next, Conforming, ChosenBy, Place;
    StepKeepsInv(t.w, m);
    AttachedNext(t.w, m);
    if Delivers(t.w.d, m.e) {
      AnswerEffect(t.w, m);
      ChosenNow(t.w.d.preferredCodecId, m.e.read.data[2..]);
    } else if IsSwitch(m.e) {
      SwitchEffect(t.w, m);
    } else {
      OtherEffect(t.w, m);
    }
  }

  lemma ChosenNow(preferred: u32, caps: seq<byte>)
    ensures ChosenBy(P.SelectedCodec(preferred, caps), Some(Choice(preferred, caps)))
  {}

  lemma AttachedNext(w: World, m: Move)
    requires S.Attached(w.d) && Conforming(w, m)
    ensures S.Attached(Next(w, m).d)
  {
    hide Step, S.Attached, Conforming;
    S.StepKeepsAttached(w.d, m.e);
  }

  // ---- The choice is fresh, or pinned --------------------------------------------------------

  /** No codec was chosen in this round, or it was chosen from today's preference. */
  predicate Fresh(t: Track) {
    3 <= Place(t.w) ==> t.choice.Some? && t.choice.value.preferred == t.w.d.preferredCodecId
  }

  lemma StepKeepsFresh(t: Track, m: Move)
    requires TrackInv(t) && Conforming(t.w, m) && !IsSwitch(m.e)
    requires Fresh(t) || m.e.RemoteDisconnect?
    ensures Fresh(NextTrack(t, m)) && NextTrack(t, m).w.d.preferredCodecId == t.w.d.preferredCodecId
  {
    hide Inv, Next, Conforming, Place;
    if Delivers(t.w.d, m.e) {
      AnswerEffect(t.w, m);
    } else {
      OtherEffect(t.w, m);
    }
  }

  lemma StepKeepsPinned(t: Track, m: Move)
    requires TrackInv(t) && Conforming(t.w, m) && !IsSwitch(m.e) && !m.e.RemoteDisconnect?
    requires 3 <= Place(t.w)
    ensures var t' := NextTrack(t, m);
      && 3 <= Place(t'.w) && t'.w.d.pendingCodecId == t.w.d.pendingCodecId
      && t'.w.d.preferredCodecId == t.w.d.preferredCodecId
  {
    hide Inv, Next, Conforming, Place;
    if Delivers(t.w.d, m.e) {
      AnswerEffect(t.w, m);
    } else {
      OtherEffect(t.w, m);
    }
  }

  lemma {:induction false} RunKeepsTrack(t: Track, ms: seq<Move>)
    requires TrackInv(t) && ConformingRun(t.w, ms)
    ensures TrackInv(RunTrack(t, ms))
    decreases |ms|
  {
    hide TrackInv, Conforming;
    if ms != [] {
      StepKeepsTrack(t, ms[0]);
      RunKeepsTrack(NextTrack(t, ms[0]), ms[1..]);
    }
  }

  /** Without another switch the choice stays fresh, and a disconnect makes it so. */
  lemma {:induction false} RunKeepsFresh(t: Track, ms: seq<Move>)
    requires TrackInv(t) && ConformingRun(t.w, ms) && NoSwitch(ms)
    requires Fresh(t) || !NoDisconnect(ms)
    ensures Fresh(RunTrack(t, ms)) && RunTrack(t, ms).w.d.preferredCodecId == t.w.d.preferredCodecId
    decreases |ms|
  {
    hide TrackInv, Conforming, NextTrack, Fresh;
    if ms != [] {
      var t1 := NextTrack(t, ms[0]);
      assert ms[0] in ms && forall m <- ms[1..] :: m in ms;
      assert forall m <- ms :: m == ms[0] || m in ms[1..];
      StepKeepsTrack(t, ms[0]);
      TrackPreference(t, ms[0]);
      if Fresh(t) || ms[0].e.RemoteDisconnect? {
        StepKeepsFresh(t, ms[0]);
      }
      assert t1.w == Next(t.w, ms[0]) by { NextTrackWorld(t, ms[0]); }
      RunKeepsFresh(t1, ms[1..]);
    }
  }

  lemma NextTrackWorld(t: Track, m: Move)
    requires Conforming(t.w, m)
    ensures NextTrack(t, m).w == Next(t.w, m)
  {}

  lemma TrackPreference(t: Track, m: Move)
    requires TrackInv(t) && Conforming(t.w, m) && !IsSwitch(m.e)
    ensures NextTrack(t, m).w.d.preferredCodecId == t.w.d.preferredCodecId
  {
    hide Inv, Next, Conforming, Place;
    if Delivers(t.w.d, m.e) {
      AnswerEffect(t.w, m);
    } else {
      OtherEffect(t.w, m);
    }
  }

  lemma {:induction false} RunKeepsPinned(t: Track, ms: seq<Move>)
    requires TrackInv(t) && ConformingRun(t.w, ms) && NoSwitch(ms) && NoDisconnect(ms) && 3 <= Place(t.w)
    ensures var t' := RunTrack(t, ms);
      && 3 <= Place(t'.w) && t'.w.d.pendingCodecId == t.w.d.pendingCodecId
      && t'.w.d.preferredCodecId == t.w.d.preferredCodecId
    decreases |ms|
  {
    hide TrackInv, Conforming, NextTrack, Place;
    if ms != [] {
      var t1 := NextTrack(t, ms[0]);
      assert ms[0] in ms && forall m <- ms[1..] :: m in ms;
      StepKeepsTrack(t, ms[0]);
      StepKeepsPinned(t, ms[0]);
      NextTrackWorld(t, ms[0]);
      RunKeepsPinned(t1, ms[1..]);
    }
  }

  // ---- Main results ------------------------------------------------------------------------------

  lemma ReachableTrack(hasInterface: bool, remoteAddress: u64, open: OpenOutcome, o: SendOutcome, ms: seq<Move>)
    requires ConformingRun(Start(DeviceAdded(hasInterface, remoteAddress, open, o)), ms)
    ensures TrackInv(RunTrack(Track(Start(DeviceAdded(hasInterface, remoteAddress, open, o)), None), ms))
  {
    hide Inv, ConformingRun;
    var w := Start(DeviceAdded(hasInterface, remoteAddress, open, o));
    StartInv(hasInterface, remoteAddress, open, o);
    StartPlace(hasInterface, remoteAddress, open, o);
    RunKeepsTrack(Track(w, None), ms);
  }

  lemma StartPlace(hasInterface: bool, remoteAddress: u64, open: OpenOutcome, o: SendOutcome)
    ensures var w := Start(DeviceAdded(hasInterface, remoteAddress, open, o)); Place(w) <= 1 && S.Attached(w.d)
  {}

  /** In every reachable Streaming state the active codec is the one selected from the
      capabilities last answered and the preference of that moment. */
  lemma StreamsTheChoice(hasInterface: bool, remoteAddress: u64, open: OpenOutcome, o: SendOutcome, ms: seq<Move>)
    requires ConformingRun(Start(DeviceAdded(hasInterface, remoteAddress, open, o)), ms)
    ensures var t := RunTrack(Track(Start(DeviceAdded(hasInterface, remoteAddress, open, o)), None), ms);
      && t.w == RunWorld(Start(DeviceAdded(hasInterface, remoteAddress, open, o)), ms)
      && (t.w.d.state == Streaming ==>
            && ChosenBy(t.w.d.activeCodecId, t.choice)
            && var codec := t.w.d.activeCodecId;
            codec == 0 || (codec == t.choice.value.preferred && P.ContainsCodec(t.choice.value.caps, codec)))
  {
    hide Inv, ConformingRun, RunTrack, RunWorld;
    var t := RunTrack(Track(Start(DeviceAdded(hasInterface, remoteAddress, open, o)), None), ms);
    ReachableTrack(hasInterface, remoteAddress, open, o, ms);
    RunTrackWorld(Track(Start(DeviceAdded(hasInterface, remoteAddress, open, o)), None), ms);
    if t.w.d.state == Streaming {
      StreamingPlace(t.w);
      P.SelectionIsSound(t.choice.value.preferred, t.choice.value.caps);
    }
  }

  /** A request that switches to this codec. */
  predicate Requests(e: Event, codecId: u32) {
    IsSwitch(e) && FromLittleEndian32(e.buf[..4]) == codecId
  }

  /** The switch comes too late for the round in progress: SUSPEND cannot be sent, or the
      codec was chosen and the stream has not started. */
  predicate TooLate(w: World, m: Move)
    requires IsSwitch(m.e)
  {
    if w.d.state == Streaming then m.e.suspend != Submitted else 3 <= Place(w)
  }

  /** From this state, a switch to this codec and a continuation without another one lead to
      Streaming. */
  ghost predicate StreamsAfter(t: Track, m: Move, codecId: u32, ms: seq<Move>) {
    && TrackInv(t) && Conforming(t.w, m) && Requests(m.e, codecId)
    && ConformingRun(Next(t.w, m), ms) && NoSwitch(ms)
    && RunTrack(NextTrack(t, m), ms).w.d.state == Streaming
  }

  /** A switch at any moment of any run and with any send outcome, followed by anything but
      another switch. Whenever the driver streams again, its codec is the requested one
      exactly when
      - the switch came too late and no disconnect followed: it is the pending one already;
      - otherwise: it is SBC or among the capabilities answered last. */
  lemma SwitchMatchesExactly(t: Track, m: Move, codecId: u32, ms: seq<Move>)
    requires StreamsAfter(t, m, codecId, ms)
    ensures var t' := RunTrack(NextTrack(t, m), ms);
      && t'.w.d.preferredCodecId == codecId && t'.choice.Some? && C.Connected(t'.w.d)
      && (t'.w.d.activeCodecId == codecId <==>
            if TooLate(t.w, m) && NoDisconnect(ms) then codecId == t.w.d.pendingCodecId
            else codecId == CODEC_SBC || P.ContainsCodec(t'.choice.value.caps, codecId))
  {
    hide Inv, Next, Conforming, ConformingRun, NoSwitch, NoDisconnect, RunTrack, P.ContainsCodec, Place;
    var t1 := NextTrack(t, m);
    var t' := RunTrack(t1, ms);
    StepKeepsTrack(t, m);
    SwitchEffect(t.w, m);
    RunKeepsTrack(t1, ms);
    StreamingPlace(t'.w);
    if t.w.d.state == Streaming {
      StreamingPlace(t.w);
    }
    if TooLate(t.w, m) && NoDisconnect(ms) {
      RunKeepsPinned(t1, ms);
    } else {
      RunKeepsFresh(t1, ms);
    }
  }

  // ---- Inputs for which the two differ --------------------------------------------------------------

  function LdacSwitch(suspend: SendOutcome, discover: SendOutcome): (m: Move)
    ensures Requests(m.e, CODEC_LDAC) && m.e.suspend == suspend && m.e.discover == discover
  {
    var buf := C.CodecConfigBuffer(CODEC_LDAC, SwitchKey(), 0);
    assert buf[..4] == LittleEndian32(CODEC_LDAC);
    assert buf[4..20] == NameField(SwitchKey(), C.PARAM_KEY_SIZE);
    assert buf[4] == buf[4..20][0] && buf[5] == buf[4..20][1];
    Move(CodecConfigRequest(buf, suspend, discover), 0)
  }

  /** A switch while the stream runs, LDAC, to a peer that advertises nothing. */
  lemma UnadvertisedSwitch() returns (ms: seq<Move>)
    ensures ReachesStreaming(Opening(), ms)
    ensures var d := RunWorld(Opening(), ms).d;
      C.Connected(d) && d.preferredCodecId == CODEC_LDAC && d.activeCodecId == CODEC_SBC
  {
    hide Inv, RunWorld, ConformingRun, NoDisconnect, Opening, Next, LdacSwitch, Live, Place;
    hide C.Connected, P.ContainsCodec;
    ms := FirstStream();
    var w := RunWorld(Opening(), ms);
    var m := LdacSwitch(Submitted, Submitted);
    SwitchRestarts(w, m, CODEC_LDAC);
    P.ForbiddenSeidHides();
    C.LdacAdvertised();
    var more := LiveReaches(Next(w, m), ONE_SINK, []);
    ms := Joined(Opening(), ms, m, more);
  }

  lemma SwitchRestarts(w: World, m: Move, codecId: u32)
    requires Inv(w) && C.Connected(w.d) && w.d.state == Streaming
    requires Requests(m.e, codecId) && m.e.suspend == Submitted == m.e.discover
    ensures Conforming(w, m) && !m.e.RemoteDisconnect?
    ensures var w' := Next(w, m);
      Inv(w') && C.Connected(w'.d) && Live(w') && Place(w') == 1 && w'.d.preferredCodecId == codecId
  {
    hide Inv, P.EncodeSeid, SendCommand;
    InvSettled(w);
    StreamingPlace(w);
    var d0 := w.d.(preferredCodecId := codecId);
    C.CommandGoesOut(d0, SIGNAL_SUSPEND, [P.EncodeSeid(d0.remoteSeid)]);
    var d1 := SendCommand(d0, SIGNAL_SUSPEND, [P.EncodeSeid(d0.remoteSeid)], Submitted).0;
    C.CommandGoesOut(d1.(state := Idle), SIGNAL_DISCOVER, []);
    StepKeepsInv(w, m);
    var w' := Next(w, m);
    assert w'.outstanding == w'.d.wire[|w.d.wire|..];
  }

  /** One run, one move, and another run. */
  lemma Joined(w: World, ms: seq<Move>, m: Move, more: seq<Move>) returns (all: seq<Move>)
    requires ConformingRun(w, ms) && Conforming(RunWorld(w, ms), m) && NoDisconnect(ms) && NoDisconnect(more)
    requires ConformingRun(Next(RunWorld(w, ms), m), more) && !m.e.RemoteDisconnect?
    ensures all == ms + [m] + more && NoDisconnect(all)
    ensures ConformingRun(w, all) && RunWorld(w, all) == RunWorld(Next(RunWorld(w, ms), m), more)
  {
    hide ConformingRun, RunWorld, Conforming, Next;
    OneMove(RunWorld(w, ms), m);
    RunAppend(w, ms, [m]);
    RunAppend(w, ms + [m], more);
    all := ms + [m] + more;
  }

  /** A DISCOVER answer whose one audio sink is in use. */
  const SINK_IN_USE: seq<byte> := [0x16, 0x08]

  lemma NoSinkFree()
    ensures P.FreeSinkSeid(SINK_IN_USE) == P.SEID_NONE
  {
    assert SINK_IN_USE[2..] == [];
    assert P.Endpoints(SINK_IN_USE) == [P.DecodeEndpoint(0x16, 0x08)];
  }

  lemma DiscoverRefused(w: World)
    requires Inv(w) && C.Connected(w.d) && Live(w) && Place(w) == 1
    ensures var ms := AnswerMoves(w, SINK_IN_USE, []);
      && NoDisconnect(ms)
      && Conforming(w, ms[0]) && Conforming(Next(w, ms[0]), ms[1])
      && Stalled(Next(Next(w, ms[0]), ms[1]))
  {
    hide Inv, Stalled, HandlePacket, P.FreeSinkSeid;
    var ms := AnswerMoves(w, SINK_IN_USE, []);
    NoSinkFree();
    LivePosition(w);
    PacketTaken(w, C.Answer(0, SINK_IN_USE, []));
    StepKeepsInv(w, ms[0]);
    SinkStalls(Next(w, ms[0]), ms[1]);
  }

  /** A switch while the stream runs, to a peer whose only sink is still in use because nothing
      closed it: the session is stalled. */
  lemma SinkInUseStalls() returns (ms: seq<Move>)
    ensures ConformingRun(Opening(), ms) && NoDisconnect(ms) && |ms| > 0
    ensures ms[|ms| - 1].e == SignalingWork(Received(C.Answer(0, SINK_IN_USE, [])), Opened(1), Submitted)
    ensures Stalled(RunWorld(Opening(), ms))
  {
    hide Inv, RunWorld, ConformingRun, NoDisconnect, Opening, Next, Conforming, LdacSwitch, C.Answer, Stalled, Delivers;
    ms := FirstStream();
    var w := RunWorld(Opening(), ms);
    var m := LdacSwitch(Submitted, Submitted);
    SwitchRestarts(w, m, CODEC_LDAC);
    var w1 := Next(w, m);
    var a := AnswerMoves(w1, SINK_IN_USE, []);
    DiscoverRefused(w1);
    TwoMoves(w1, a[0], a[1]);
    assert a == [a[0], a[1]];
    ms := Joined(Opening(), ms, m, a);
  }

  /** A switch between GET_CAPABILITIES and the stream's start: the peer advertised LDAC, the
      service was told the switch succeeded, and SBC streams. */
  lemma LateSwitch() returns (ms: seq<Move>)
    ensures ReachesStreaming(Opening(), ms) && |ms| > 4
    ensures ms[3].e == SignalingWork(Received(C.Answer(1, ONE_SINK, C.LDAC_CAPS)), Opened(1), Submitted)
    ensures ms[4] == LdacSwitch(Submitted, Submitted)
    ensures ConformingRun(Opening(), ms[..4])
    ensures SetCodecConfig(RunWorld(Opening(), ms[..4]).d, ms[4].e.buf, Submitted, Submitted).1
    ensures var d := RunWorld(Opening(), ms).d;
      C.Connected(d) && d.preferredCodecId == CODEC_LDAC && d.activeCodecId == CODEC_SBC
  {
    hide Inv, RunWorld, ConformingRun, NoDisconnect, NoSwitch, Opening, Next, Conforming, LdacSwitch;
    hide C.Connected, SetCodecConfig, P.ContainsCodec, C.Answer;
    var w0 := Opening();
    P.ForbiddenSeidHides();
    OpeningLives();
    var a := AnswerMoves(w0, ONE_SINK, []);
    AnswerAdvances(w0, ONE_SINK, []);
    var w1 := RunWorld(w0, a);
    var b := AnswerMoves(w1, ONE_SINK, C.LDAC_CAPS);
    AnswerAdvances(w1, ONE_SINK, C.LDAC_CAPS);
    var w2 := RunWorld(w1, b);
    RunAppend(w0, a, b);
    NoDisconnectAppend(a, b);
    var m := LdacSwitch(Submitted, Submitted);
    SwitchWhileLive(w2, m, CODEC_LDAC);
    var more := LiveReaches(Next(w2, m), ONE_SINK, []);
    ms := Joined(w0, a + b, m, more);
    assert ms[..4] == a + b;
  }

  lemma NoDisconnectAppend(ms: seq<Move>, ns: seq<Move>)
    requires NoDisconnect(ms) && NoDisconnect(ns)
    ensures NoDisconnect(ms + ns)
  {}

  lemma SwitchWhileLive(w: World, m: Move, codecId: u32)
    requires Inv(w) && C.Connected(w.d) && Live(w) && Requests(m.e, codecId)
    ensures Conforming(w, m) && !m.e.RemoteDisconnect?
    ensures var w' := Next(w, m);
      && Inv(w') && C.Connected(w'.d) && Live(w') && Place(w') == Place(w)
      && w'.d == w.d.(preferredCodecId := codecId)
    ensures SetCodecConfig(w.d, m.e.buf, m.e.suspend, m.e.discover).1
  {
    hide Inv;
    LivePosition(w);
    StepKeepsInv(w, m);
  }

  /** A switch whose SUSPEND cannot be sent: the service is told it failed, and the stream goes
      on with SBC. */
  lemma UnsentSuspend() returns (ms: seq<Move>)
    ensures ReachesStreaming(Opening(), ms)
    ensures var w := RunWorld(Opening(), ms);
      var m := LdacSwitch(NoPool, Submitted);
      && Conforming(w, m) && !SetCodecConfig(w.d, m.e.buf, NoPool, Submitted).1
      && var d := Next(w, m).d;
      d.state == Streaming && C.Connected(d) && d.preferredCodecId == CODEC_LDAC && d.activeCodecId == CODEC_SBC
  {
    hide Inv, ConformingRun, RunWorld, NoDisconnect, Opening;
    ms := FirstStream();
  }
}
