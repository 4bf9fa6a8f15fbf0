/** Properties that run through the GUI, the service and the driver together. */
module EndToEnd {
  import opened ByteTypes
  import opened TextFields
  import D = A2dpDriver
  import M = MediaFraming
  import P = AvdtpPackets
  import C = CodecSwitch
  import I = IpcProtocol
  import S = IpcSession
  import A = SwitchAgreement
  import N = ConformingSession
  import T = StalledSession
  import R = StreamPipeline

  const SWITCH_KEY := "switch"

  /** A codec chosen in the GUI: the server's answer to the GUI's message makes one pipeline
      call and one driver call with that codec. Handing the driver's request to a connected
      driver, in any state and with any send outcome, and accepting the rest of a round from
      any point, ends in Streaming; with the pipeline's codec exactly when that is SBC or
      advertised if the capabilities were still to come, and else when it is the codec the
      round stood at. */
  lemma GuiSwitchStreams(v: S.Service, done: seq<S.Effect>, name: string, id: u32, value: i64,
                         d: D.Driver, suspend: D.SendOutcome, discover: D.SendOutcome,
                         k: nat, seps: seq<byte>, caps: seq<byte>, media: D.Handle)
    requires v.hasController && v.hasStream
    requires id <= CODEC_APTX_ADAPTIVE && I.AsciiOctets(name) == S.CodecNameFromId(id)
    requires C.Connected(d) && k < 5
    requires |seps| <= D.WORK_BUFFER - 2 && |caps| <= D.WORK_BUFFER - 2
    ensures var calls := S.Reply(v, done, S.AskCodec(I.GuiSetCodec(name, SWITCH_KEY, value))).1;
      && |calls| == 2 && calls[0] == S.PipelineCodec(id) && calls[1].DriverConfig?
      && var buf := C.CodecConfigBuffer(calls[1].codecId, calls[1].key, calls[1].value);
      var d' := D.Run(d, [D.CodecConfigRequest(buf, suspend, discover)] + C.Round(k, seps, caps, media));
      && d'.state == D.Streaming
      && (d'.activeCodecId == calls[0].codecId <==>
            if k <= 1 then id == CODEC_SBC || P.ContainsCodec(caps, id)
            else id == if k == 2 then d.pendingCodecId else d.activeCodecId)
  {
    hide S.Reply, C.CodecConfigBuffer, C.Round, P.ContainsCodec, D.Run;
    S.GuiSwitchReaches(v, done, id, name, value);
    var key := Ascii(SWITCH_KEY);
    assert key[0] == 's' as int && key[1] == 'w' as int;
    C.SwitchTakesEffect(d, id, key, value, suspend, discover, k, seps, caps, media);
  }

  /** Over whole runs against a conforming peer: a codec chosen in the GUI at any moment, its
      driver request with any send outcome, then anything but another switch. A frame the
      pipeline then hands to a streaming driver goes out as one packet framed for the
      pipeline's codec, and that is the codec of the negotiated configuration exactly when the
      switch came too late for the round, no disconnect followed and the codec was pending
      already; or else when it is SBC or among the capabilities answered last. */
  lemma SwitchedFrameMatches(v: S.Service, done: seq<S.Effect>, name: string, id: u32, value: i64,
                             t: A.Track, m: N.Move, ms: seq<N.Move>, frame: seq<byte>, o: D.SendOutcome)
    requires v.hasController && v.hasStream
    requires id <= CODEC_APTX_ADAPTIVE && I.AsciiOctets(name) == S.CodecNameFromId(id)
    requires m.e.CodecConfigRequest? && m.e.buf == C.CodecConfigBuffer(id, Ascii(SWITCH_KEY), value)
    requires !o.NoPool? && 0 < |frame| <= M.MAX_FRAME
    ensures S.Reply(v, done, S.AskCodec(I.GuiSetCodec(name, SWITCH_KEY, value))).1
         == [S.PipelineCodec(id), S.DriverConfig(id, Ascii(SWITCH_KEY), value)]
    ensures A.Requests(m.e, id)
    ensures A.StreamsAfter(t, m, id, ms) ==>
      var t' := A.RunTrack(A.NextTrack(t, m), ms);
      var d := D.SendAudioFrame(t'.w.d, M.SendFrameRequest(id, frame), o).0;
      && t'.choice.Some? && |d.media| == |t'.w.d.media| + 1
      && var r := d.media[|t'.w.d.media|];
      && r.codecId == id
      && (r.codecId == d.activeCodecId <==>
            if A.TooLate(t.w, m) && T.NoDisconnect(ms) then id == t.w.d.pendingCodecId
            else id == CODEC_SBC || P.ContainsCodec(t'.choice.value.caps, id))
  {
    hide A.TrackInv, A.TooLate, A.RunTrack, A.NextTrack, N.Next, N.Conforming, N.ConformingRun, T.NoSwitch;
    hide S.Reply, P.ContainsCodec, D.SendAudioFrame, M.SendFrameRequest, D.SetCodecConfig, T.NoDisconnect;
    S.GuiSwitchReaches(v, done, id, name, value);
    var key := Ascii(SWITCH_KEY);
    assert key[0] == 's' as int && key[1] == 'w' as int;
    SwitchBuffer(id, key, value);
    if A.StreamsAfter(t, m, id, ms) {
      A.SwitchMatchesExactly(t, m, id, ms);
      A.NextTrackWorld(t, m);
      FrameReachesChannel(A.RunTrack(A.NextTrack(t, m), ms).w.d, id, frame, o);
    }
  }

  lemma SwitchBuffer(id: u32, key: seq<byte>, value: i64)
    requires |key| >= 2 && key[0] == 's' as int && key[1] == 'w' as int
    ensures var buf := C.CodecConfigBuffer(id, key, value);
      D.SwitchRequested(buf) && FromLittleEndian32(buf[..4]) == id
  {
    hide D.SetPreferredCodec;
    C.RequestDispatch(D.Zeroed(false, 0), id, key, value, D.NoPool, D.NoPool);
    assert C.CodecConfigBuffer(id, key, value)[..4] == LittleEndian32(id);
  }

  /** LC3 and aptX-Adaptive, which the GUI may name, are negotiated as SBC by every peer. */
  lemma NeverNegotiated(caps: seq<byte>)
    ensures P.SelectedCodec(CODEC_LC3, caps) == P.SelectedCodec(CODEC_APTX_ADAPTIVE, caps) == CODEC_SBC
  {}

  /** At the end of this run a frame encoded as LDAC goes out to a peer configured for SBC. */
  ghost predicate LdacGoesOutOverSbc(ms: seq<N.Move>, frame: seq<byte>, o: D.SendOutcome)
    requires |frame| <= M.MAX_FRAME
  {
    && N.ConformingRun(T.Opening(), ms)
    && var d := N.RunWorld(T.Opening(), ms).d;
    var d' := D.SendAudioFrame(d, M.SendFrameRequest(CODEC_LDAC, frame), o).0;
    && d.preferredCodecId == CODEC_LDAC && d'.activeCodecId == CODEC_SBC
    && |d'.media| == |d.media| + 1 && d'.media[|d.media|].codecId == CODEC_LDAC
  }

  /** Reached by a switch to LDAC while the peer does not advertise it; by one that comes
      between the capabilities, which do advertise it, and the stream's start; and by one
      whose SUSPEND cannot be sent. */
  lemma LdacOverSbc(frame: seq<byte>, o: D.SendOutcome)
    returns (unadvertised: seq<N.Move>, late: seq<N.Move>, unsent: seq<N.Move>)
    requires 0 < |frame| <= M.MAX_FRAME && !o.NoPool?
    ensures LdacGoesOutOverSbc(unadvertised, frame, o)
    ensures LdacGoesOutOverSbc(late, frame, o)
    ensures LdacGoesOutOverSbc(unsent, frame, o)
  {
    hide N.RunWorld, N.ConformingRun, N.Next, N.Conforming, T.Opening, A.LdacSwitch, LdacGoesOutOverSbc;
    unadvertised := A.UnadvertisedSwitch();
    FrameOverSbc(unadvertised, frame, o);
    late := A.LateSwitch();
    FrameOverSbc(late, frame, o);
    var ms := A.UnsentSuspend();
    var m := A.LdacSwitch(D.NoPool, D.Submitted);
    T.OneMove(N.RunWorld(T.Opening(), ms), m);
    T.RunAppend(T.Opening(), ms, [m]);
    unsent := ms + [m];
    FrameOverSbc(unsent, frame, o);
  }

  lemma FrameOverSbc(ms: seq<N.Move>, frame: seq<byte>, o: D.SendOutcome)
    requires N.ConformingRun(T.Opening(), ms) && 0 < |frame| <= M.MAX_FRAME && !o.NoPool?
    requires var d := N.RunWorld(T.Opening(), ms).d;
      d.state == D.Streaming && C.Connected(d) && d.preferredCodecId == CODEC_LDAC && d.activeCodecId == CODEC_SBC
    ensures LdacGoesOutOverSbc(ms, frame, o)
  {
    hide N.RunWorld, N.ConformingRun, T.Opening, D.SendAudioFrame, M.SendFrameRequest;
    FrameReachesChannel(N.RunWorld(T.Opening(), ms).d, CODEC_LDAC, frame, o);
  }

  // ---- Codec parameters -------------------------------------------------------------------

  /** The codec the pipeline was switched to last. */
  function LiveCodec(done: seq<S.Effect>): u32 {
    if done == [] then CODEC_SBC
    else if done[|done| - 1].PipelineCodec? then done[|done| - 1].codecId
    else LiveCodec(done[..|done| - 1])
  }

  /** The pipeline after the server's calls: initial makes a codec's first state, change is what a
      parameter does to the state of a codec. */
  function PipelineAfter<X>(factory: R.Factory<X>, initial: u32 -> X, change: (u32, X, seq<byte>, i64) -> X,
                            done: seq<S.Effect>): R.Pipe<X>
  {
    if done == [] then R.Initial(factory, initial(CODEC_SBC))
    else
      var p := PipelineAfter(factory, initial, change, done[..|done| - 1]);
      match done[|done| - 1]
      case PipelineCodec(id) => R.Apply(factory, p, R.Rebuild(id, initial(id)))
      case PipelineParam(key, value) => R.Apply(factory, p, R.SetParam(change(p.codecId, p.state, key, value)))
      case _ => p
  }

  lemma {:induction false} LiveCodecRuns<X>(factory: R.Factory<X>, initial: u32 -> X,
                                            change: (u32, X, seq<byte>, i64) -> X, done: seq<S.Effect>)
    ensures var p := PipelineAfter(factory, initial, change, done);
      p.codecId == LiveCodec(done) && p.codec == factory(LiveCodec(done))
  {
    if done != [] {
      LiveCodecRuns(factory, initial, change, done[..|done| - 1]);
    }
  }

  /** A parameter request names a codec, but makes the same call whichever it names, and the
      call changes the state of the codec that runs. So it reaches the one it names exactly
      when that is the one the pipeline was switched to last. */
  lemma ParamReachesLiveCodec<X>(v: S.Service, done: seq<S.Effect>, r: I.SetCodecRequest, other: seq<byte>,
                                 factory: R.Factory<X>, initial: u32 -> X, change: (u32, X, seq<byte>, i64) -> X)
    requires v.hasController && r.key != Ascii(SWITCH_KEY)
    requires S.CodecIdFromName(r.codec).Some? && S.CodecIdFromName(other).Some?
    requires factory(LiveCodec(done)).Some?
    ensures var calls := S.ApplyRequest(v, done, r).1;
      var value := S.NormalizeParam(r.key, r.value);
      var p := PipelineAfter(factory, initial, change, done);
      && calls == S.ApplyRequest(v, done, r.(codec := other)).1 == [S.PipelineParam(r.key, value)]
      && PipelineAfter(factory, initial, change, done + calls)
         == p.(state := change(LiveCodec(done), p.state, r.key, value))
      && (p.codecId == S.CodecIdFromName(r.codec).value <==> r.codec == S.CodecNameFromId(LiveCodec(done)))
  {
    hide S.NormalizeParam, S.CodecIdFromName, S.CodecNameFromId, Ascii;
    var calls := [S.PipelineParam(r.key, S.NormalizeParam(r.key, r.value))];
    S.NotAi(r.codec);
    S.NotAi(other);
    LiveCodecRuns(factory, initial, change, done);
    assert (done + calls)[..|done|] == done;
    S.CodecIdsInverse(r.codec);
    S.CodecNamesInverse(LiveCodec(done));
    if LiveCodec(done) > CODEC_APTX_ADAPTIVE {
      UnknownHasNoName(LiveCodec(done));
    }
  }

  lemma UnknownHasNoName(id: u32)
    requires id > CODEC_APTX_ADAPTIVE
    ensures S.CodecIdFromName(S.CodecNameFromId(id)).None?
  {
    hide Ascii;
    assert |Ascii("SBC")| == 3;
  }

  // ---- Frames -------------------------------------------------------------------------------

  /** A frame given to send_frame on a streaming driver puts exactly one packet on the media
      channel, from which the receiver recovers the frame, for every codec id and every
      length the driver admits; the reported status is that of the transfer. */
  lemma FrameReachesChannel(d: D.Driver, codecId: u32, frame: seq<byte>, o: D.SendOutcome)
    requires d.state == D.Streaming && d.hasInterface && !o.NoPool?
    requires 0 < |frame| <= 65522
    ensures var (d', ok) := D.SendAudioFrame(d, M.SendFrameRequest(codecId, frame), o);
      && |d'.media| == |d.media| + 1 && d'.media[..|d.media|] == d.media
      && var m := d'.media[|d.media|];
      && ok == m.delivered == (o == D.Submitted)
      && m.codecId == codecId && d'.activeCodecId == d.activeCodecId
      && M.ParseMediaPacket(codecId, m.packet).Some?
      && M.ParseMediaPacket(codecId, m.packet).value.frame == frame
      && |m.packet| <= 0xFFFF
  {
    hide M.SendFrameRequest, M.ValidatedFrame, M.ParseMediaPacket, M.MediaPacket;
    M.FrameTransparency(codecId, frame, d.rtpSeqNum, d.rtpTimestamp);
  }

  /** A frame longer than 65522 octets, or one sent while not streaming, without an interface or
      without a packet buffer, leaves the driver as it was. */
  lemma FrameRefused(d: D.Driver, codecId: u32, frame: seq<byte>, o: D.SendOutcome)
    requires 0 < |frame| <= 0xFFFF_FFF7
    requires |frame| > 65522 || d.state != D.Streaming || !d.hasInterface || o == D.NoPool
    ensures D.SendAudioFrame(d, M.SendFrameRequest(codecId, frame), o) == (d, false)
  {
    hide M.SendFrameRequest, M.ValidatedFrame, M.MediaPacket;
    M.FrameTransparency(codecId, frame, 0, 0);
  }
}
