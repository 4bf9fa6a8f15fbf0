/** Runs of the driver against a conforming peer: it answers outstanding commands only, in
    order, accepting or rejecting each, and may lose answers; sends, channel opens and reads
    may fail, the link may drop, and codec switches may arrive at any time. */
module ConformingSession {
  import opened ByteTypes
  import opened A2dpDriver
  import opened DriverSafety
  import P = AvdtpPackets
  import M = MediaFraming

  /** The order in which one signalling session issues its commands, over and over. */
  const CYCLE: seq<byte> := [1, 2, 3, 6, 7, 9]

  /** The driver, the commands of this session the peer has yet to answer, and the payload
      of the SET_CONFIGURATION it accepted last in this session. */
  datatype World = World(d: Driver, outstanding: seq<seq<byte>>, accepted: Option<seq<byte>>)

  /** An event, and for a delivered packet the outstanding command it answers; the answers
      to earlier ones are lost. */
  datatype Move = Move(e: Event, answers: nat)

  /** The event hands the driver a packet long enough to be an AVDTP message. */
  predicate Delivers(d: Driver, e: Event) {
    e.SignalingWork? && Processes(d, e.read) && |e.read.data| >= 2
  }

  predicate Answers(data: seq<byte>, command: seq<byte>)
    requires |data| >= 2
  {
    |command| >= 2 && Signal(data) == Signal(command) && data[0] % 4 != MESSAGE_COMMAND
  }

  predicate Conforming(w: World, m: Move) {
    && Enabled(w.d, m.e)
    && (Delivers(w.d, m.e) ==>
          m.answers < |w.outstanding| && Answers(m.e.read.data, w.outstanding[m.answers]))
  }

  /** Commands sent during a step that keeps the session. */
  function Sent(d: Driver, d': Driver): seq<seq<byte>> {
    if |d.wire| <= |d'.wire| then d'.wire[|d.wire|..] else []
  }

  ghost function Next(w: World, m: Move): World
    requires Conforming(w, m)
  {
    var d' := Step(w.d, m.e);
    if m.e.RemoteDisconnect? then World(d', [], None)
    else if Delivers(w.d, m.e) then
      var command := w.outstanding[m.answers];
      var accepts := m.e.read.data[0] % 4 == MESSAGE_ACCEPT && Signal(command) == SIGNAL_SET_CONFIGURATION;
      World(d', w.outstanding[m.answers + 1..] + Sent(w.d, d'),
            if accepts then Some(command[2..]) else w.accepted)
    else World(d', w.outstanding + Sent(w.d, d'), w.accepted)
  }

  ghost predicate ConformingRun(w: World, ms: seq<Move>)
    decreases |ms|
  {
    ms == [] || (Conforming(w, ms[0]) && ConformingRun(Next(w, ms[0]), ms[1..]))
  }

  ghost function RunWorld(w: World, ms: seq<Move>): World
    requires ConformingRun(w, ms)
    decreases |ms|
  {
    if ms == [] then w else RunWorld(Next(w, ms[0]), ms[1..])
  }

  function Start(d: Driver): World {
    World(d, d.wire, None)
  }

  // ---- Invariant ------------------------------------------------------------------

  function Last(s: seq<seq<byte>>): seq<byte>
    requires s != []
  {
    s[|s| - 1]
  }

  /** The session's commands follow the cycle. */
  predicate InCycle(wire: seq<seq<byte>>) {
    forall i | 0 <= i < |wire| :: |wire[i]| >= 2 && Signal(wire[i]) == CYCLE[i % 6]
  }

  /** Within one round every command after DISCOVER names the same endpoint. */
  predicate SameEndpoint(wire: seq<seq<byte>>) {
    && (forall i | 0 <= i < |wire| && i % 6 != 0 :: |wire[i]| >= 3)
    && (forall i | 0 < i < |wire| && i % 6 >= 2 :: wire[i][2] == wire[i - 1][2])
  }

  predicate NamesEndpoint(wire: seq<seq<byte>>, seid: byte) {
    wire != [] && (|wire| - 1) % 6 != 0 ==> |Last(wire)| >= 3 && Last(wire)[2] == P.EncodeSeid(seid)
  }

  predicate AllSuspend(outstanding: seq<seq<byte>>) {
    forall c <- outstanding :: |c| >= 2 && Signal(c) == SIGNAL_SUSPEND
  }

  /** Only SUSPEND may be left unanswered behind the driver's back: any other outstanding
      command is the last one sent. */
  predicate OneLiveCommand(outstanding: seq<seq<byte>>, wire: seq<seq<byte>>) {
    forall i | 0 <= i < |outstanding| ::
      && |outstanding[i]| >= 2
      && (Signal(outstanding[i]) == SIGNAL_SUSPEND
          || (i == |outstanding| - 1 && wire != [] && outstanding[i] == Last(wire)))
  }

  predicate StreamingSettled(w: World) {
    w.d.state == Streaming ==>
      w.outstanding == [] && w.d.wire != [] && |Last(w.d.wire)| >= 2 && Signal(Last(w.d.wire)) == SIGNAL_START
  }

  /** An unanswered SET_CONFIGURATION configures the pending codec. */
  predicate PendingAgreed(outstanding: seq<seq<byte>>, pending: u32) {
    forall c <- outstanding | |c| >= 2 && Signal(c) == SIGNAL_SET_CONFIGURATION ::
      P.DecodeConfiguration(c[2..]) == Some(pending)
  }

  predicate CodecAgreed(w: World) {
    && (|w.d.wire| >= 4 ==> w.accepted.Some?)
    && (w.accepted.Some? ==> P.DecodeConfiguration(w.accepted.value) == Some(w.d.activeCodecId))
    && PendingAgreed(w.outstanding, w.d.pendingCodecId)
  }

  predicate Clean(w: World) {
    && CleanWhenClosed(w.d) && CodecsInTable(w.d)
    && (w.d.signalingHandle == 0 ==> w.outstanding == [] && w.accepted == None)
    && (|w.d.wire| >= 5 ==> w.d.mediaHandle != 0)
  }

  predicate Inv(w: World) {
    && Clean(w)
    && InCycle(w.d.wire) && SameEndpoint(w.d.wire) && NamesEndpoint(w.d.wire, w.d.remoteSeid)
    && OneLiveCommand(w.outstanding, w.d.wire) && StreamingSettled(w) && CodecAgreed(w)
  }

  // ---- Appending one command ----------------------------------------------------------

  lemma Position(wire: seq<seq<byte>>)
    requires InCycle(wire) && wire != []
    ensures |Last(wire)| >= 2
    ensures var s := Signal(Last(wire));
      && s == CYCLE[(|wire| - 1) % 6]
      && (s == SIGNAL_DISCOVER ==> |wire| % 6 == 1)
      && (s == SIGNAL_GET_CAPABILITIES ==> |wire| % 6 == 2)
      && (s == SIGNAL_SET_CONFIGURATION ==> |wire| % 6 == 3)
      && (s == SIGNAL_OPEN ==> |wire| % 6 == 4)
      && (s == SIGNAL_START ==> |wire| % 6 == 5)
      && (s == SIGNAL_SUSPEND ==> |wire| % 6 == 0)
  {}

  lemma Append(wire: seq<seq<byte>>, p: seq<byte>, seid: byte)
    requires InCycle(wire) && SameEndpoint(wire) && NamesEndpoint(wire, seid)
    requires |p| >= 2 && Signal(p) == CYCLE[|wire| % 6]
    requires |wire| % 6 != 0 ==> |p| >= 3 && p[2] == P.EncodeSeid(seid)
    ensures InCycle(wire + [p]) && SameEndpoint(wire + [p]) && NamesEndpoint(wire + [p], seid)
  {
    hide P.EncodeSeid;
    var wire' := wire + [p];
    forall i | 0 < i < |wire'| && i % 6 >= 2
      ensures wire'[i][2] == wire'[i - 1][2]
    {
      if i == |wire| {
        assert wire'[i - 1] == Last(wire);
      }
    }
  }

  predicate WellOrdered(d: Driver) {
    InCycle(d.wire) && SameEndpoint(d.wire) && NamesEndpoint(d.wire, d.remoteSeid)
  }

  /** Sending the next command of the cycle: it either fails and changes nothing but the
      label, or is the one packet sent and keeps the order. */
  lemma SendKeeps(d: Driver, signal: byte, payload: seq<byte>, o: SendOutcome)
    requires WellOrdered(d)
    requires signal == CYCLE[|d.wire| % 6]
    requires |d.wire| % 6 != 0 ==> payload != [] && payload[0] == P.EncodeSeid(d.remoteSeid)
    ensures var (d', ok) := SendCommand(d, signal, payload, o);
      && d' == d.(transactionId := d'.transactionId, wire := d'.wire)
      && WellOrdered(d')
      && (!ok ==> d'.wire == d.wire && Sent(d, d') == [])
      && d'.wire == d.wire + Sent(d, d')
      && (ok ==> d.signalingHandle != 0 && |d'.wire| == |d.wire| + 1 && Sent(d, d') == [Last(d'.wire)]
                 && |Last(d'.wire)| >= 2 && Signal(Last(d'.wire)) == signal && Last(d'.wire)[2..] == payload)
  {
    hide InCycle, SameEndpoint, NamesEndpoint, P.EncodeSeid;
    var (d', ok) := SendCommand(d, signal, payload, o);
    if ok {
      var p := CommandPacket(d'.transactionId, signal, payload);
      assert p[2..] == payload;
      Append(d.wire, p, d.remoteSeid);
    }
  }

  // ---- Accepted answers -----------------------------------------------------------------

  /** Nothing but SUSPEND outstanding on an open channel that is not streaming. */
  predicate Quiet(w: World) {
    && Inv(w) && w.d.signalingHandle != 0 && w.d.state != Streaming
    && AllSuspend(w.outstanding)
  }

  lemma QueueGrows(outstanding: seq<seq<byte>>, wire: seq<seq<byte>>, p: seq<byte>, pending: u32)
    requires AllSuspend(outstanding) && |p| >= 2
    requires Signal(p) == SIGNAL_SET_CONFIGURATION ==> P.DecodeConfiguration(p[2..]) == Some(pending)
    ensures OneLiveCommand(outstanding, wire) && PendingAgreed(outstanding, pending)
    ensures OneLiveCommand(outstanding + [p], wire + [p]) && PendingAgreed(outstanding + [p], pending)
    ensures AllSuspend([]) && outstanding + [] == outstanding
    ensures Signal(p) == SIGNAL_SUSPEND ==> AllSuspend(outstanding + [p])
  {
    hide P.DecodeConfiguration;
  }

  lemma QueueQuiet(outstanding: seq<seq<byte>>, wire: seq<seq<byte>>, pending: u32)
    requires AllSuspend(outstanding)
    ensures OneLiveCommand(outstanding, wire) && PendingAgreed(outstanding, pending)
    ensures outstanding + [] == outstanding
  {}

  lemma EmptyQueue(wire: seq<seq<byte>>, pending: u32)
    ensures AllSuspend([]) && OneLiveCommand([], wire) && PendingAgreed([], pending)
  {}

  lemma NothingBefore(s: seq<seq<byte>>)
    ensures [] + s == s
  {}

  /** The moment an accepted answer to the last command has been taken off the queue. */
  predicate Answered(w: World, signal: byte) {
    Quiet(w) && w.outstanding == [] && w.d.wire != [] && |Last(w.d.wire)| >= 2 && Signal(Last(w.d.wire)) == signal
  }

  /** What must hold before a command of the cycle is sent for its answer to be usable. */
  predicate Prepared(w: World, signal: byte, payload: seq<byte>) {
    && signal == CYCLE[|w.d.wire| % 6]
    && (|w.d.wire| % 6 != 0 ==> payload != [] && payload[0] == P.EncodeSeid(w.d.remoteSeid))
    && (signal == SIGNAL_SET_CONFIGURATION ==> P.DecodeConfiguration(payload) == Some(w.d.pendingCodecId))
    && (|w.d.wire| == 3 ==> w.accepted.Some?)
    && (|w.d.wire| == 4 ==> w.d.mediaHandle != 0)
  }

  function AfterSend(w: World, signal: byte, payload: seq<byte>, o: SendOutcome): World {
    var d' := SendCommand(w.d, signal, payload, o).0;
    World(d', w.outstanding + Sent(w.d, d'), w.accepted)
  }

  lemma QuietSend(w: World, signal: byte, payload: seq<byte>, o: SendOutcome)
    requires Quiet(w) && Prepared(w, signal, payload)
    ensures Inv(AfterSend(w, signal, payload, o))
    ensures var w' := AfterSend(w, signal, payload, o);
      && w'.d == w.d.(transactionId := w'.d.transactionId, wire := w'.d.wire)
      && w'.d.wire == w.d.wire + Sent(w.d, w'.d)
      && (w.outstanding == [] ==> w'.outstanding == Sent(w.d, w'.d))
  {
    hide SendCommand, P.EncodeSeid, P.DecodeConfiguration, P.Configurable;
    hide InCycle, SameEndpoint, NamesEndpoint, OneLiveCommand, PendingAgreed, AllSuspend;
    SendKeeps(w.d, signal, payload, o);
    QueueQuiet(w.outstanding, w.d.wire, w.d.pendingCodecId);
    var (d', ok) := SendCommand(w.d, signal, payload, o);
    if ok {
      QueueGrows(w.outstanding, w.d.wire, Last(d'.wire), w.d.pendingCodecId);
    }
  }

  lemma StateChange(w: World, state: AvdtpState)
    requires Inv(w) && w.d.signalingHandle != 0 && state != Streaming
    ensures Inv(w.(d := w.d.(state := state)))
  {
    hide InCycle, SameEndpoint, NamesEndpoint, OneLiveCommand, PendingAgreed, P.Configurable, P.DecodeConfiguration;
  }

  /** Fields the invariant does not look at. */
  predicate Bookkeeping(d: Driver, d': Driver) {
    d' == d.(transactionId := d'.transactionId, preferredCodecId := d'.preferredCodecId,
             pendingRecvLen := d'.pendingRecvLen, avdtpQueued := d'.avdtpQueued, reconnectQueued := d'.reconnectQueued)
  }

  lemma BookkeepingChange(w: World, d': Driver)
    requires Inv(w) && Bookkeeping(w.d, d')
    ensures Inv(w.(d := d')) && Sent(w.d, d') == [] && w.outstanding + [] == w.outstanding
  {
    hide InCycle, SameEndpoint, NamesEndpoint, OneLiveCommand, PendingAgreed, P.Configurable, P.DecodeConfiguration;
  }

  lemma AfterDiscover(w: World, data: seq<byte>, o: SendOutcome)
    requires Answered(w, SIGNAL_DISCOVER)
    ensures var d' := OnDiscover(w.d, data, o); Inv(World(d', Sent(w.d, d'), w.accepted))
  {
    hide SendCommand, P.EncodeSeid, P.FreeSinkSeid, P.DecodeConfiguration, P.Configurable;
    hide InCycle, SameEndpoint, OneLiveCommand, PendingAgreed, AllSuspend;
    BookkeepingChange(w, w.d);
    var seid := P.FreeSinkSeid(data);
    if seid != P.SEID_NONE {
      Position(w.d.wire);
      var d1 := w.d.(remoteSeid := seid, state := Configuring);
      QuietSend(w.(d := d1), SIGNAL_GET_CAPABILITIES, [P.EncodeSeid(seid)], o);
    }
  }

  lemma SendCommutes(d: Driver, codec: u32, signal: byte, payload: seq<byte>, o: SendOutcome)
    ensures var (d1, ok) := SendCommand(d, signal, payload, o);
      SendCommand(d.(pendingCodecId := codec, state := Configured), signal, payload, o)
      == (d1.(pendingCodecId := codec, state := Configured), ok)
    ensures var (d1, ok) := SendCommand(d, signal, payload, o);
      !ok ==> d1 == d.(transactionId := d1.transactionId)
  {}

  lemma ConfigurePending(w: World, codec: u32)
    requires Quiet(w) && w.outstanding == [] && P.Configurable(codec)
    ensures Quiet(w.(d := w.d.(pendingCodecId := codec, state := Configured)))
  {
    hide InCycle, SameEndpoint, NamesEndpoint, OneLiveCommand, AllSuspend, P.Configurable, P.DecodeConfiguration;
  }

  lemma AnsweredPosition(w: World, signal: byte)
    requires Answered(w, signal)
    ensures Inv(w) && Quiet(w) && w.outstanding == [] && w.d.wire != []
    ensures signal == SIGNAL_GET_CAPABILITIES ==> |w.d.wire| % 6 == 2
  {
    hide SameEndpoint, NamesEndpoint, OneLiveCommand, AllSuspend, P.Configurable, P.DecodeConfiguration;
    Position(w.d.wire);
  }

  lemma AfterGetCapabilities(w: World, data: seq<byte>, o: SendOutcome)
    requires Answered(w, SIGNAL_GET_CAPABILITIES)
    ensures var d' := OnGetCapabilities(w.d, data, o); Inv(World(d', Sent(w.d, d'), w.accepted))
  {
    hide SendCommand, P.EncodeSeid, P.DecodeConfiguration, P.SelectedCodec, P.SetConfigurationPayload, P.Configurable;
    hide Inv, Quiet, Answered;
    var codec := P.SelectedCodec(w.d.preferredCodecId, data);
    var payload := P.SetConfigurationPayload(codec, w.d.remoteSeid, w.d.localSeid);
    P.BuiltDecodes(codec, w.d.remoteSeid, w.d.localSeid);
    AnsweredPosition(w, SIGNAL_GET_CAPABILITIES);
    ConfigurePending(w, codec);
    SendCommutes(w.d, codec, SIGNAL_SET_CONFIGURATION, payload, o);
    var (d1, ok) := SendCommand(w.d, SIGNAL_SET_CONFIGURATION, payload, o);
    if ok {
      QuietSend(w.(d := w.d.(pendingCodecId := codec, state := Configured)), SIGNAL_SET_CONFIGURATION, payload, o);
    } else {
      BookkeepingChange(w, d1);
    }
  }

  lemma AfterSetConfiguration(w: World, o: SendOutcome)
    requires Answered(w, SIGNAL_SET_CONFIGURATION)
    requires P.DecodeConfiguration(Last(w.d.wire)[2..]) == Some(w.d.pendingCodecId)
    ensures var d' := OnSetConfiguration(w.d, o); Inv(World(d', Sent(w.d, d'), Some(Last(w.d.wire)[2..])))
  {
    hide SendCommand, P.EncodeSeid, P.DecodeConfiguration, P.Configurable;
    hide InCycle, SameEndpoint, NamesEndpoint, OneLiveCommand, PendingAgreed, AllSuspend;
    Position(w.d.wire);
    var w1 := World(w.d.(activeCodecId := w.d.pendingCodecId), [], Some(Last(w.d.wire)[2..]));
    QuietSend(w1, SIGNAL_OPEN, [P.EncodeSeid(w.d.remoteSeid)], o);
    StateChange(AfterSend(w1, SIGNAL_OPEN, [P.EncodeSeid(w.d.remoteSeid)], o), Open);
  }

  lemma AfterOpen(w: World, open: OpenOutcome, o: SendOutcome)
    requires Answered(w, SIGNAL_OPEN)
    ensures var d' := OnOpen(w.d, open, o); Inv(World(d', Sent(w.d, d'), w.accepted))
  {
    hide SendCommand, P.EncodeSeid, P.DecodeConfiguration, P.Configurable;
    hide InCycle, SameEndpoint, NamesEndpoint, OneLiveCommand, PendingAgreed, AllSuspend;
    Position(w.d.wire);
    BookkeepingChange(w, w.d);
    var (d1, ok) := OpenMedia(w.d, open);
    if ok {
      QuietSend(w.(d := d1), SIGNAL_START, [P.EncodeSeid(d1.remoteSeid)], o);
    }
  }

  lemma AfterStart(w: World)
    requires Answered(w, SIGNAL_START)
    ensures Inv(World(w.d.(state := Streaming), [], w.accepted))
  {
    hide InCycle, SameEndpoint, NamesEndpoint, OneLiveCommand, PendingAgreed, P.DecodeConfiguration, P.Configurable;
  }

  lemma AfterSuspend(w: World, o: SendOutcome)
    requires Inv(w) && w.d.state == Streaming
    ensures w.outstanding == []
    ensures var (d', ok) := SendCommand(w.d, SIGNAL_SUSPEND, [P.EncodeSeid(w.d.remoteSeid)], o);
      if ok then
        var w' := World(d'.(state := Idle), Sent(w.d, d'), w.accepted);
        Quiet(w') && w'.d.signalingHandle != 0 && |w'.d.wire| % 6 == 0 && w'.d.wire == w.d.wire + w'.outstanding
      else
        d' == w.d.(transactionId := d'.transactionId)
  {
    hide SendCommand, P.EncodeSeid, P.DecodeConfiguration, P.Configurable;
    hide InCycle, SameEndpoint, NamesEndpoint, OneLiveCommand, PendingAgreed, AllSuspend;
    Position(w.d.wire);
    var payload := [P.EncodeSeid(w.d.remoteSeid)];
    SendKeeps(w.d, SIGNAL_SUSPEND, payload, o);
    var (d', ok) := SendCommand(w.d, SIGNAL_SUSPEND, payload, o);
    if ok {
      EmptyQueue(w.d.wire, w.d.pendingCodecId);
      NothingBefore([Last(d'.wire)]);
      QueueGrows([], w.d.wire, Last(d'.wire), w.d.pendingCodecId);
    }
  }

  lemma AfterRestart(w: World, o: SendOutcome)
    requires Quiet(w) && w.d.signalingHandle != 0 && w.d.state == Idle && |w.d.wire| % 6 == 0
    ensures var d' := Connect(w.d, o).0;
      Inv(World(d', w.outstanding + Sent(w.d, d'), w.accepted)) && d'.wire == w.d.wire + Sent(w.d, d')
  {
    hide SendCommand, P.EncodeSeid, Inv, Quiet;
    QuietSend(w, SIGNAL_DISCOVER, [], o);
    StateChange(AfterSend(w, SIGNAL_DISCOVER, [], o), Discovering);
  }

  /** SUSPEND and DISCOVER of a mid-stream codec switch. */
  lemma AfterSwitch(w: World, codecId: u32, suspend: SendOutcome, discover: SendOutcome)
    requires Inv(w)
    ensures var d' := SetPreferredCodec(w.d, codecId, suspend, discover).0;
      Inv(World(d', w.outstanding + Sent(w.d, d'), w.accepted))
  {
    hide SendCommand, Connect, P.EncodeSeid, Inv, Quiet;
    var d0 := w.d.(preferredCodecId := codecId);
    BookkeepingChange(w, d0);
    if w.d.state == Streaming {
      AfterSuspend(w.(d := d0), suspend);
      var (d1, ok) := SendCommand(d0, SIGNAL_SUSPEND, [P.EncodeSeid(d0.remoteSeid)], suspend);
      if ok {
        var w1 := World(d1.(state := Idle), Sent(d0, d1), w.accepted);
        AfterRestart(w1, discover);
        var d' := Connect(w1.d, discover).0;
        SentTwice(d0, w1.d, d');
        NothingBefore(Sent(w.d, d'));
      } else {
        BookkeepingChange(w, d1);
      }
    }
  }

  lemma SentTwice(d0: Driver, d1: Driver, d2: Driver)
    requires d1.wire == d0.wire + Sent(d0, d1) && d2.wire == d1.wire + Sent(d1, d2)
    ensures Sent(d0, d2) == Sent(d0, d1) + Sent(d1, d2)
  {}

  lemma AfterReconnect(w: World, open: OpenOutcome, o: SendOutcome)
    requires Inv(w) && ShouldReconnect(w.d)
    ensures var d' := OpenSignaling(w.d, open, o);
      Inv(World(d', Sent(w.d, d'), w.accepted))
  {
    hide SendCommand, P.EncodeSeid, P.DecodeConfiguration, P.Configurable;
    hide InCycle, SameEndpoint, OneLiveCommand, PendingAgreed, AllSuspend;
    if open.Opened? {
      var w1 := w.(d := w.d.(signalingHandle := open.handle, state := Connecting, wire := []));
      EmptyQueue([], w.d.pendingCodecId);
      QuietSend(w1, SIGNAL_DISCOVER, [], o);
      StateChange(AfterSend(w1, SIGNAL_DISCOVER, [], o), Discovering);
    }
  }

  // ---- Every step keeps the invariant ---------------------------------------------------

  /** Losing the answers to the first n commands. */
  lemma QueueDrops(w: World, n: nat)
    requires Inv(w) && n <= |w.outstanding| && w.d.state != Streaming
    ensures Inv(w.(outstanding := w.outstanding[n..]))
  {
    hide InCycle, SameEndpoint, NamesEndpoint, P.Configurable, P.DecodeConfiguration, Signal;
  }

  /** A live answer is to the last command sent, so taking it empties the queue. */
  lemma LiveAnswer(w: World, n: nat)
    requires Inv(w) && n < |w.outstanding|
    requires |w.outstanding[n]| >= 2 && Signal(w.outstanding[n]) != SIGNAL_SUSPEND
    ensures n == |w.outstanding| - 1 && w.outstanding[n + 1..] == []
    ensures w.d.state != Streaming && w.d.signalingHandle != 0
    ensures w.d.wire != [] && w.outstanding[n] == Last(w.d.wire)
    ensures Signal(w.outstanding[n]) == SIGNAL_SET_CONFIGURATION
            ==> P.DecodeConfiguration(w.outstanding[n][2..]) == Some(w.d.pendingCodecId)
    ensures InCycle(w.d.wire)
  {
    hide InCycle, SameEndpoint, NamesEndpoint, P.Configurable, P.DecodeConfiguration, Signal;
    assert w.outstanding[n] in w.outstanding;
  }

  lemma DeliveryKeeps(w: World, m: Move)
    requires Inv(w) && Conforming(w, m) && Delivers(w.d, m.e)
    ensures Inv(Next(w, m))
  {
    hide Inv, SendCommand, OnDiscover, OnGetCapabilities, OnSetConfiguration, OnOpen, P.DecodeConfiguration;
    var d0 := w.d.(avdtpQueued := false, pendingRecvLen := 0);
    var data, command := m.e.read.data, w.outstanding[m.answers];
    BookkeepingChange(w, d0);
    var w0 := World(d0, w.outstanding[m.answers + 1..], w.accepted);
    if data[0] % 4 == MESSAGE_ACCEPT && Signal(command) != SIGNAL_SUSPEND {
      LiveAnswer(w, m.answers);
      AcceptedKeeps(w.(d := d0), m.answers, data, m.e.open, m.e.send);
    } else {
      assert w.d.state != Streaming by {
        assert StreamingSettled(w) by { InvSettled(w); }
      }
      QueueDrops(w.(d := d0), m.answers + 1);
      BookkeepingChange(w0, d0);
      assert Step(w.d, m.e) == d0;
    }
  }

  lemma InvSettled(w: World)
    requires Inv(w)
    ensures StreamingSettled(w)
  {}

  lemma AcceptedKeeps(w: World, n: nat, data: seq<byte>, open: OpenOutcome, o: SendOutcome)
    requires Inv(w) && n < |w.outstanding| && |data| >= 2 && Answers(data, w.outstanding[n])
    requires data[0] % 4 == MESSAGE_ACCEPT && Signal(data) != SIGNAL_SUSPEND
    ensures var d' := HandlePacket(w.d, data, open, o);
      Inv(World(d', w.outstanding[n + 1..] + Sent(w.d, d'),
                if Signal(data) == SIGNAL_SET_CONFIGURATION then Some(w.outstanding[n][2..]) else w.accepted))
  {
    hide OnDiscover, OnGetCapabilities, OnSetConfiguration, OnOpen, P.DecodeConfiguration;
    hide InCycle, SameEndpoint, NamesEndpoint, OneLiveCommand, PendingAgreed, AllSuspend, P.Configurable;
    LiveAnswer(w, n);
    QueueDrops(w, n + 1);
    EmptyQueue(w.d.wire, w.d.pendingCodecId);
    NothingBefore(Sent(w.d, HandlePacket(w.d, data, open, o)));
    Position(w.d.wire);
    BookkeepingChange(w, w.d);
    var w0 := w.(outstanding := []);
    if Signal(data) == SIGNAL_DISCOVER {
      AfterDiscover(w0, data[2..], o);
    } else if Signal(data) == SIGNAL_GET_CAPABILITIES {
      AfterGetCapabilities(w0, data[2..], o);
    } else if Signal(data) == SIGNAL_SET_CONFIGURATION {
      AfterSetConfiguration(w0, o);
    } else if Signal(data) == SIGNAL_OPEN {
      AfterOpen(w0, open, o);
    } else {
      AfterStart(w0);
    }
  }

  lemma MediaKeeps(w: World, buf: seq<byte>, o: SendOutcome)
    requires Inv(w)
    ensures var d' := SendAudioFrame(w.d, buf, o).0;
      Inv(World(d', w.outstanding + Sent(w.d, d'), w.accepted))
  {
    hide InCycle, SameEndpoint, NamesEndpoint, OneLiveCommand, PendingAgreed, SendMedia;
    hide P.Configurable, P.DecodeConfiguration;
    BookkeepingChange(w, w.d);
    var input := M.ValidatedFrame(buf);
    if input.Some? {
      MediaStepElse(w.d, input.value.0, input.value.1, o);
    }
  }

  lemma StepKeepsInv(w: World, m: Move)
    requires Inv(w) && Conforming(w, m)
    ensures Inv(Next(w, m))
  {
    hide SendCommand, SetPreferredCodec, OpenSignaling, SendAudioFrame, P.DecodeConfiguration;
    hide InCycle, SameEndpoint, NamesEndpoint, OneLiveCommand, PendingAgreed, AllSuspend, P.Configurable;
    hide OnDiscover, OnGetCapabilities, OnSetConfiguration, OnOpen;
    match m.e
    case Timer => BookkeepingChange(w, Step(w.d, m.e));
    case PacketIndication(_) => BookkeepingChange(w, Step(w.d, m.e));
    case RemoteDisconnect => DisconnectKeeps(w);
    case ReconnectWork(open, o) =>
      var d0 := w.d.(reconnectQueued := false);
      BookkeepingChange(w, d0);
      if ShouldReconnect(w.d) {
        AfterReconnect(w.(d := d0), open, o);
        NothingBefore(Sent(w.d, Step(w.d, m.e)));
        assert w.outstanding == [];
      }
    case SignalingWork(read, open, o) =>
      if Delivers(w.d, m.e) {
        DeliveryKeeps(w, m);
      } else {
        BookkeepingChange(w, Step(w.d, m.e));
      }
    case CodecConfigRequest(buf, suspend, discover) =>
      BookkeepingChange(w, w.d);
      if SwitchRequested(buf) {
        AfterSwitch(w, FromLittleEndian32(buf[..4]), suspend, discover);
      }
    case AudioFrameRequest(buf, o) => MediaKeeps(w, buf, o);
  }

  lemma DisconnectKeeps(w: World)
    requires Inv(w)
    ensures Inv(World(Disconnected(w.d), [], None))
  {
    EmptyQueue([], w.d.pendingCodecId);
  }

  lemma {:induction false} RunKeepsInv(w: World, ms: seq<Move>)
    requires Inv(w) && ConformingRun(w, ms)
    ensures Inv(RunWorld(w, ms))
    decreases |ms|
  {
    hide Inv;
    if ms != [] {
      StepKeepsInv(w, ms[0]);
      RunKeepsInv(Next(w, ms[0]), ms[1..]);
    }
  }

  lemma StartInv(hasInterface: bool, remoteAddress: u64, open: OpenOutcome, o: SendOutcome)
    ensures Inv(Start(DeviceAdded(hasInterface, remoteAddress, open, o)))
  {
    hide P.DecodeConfiguration;
    var w := Start(Zeroed(hasInterface, remoteAddress));
    assert Inv(w);
    BookkeepingChange(w, w.d);
    if hasInterface && remoteAddress != 0 {
      AfterReconnect(w, open, o);
      var d' := OpenSignaling(w.d, open, o);
      assert Sent(w.d, d') == d'.wire;
    }
  }

  // ---- Main results -----------------------------------------------------------------------

  /** Over every run against a conforming peer, with failed sends and opens, lost and
      rejecting answers, disconnects and codec switches: the commands sent in one session
      are a prefix of (DISCOVER GET_CAPABILITIES SET_CONFIGURATION OPEN START SUSPEND)*, and
      the commands of one round address one endpoint. */
  lemma CommandsFollowTheCycle(hasInterface: bool, remoteAddress: u64, open: OpenOutcome, o: SendOutcome, ms: seq<Move>)
    requires ConformingRun(Start(DeviceAdded(hasInterface, remoteAddress, open, o)), ms)
    ensures var wire := RunWorld(Start(DeviceAdded(hasInterface, remoteAddress, open, o)), ms).d.wire;
      && InCycle(wire) && SameEndpoint(wire)
      && forall i | 0 <= i < |wire| :: |wire[i]| >= 2 && wire[i][1] % 64 == [1, 2, 3, 6, 7, 9][i % 6]
  {
    var w := Start(DeviceAdded(hasInterface, remoteAddress, open, o));
    StartInv(hasInterface, remoteAddress, open, o);
    RunKeepsInv(w, ms);
  }

  ghost predicate SoundStream(w: World) {
    && w.d.signalingHandle != 0 && w.d.mediaHandle != 0
    && w.accepted.Some? && P.DecodeConfiguration(w.accepted.value) == Some(w.d.activeCodecId)
    && w.outstanding == []
    && w.d.wire != [] && |Last(w.d.wire)| >= 3
    && Signal(Last(w.d.wire)) == SIGNAL_START && Last(w.d.wire)[2] / 4 == w.d.remoteSeid
  }

  lemma StreamingFacts(w: World)
    requires Inv(w) && w.d.state == Streaming
    ensures SoundStream(w)
  {
    hide SameEndpoint, OneLiveCommand, PendingAgreed, P.Configurable, P.DecodeConfiguration;
    Position(w.d.wire);
  }

  /** In every reachable Streaming state both channels are open, the peer accepted a
      SET_CONFIGURATION in this very session, the active codec is the one that payload
      configures, and the last command addressed the current remote endpoint; also after
      mid-stream codec switches. */
  lemma StreamingIsSound(hasInterface: bool, remoteAddress: u64, open: OpenOutcome, o: SendOutcome, ms: seq<Move>)
    requires ConformingRun(Start(DeviceAdded(hasInterface, remoteAddress, open, o)), ms)
    ensures var w := RunWorld(Start(DeviceAdded(hasInterface, remoteAddress, open, o)), ms);
      w.d.state == Streaming ==>
        SoundStream(w)
  {
    var w0 := Start(DeviceAdded(hasInterface, remoteAddress, open, o));
    hide Inv;
    StartInv(hasInterface, remoteAddress, open, o);
    RunKeepsInv(w0, ms);
    var w := RunWorld(w0, ms);
    if w.d.state == Streaming {
      StreamingFacts(w);
    }
  }

  // ---- Transaction labels -----------------------------------------------------------------------

  function Label(command: seq<byte>): int
    requires command != []
  {
    command[0] / 16
  }

  /** At most two commands wait for an answer, and two only as SUSPEND and the DISCOVER behind
      it, under different labels. */
  predicate LabelsApart(outstanding: seq<seq<byte>>) {
    && |outstanding| <= 2
    && (|outstanding| == 2 ==>
          && |outstanding[0]| >= 2 && Signal(outstanding[0]) == SIGNAL_SUSPEND
          && |outstanding[1]| >= 2 && Signal(outstanding[1]) == SIGNAL_DISCOVER
          && Label(outstanding[0]) != Label(outstanding[1]))
  }

  /** Both commands of a switch, SUSPEND first. */
  lemma SwitchSends(d: Driver, codecId: u32, suspend: SendOutcome, discover: SendOutcome)
    ensures var d' := SetPreferredCodec(d, codecId, suspend, discover).0;
      |d.wire| <= |d'.wire| && LabelsApart(Sent(d, d'))
  {
    hide P.EncodeSeid, LabelsApart;
    var d0 := d.(preferredCodecId := codecId);
    var (d1, ok) := SendCommand(d0, SIGNAL_SUSPEND, [P.EncodeSeid(d0.remoteSeid)], suspend);
    SendsOne(d0, SIGNAL_SUSPEND, [P.EncodeSeid(d0.remoteSeid)], suspend);
    SendsOne(d1.(state := Idle), SIGNAL_DISCOVER, [], discover);
    var d' := SetPreferredCodec(d, codecId, suspend, discover).0;
    assert d1.wire == d.wire + Sent(d, d1);
    if d.state == Streaming && ok {
      var d2 := SendCommand(d1.(state := Idle), SIGNAL_DISCOVER, [], discover).0;
      assert d'.wire == d2.wire;
      TwoLabels(Sent(d, d1), Sent(d1, d2));
      assert Sent(d, d') == Sent(d, d1) + Sent(d1, d2);
    } else {
      assert Sent(d, d') == [];
      FewLabels([]);
    }
  }

  lemma SendsOne(d: Driver, signal: byte, payload: seq<byte>, o: SendOutcome)
    requires signal < 64
    ensures var (d', ok) := SendCommand(d, signal, payload, o);
      && d'.wire == d.wire + Sent(d, d')
      && (if ok then
            && |Sent(d, d')| == 1 && |Sent(d, d')[0]| >= 2 && Signal(Sent(d, d')[0]) == signal
            && Label(Sent(d, d')[0]) == d'.transactionId as int == NextLabel(d.transactionId) as int
          else Sent(d, d') == [])
  {}

  lemma FewLabels(outstanding: seq<seq<byte>>)
    requires |outstanding| <= 1
    ensures LabelsApart(outstanding)
  {}

  lemma TwoLabels(a: seq<seq<byte>>, b: seq<seq<byte>>)
    requires |a| == 1 && |a[0]| >= 2 && Signal(a[0]) == SIGNAL_SUSPEND && 0 <= Label(a[0]) < 16
    requires |b| <= 1
    requires b != [] ==> |b[0]| >= 2 && Signal(b[0]) == SIGNAL_DISCOVER && Label(b[0]) == (Label(a[0]) + 1) % 16
    ensures LabelsApart(a + b)
  {}

  lemma DropLabels(outstanding: seq<seq<byte>>, n: nat, sent: seq<seq<byte>>)
    requires LabelsApart(outstanding) && n < |outstanding|
    requires sent == [] || (n == |outstanding| - 1 && |sent| <= 1)
    ensures LabelsApart(outstanding[n + 1..] + sent)
  {}

  lemma DeliveryKeepsLabels(w: World, m: Move)
    requires Inv(w) && LabelsApart(w.outstanding) && Conforming(w, m) && Delivers(w.d, m.e)
    ensures LabelsApart(Next(w, m).outstanding)
  {
    hide Inv, HandlePacket, LabelsApart;
    var data := m.e.read.data;
    PacketEffect(w.d.(avdtpQueued := false, pendingRecvLen := 0), data, m.e.open, m.e.send);
    if data[0] % 4 == MESSAGE_ACCEPT && Signal(data) != SIGNAL_SUSPEND {
      LiveAnswer(w, m.answers);
    }
    DropLabels(w.outstanding, m.answers, Sent(w.d, Next(w, m).d));
  }

  lemma StepKeepsLabels(w: World, m: Move)
    requires Inv(w) && LabelsApart(w.outstanding) && Conforming(w, m)
    ensures LabelsApart(Next(w, m).outstanding)
  {
    hide Inv, HandlePacket, SetPreferredCodec, SendAudioFrame, OpenSignaling, LabelsApart;
    var w' := Next(w, m);
    assert w.outstanding + [] == w.outstanding;
    FewLabels([]);
    match m.e
    case SignalingWork(read, open, o) =>
      if Delivers(w.d, m.e) {
        DeliveryKeepsLabels(w, m);
      } else if Processes(w.d, read) {
        PacketEffect(w.d.(avdtpQueued := false, pendingRecvLen := 0), read.data, open, o);
      }
    case CodecConfigRequest(buf, suspend, discover) =>
      if SwitchRequested(buf) {
        SwitchKeepsLabels(w, FromLittleEndian32(buf[..4]), suspend, discover);
      }
    case ReconnectWork(open, o) =>
      if ShouldReconnect(w.d) {
        ClosedQueue(w);
        ReopenSendsOne(w.d.(reconnectQueued := false), open, o);
        FewLabels(w'.outstanding);
      }
    case AudioFrameRequest(buf, o) =>
      FramesSendNothing(w.d, buf, o);
      assert Sent(w.d, w'.d) == [];
    case _ =>
      assert m.e.RemoteDisconnect? || Sent(w.d, w'.d) == [];
  }

  lemma SwitchKeepsLabels(w: World, codecId: u32, suspend: SendOutcome, discover: SendOutcome)
    requires Inv(w) && LabelsApart(w.outstanding)
    ensures var d' := SetPreferredCodec(w.d, codecId, suspend, discover).0;
      LabelsApart(w.outstanding + Sent(w.d, d'))
  {
    hide Inv, LabelsApart, SendCommand;
    var d' := SetPreferredCodec(w.d, codecId, suspend, discover).0;
    if w.d.state == Streaming {
      InvSettled(w);
      SwitchSends(w.d, codecId, suspend, discover);
      NothingBefore(Sent(w.d, d'));
    } else {
      assert Sent(w.d, d') == [] && w.outstanding + [] == w.outstanding;
    }
  }

  lemma ReopenSendsOne(d: Driver, open: OpenOutcome, o: SendOutcome)
    requires d.wire == []
    ensures |OpenSignaling(d, open, o).wire| <= 1
  {}

  lemma ClosedQueue(w: World)
    requires Inv(w) && w.d.signalingHandle == 0
    ensures w.outstanding == [] && w.d.wire == []
  {}

  lemma FramesSendNothing(d: Driver, buf: seq<byte>, o: SendOutcome)
    ensures SendAudioFrame(d, buf, o).0.wire == d.wire
  {}

  lemma {:induction false} RunKeepsLabels(w: World, ms: seq<Move>)
    requires Inv(w) && LabelsApart(w.outstanding) && ConformingRun(w, ms)
    ensures LabelsApart(RunWorld(w, ms).outstanding)
    decreases |ms|
  {
    hide Inv, LabelsApart, Next, Conforming;
    if ms != [] {
      StepKeepsLabels(w, ms[0]);
      StepKeepsInv(w, ms[0]);
      RunKeepsLabels(Next(w, ms[0]), ms[1..]);
    }
  }

  /** Over every run no two commands await an answer under the same label, although labels
      repeat every sixteen commands and are used up by failed sends. */
  lemma OutstandingLabelsDiffer(hasInterface: bool, remoteAddress: u64, open: OpenOutcome, o: SendOutcome,
                                ms: seq<Move>)
    requires ConformingRun(Start(DeviceAdded(hasInterface, remoteAddress, open, o)), ms)
    ensures LabelsApart(RunWorld(Start(DeviceAdded(hasInterface, remoteAddress, open, o)), ms).outstanding)
  {
    var w := Start(DeviceAdded(hasInterface, remoteAddress, open, o));
    StartInv(hasInterface, remoteAddress, open, o);
    ReopenSendsOne(Zeroed(hasInterface, remoteAddress), open, o);
    FewLabels(w.outstanding);
    RunKeepsLabels(w, ms);
  }
}
