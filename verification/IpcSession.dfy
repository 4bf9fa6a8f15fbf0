/** service/src/ipc_server.cpp: one client session. The server frames messages out of a byte
    stream that arrives in arbitrary pieces, and answers each with one message. */
module IpcSession {
  import opened ByteTypes
  import opened TextFields
  import opened IpcProtocol
  import D = A2dpDriver

  // ---- Codec names --------------------------------------------------------------------

  function CodecIdFromName(name: seq<byte>): Option<u32> {
    if name == Ascii("SBC") then Some(CODEC_SBC)
    else if name == Ascii("LDAC") then Some(CODEC_LDAC)
    else if name == Ascii("aptX") then Some(CODEC_APTX)
    else if name == Ascii("aptX-HD") then Some(CODEC_APTX_HD)
    else if name == Ascii("AAC") then Some(CODEC_AAC)
    else if name == Ascii("LC3") then Some(CODEC_LC3)
    else if name == Ascii("aptX-Adaptive") then Some(CODEC_APTX_ADAPTIVE)
    else None
  }

  function CodecNameFromId(id: u32): seq<byte> {
    if id == CODEC_SBC then Ascii("SBC")
    else if id == CODEC_LDAC then Ascii("LDAC")
    else if id == CODEC_APTX then Ascii("aptX")
    else if id == CODEC_APTX_HD then Ascii("aptX-HD")
    else if id == CODEC_AAC then Ascii("AAC")
    else if id == CODEC_LC3 then Ascii("LC3")
    else if id == CODEC_APTX_ADAPTIVE then Ascii("aptX-Adaptive")
    else []
  }

  /** The two look-ups undo each other. */
  lemma CodecNamesInverse(id: u32)
    ensures id <= CODEC_APTX_ADAPTIVE <==> CodecIdFromName(CodecNameFromId(id)) == Some(id)
    ensures |CodecNameFromId(id)| < NAME_SIZE && 0 !in CodecNameFromId(id)
  {
    assert Ascii("SBC")[0] == 'S' as int && Ascii("AAC")[0] == 'A' as int && Ascii("LC3")[0] == 'L' as int;
  }

  /** The names, letter by letter. */
  lemma CodecNamesTable()
    ensures CodecNameFromId(0) == ['S' as int, 'B' as int, 'C' as int]
    ensures CodecNameFromId(1) == ['L' as int, 'D' as int, 'A' as int, 'C' as int]
    ensures CodecNameFromId(2) == ['a' as int, 'p' as int, 't' as int, 'X' as int]
    ensures CodecNameFromId(3) == CodecNameFromId(2) + ['-' as int, 'H' as int, 'D' as int]
    ensures CodecNameFromId(4) == ['A' as int, 'A' as int, 'C' as int]
    ensures CodecNameFromId(5) == ['L' as int, 'C' as int, '3' as int]
    ensures CodecNameFromId(6) == CodecNameFromId(2) + ['-' as int, 'A' as int, 'd' as int, 'a' as int, 'p' as int,
                                                       't' as int, 'i' as int, 'v' as int, 'e' as int]
  {}

  lemma CodecIdsInverse(name: seq<byte>)
    requires CodecIdFromName(name).Some?
    ensures CodecNameFromId(CodecIdFromName(name).value) == name
  {
    hide Ascii;
  }

  // ---- What a request does ----------------------------------------------------------------

  /** Calls into the rest of the service. */
  datatype Effect =
    | AiParam(key: seq<byte>, value: i64)
    | PipelineCodec(codecId: u32)
    | PipelineParam(key: seq<byte>, value: i64)
    | DriverConfig(codecId: u32, key: seq<byte>, value: i64)

  /** The components the server was given, what their calls return after a history of
      effects, and what the status query sees. */
  datatype Service = Service(
    hasController: bool,
    hasStream: bool,
    hasAi: bool,
    answer: (seq<Effect>, Effect) -> bool,
    status: seq<Effect> -> Status)

  const MIN_SBC_BITPOOL: i64 := 2
  const MAX_SBC_BITPOOL: i64 := 53

  function Distance(a: int, b: int): nat {
    if a < b then b - a else a - b
  }

  /** The value nearest to the requested one that the key admits. */
  function NormalizeParam(key: seq<byte>, value: i64): (r: i64)
    ensures key == Ascii("bitpool") ==> 2 <= r <= 53
    ensures key != Ascii("bitpool") || 2 <= value <= 53 ==> r == value
    ensures key == Ascii("bitpool") ==> forall other | 2 <= other <= 53 :: Distance(r, value) <= Distance(other, value)
  {
    if key != Ascii("bitpool") then value
    else if value < MIN_SBC_BITPOOL then MIN_SBC_BITPOOL
    else if value > MAX_SBC_BITPOOL then MAX_SBC_BITPOOL
    else value
  }

  /** Success and the calls made, in order. */
  function ApplyRequest(v: Service, done: seq<Effect>, r: SetCodecRequest): (bool, seq<Effect>) {
    if r.codec == Ascii("AI") then
      if v.hasAi then (true, [AiParam(r.key, r.value)]) else (false, [])
    else
      var id := CodecIdFromName(r.codec);
      if id.None? then (false, [])
      else if r.key == Ascii("switch") then SwitchCodec(v, done, id.value, r.key, r.value)
      else if !v.hasController then (false, [])
      else
        var param := PipelineParam(r.key, NormalizeParam(r.key, r.value));
        (v.answer(done, param), [param])
  }

  /** The pipeline is switched first, then the driver. */
  function SwitchCodec(v: Service, done: seq<Effect>, id: u32, key: seq<byte>, value: i64): (bool, seq<Effect>) {
    var first := if v.hasController then [PipelineCodec(id)] else [];
    if !v.hasStream then (v.hasController, first)
    else (v.answer(done + first, DriverConfig(id, key, value)), first + [DriverConfig(id, key, value)])
  }

  // ---- Sessions ------------------------------------------------------------------------------

  /** What is left of the client's bytes, what was sent back, the effects so far, and how many
      more writes the client will take. */
  datatype Session = Session(incoming: seq<byte>, outgoing: seq<byte>, effects: seq<Effect>, writesLeft: nat)

  function WriteAll(s: Session, bytes: seq<byte>): (Session, bool) {
    if s.writesLeft == 0 then (s, false)
    else (s.(outgoing := s.outgoing + bytes, writesLeft := s.writesLeft - 1), true)
  }

  function WriteMessage(s: Session, m: Message): (Session, bool) {
    var (s1, ok) := WriteAll(s, Header(m.kind, |m.payload|));
    if !ok || m.payload == [] then (s1, ok) else WriteAll(s1, m.payload)
  }

  function Ack(success: bool): Message {
    Message(CODEC_ACK, [if success then 1 else 0, 0, 0, 0])
  }

  /** len bytes, or a failure that has used up the stream. */
  function ReadExact(s: Session, len: nat): (Session, Option<seq<byte>>) {
    if |s.incoming| < len then (s.(incoming := []), None)
    else (s.(incoming := s.incoming[len..]), Some(s.incoming[..len]))
  }

  function HandleSetCodec(v: Service, s: Session, len: u16): (Session, bool) {
    var (s1, raw) := ReadExact(s, len);
    if raw.None? then (s1, false)
    else if len != SET_CODEC_SIZE then WriteMessage(s1, Ack(false))
    else
      var (ok, calls) := ApplyRequest(v, s1.effects, ReadSetCodec(raw.value));
      WriteMessage(s1.(effects := s1.effects + calls), Ack(ok))
  }

  function HandleMessage(v: Service, s: Session, kind: u16, len: u16): (Session, bool) {
    if kind == PING then WriteMessage(s, Message(PONG, []))
    else if kind == GET_STATUS then WriteMessage(s, Message(STATUS_REPLY, StatusBytes(v.status(s.effects))))
    else if kind == SET_CODEC then HandleSetCodec(v, s, len)
    else (s, false)
  }

  function ServeNext(v: Service, s: Session): (Session, bool) {
    var (s1, header) := ReadExact(s, HEADER_SIZE);
    if header.None? then (s1, false)
    else HandleMessage(v, s1, FromLittleEndian16(header.value[..2]), FromLittleEndian16(header.value[2..]))
  }

  /** The session loop when running is found true for turns turns. */
  function Serve(v: Service, s: Session, turns: nat): Session
    decreases turns
  {
    if turns == 0 then s
    else
      var (s1, ok) := ServeNext(v, s);
      if ok then Serve(v, s1, turns - 1) else s1
  }

  // ---- The server as the source writes it ---------------------------------------------------------

  class PipeSession {
    const service: Service
    var incoming: seq<byte>
    var outgoing: seq<byte>
    var effects: seq<Effect>
    var writesLeft: nat

    ghost function Snapshot(): Session
      reads this
    {
      Session(incoming, outgoing, effects, writesLeft)
    }

    constructor (service: Service, incoming: seq<byte>, writesLeft: nat)
      ensures this.service == service && Snapshot() == Session(incoming, [], [], writesLeft)
    {
      this.service, this.incoming, this.writesLeft := service, incoming, writesLeft;
      outgoing, effects := [], [];
    }

    /** One overlapped read: some non-empty piece of what is left, at most len bytes; nothing
        when the client is gone. */
    method ReadSome(len: nat) returns (got: seq<byte>)
      requires len > 0
      modifies this`incoming
      ensures got + incoming == old(incoming) && |got| <= len
      ensures got == [] <==> old(incoming) == []
    {
      if incoming == [] {
        return [];
      }
      var n :| 1 <= n <= len && n <= |incoming|;
      got := incoming[..n];
      incoming := incoming[n..];
    }

    method ReadExactly(len: nat) returns (r: Option<seq<byte>>)
      modifies this`incoming
      ensures (Snapshot(), r) == ReadExact(old(Snapshot()), len)
    {
      var buf := [];
      while |buf| < len
        invariant |buf| <= len
        invariant buf + incoming == old(incoming)
        decreases len - |buf|
      {
        var got := ReadSome(len - |buf|);
        if got == [] {
          return None;
        }
        buf := buf + got;
      }
      r := Some(buf);
    }

    method Write(bytes: seq<byte>) returns (ok: bool)
      modifies this
      ensures (Snapshot(), ok) == WriteAll(old(Snapshot()), bytes)
    {
      if writesLeft == 0 {
        return false;
      }
      outgoing := outgoing + bytes;
      writesLeft := writesLeft - 1;
      ok := true;
    }

    method SendMessage(kind: u16, payload: seq<byte>) returns (ok: bool)
      requires |payload| < 0x1_0000
      modifies this
      ensures (Snapshot(), ok) == WriteMessage(old(Snapshot()), Message(kind, payload))
    {
      ok := Write(Header(kind, |payload|));
      if !ok {
        return;
      }
      if |payload| != 0 {
        ok := Write(payload);
      }
    }

    method WriteAck(success: bool) returns (ok: bool)
      modifies this
      ensures (Snapshot(), ok) == WriteMessage(old(Snapshot()), Ack(success))
    {
      ok := SendMessage(CODEC_ACK, [if success then 1 else 0, 0, 0, 0]);
    }

    method OnSetCodec(len: u16) returns (ok: bool)
      modifies this
      ensures (Snapshot(), ok) == HandleSetCodec(service, old(Snapshot()), len)
    {
      var raw := ReadExactly(len);
      if raw.None? {
        return false;
      }
      if len != SET_CODEC_SIZE {
        ok := WriteAck(false);
        return;
      }
      var success := Apply(ReadSetCodec(raw.value));
      ok := WriteAck(success);
    }

    method Apply(request: SetCodecRequest) returns (ok: bool)
      modifies this`effects
      ensures var (success, calls) := ApplyRequest(service, old(effects), request);
        ok == success && effects == old(effects) + calls
    {
      hide Ascii, CodecIdFromName, NormalizeParam;
      assert effects + [] == effects;
      if request.codec == Ascii("AI") {
        if !service.hasAi {
          return false;
        }
        effects := effects + [AiParam(request.key, request.value)];
        return true;
      }
      var id := CodecIdFromName(request.codec);
      if id.None? {
        return false;
      }
      if request.key == Ascii("switch") {
        if service.hasController {
          effects := effects + [PipelineCodec(id.value)];
        }
        if service.hasStream {
          var call := DriverConfig(id.value, request.key, request.value);
          ok := service.answer(effects, call);
          effects := effects + [call];
          return;
        }
        return service.hasController;
      }
      if !service.hasController {
        return false;
      }
      var call := PipelineParam(request.key, NormalizeParam(request.key, request.value));
      ok := service.answer(effects, call);
      effects := effects + [call];
    }

    method OnMessage(kind: u16, len: u16) returns (ok: bool)
      modifies this
      ensures (Snapshot(), ok) == HandleMessage(service, old(Snapshot()), kind, len)
    {
      if kind == PING {
        ok := SendMessage(PONG, []);
      } else if kind == GET_STATUS {
        ok := SendMessage(STATUS_REPLY, StatusBytes(service.status(effects)));
      } else if kind == SET_CODEC {
        ok := OnSetCodec(len);
      } else {
        ok := false;
      }
    }

    method ServeNextMessage() returns (ok: bool)
      modifies this
      ensures (Snapshot(), ok) == ServeNext(service, old(Snapshot()))
    {
      var header := ReadExactly(HEADER_SIZE);
      if header.None? {
        return false;
      }
      ok := OnMessage(FromLittleEndian16(header.value[..2]), FromLittleEndian16(header.value[2..]));
    }

    /** serve_session while running is found true turns times. */
    method ServeSession(turns: nat)
      modifies this
      ensures Snapshot() == Serve(service, old(Snapshot()), turns)
    {
      hide ServeNext;
      var left := turns;
      while left > 0
        invariant Serve(service, Snapshot(), left) == Serve(service, old(Snapshot()), turns)
      {
        var ok := ServeNextMessage();
        if !ok {
          return;
        }
        left := left - 1;
      }
    }
  }

  // ---- Requests and replies ------------------------------------------------------------------------------

  /** What a client may ask: Ping and GetStatus carry no payload, SetCodec any. */
  datatype RawRequest = AskPing | AskStatus | AskCodec(payload: seq<byte>)
  type Request = r: RawRequest | r.AskCodec? ==> |r.payload| < 0x1_0000 witness AskPing

  function RequestMessage(r: Request): Message {
    match r
    case AskPing => Message(PING, [])
    case AskStatus => Message(GET_STATUS, [])
    case AskCodec(payload) => Message(SET_CODEC, payload)
  }

  function RequestMessages(rs: seq<Request>): seq<Message> {
    if rs == [] then [] else [RequestMessage(rs[0])] + RequestMessages(rs[1..])
  }

  /** The reply a request deserves after some effects, and the calls it makes. A SetCodec of
      the wrong length is refused without any. */
  function Reply(v: Service, done: seq<Effect>, r: Request): (Message, seq<Effect>) {
    match r
    case AskPing => (Message(PONG, []), [])
    case AskStatus => (Message(STATUS_REPLY, StatusBytes(v.status(done))), [])
    case AskCodec(payload) =>
      if |payload| != SET_CODEC_SIZE then (Ack(false), [])
      else
        var (ok, calls) := ApplyRequest(v, done, ReadSetCodec(payload));
        (Ack(ok), calls)
  }

  function Replies(v: Service, done: seq<Effect>, rs: seq<Request>): (ms: seq<Message>)
    ensures |ms| == |rs|
    decreases |rs|
  {
    if rs == [] then []
    else
      var (m, calls) := Reply(v, done, rs[0]);
      [m] + Replies(v, done + calls, rs[1..])
  }

  function Effects(v: Service, done: seq<Effect>, rs: seq<Request>): seq<Effect>
    decreases |rs|
  {
    if rs == [] then done else Effects(v, done + Reply(v, done, rs[0]).1, rs[1..])
  }

  lemma ReadExactly(s: Session, front: seq<byte>, rest: seq<byte>)
    requires s.incoming == front + rest
    ensures ReadExact(s, |front|) == (s.(incoming := rest), Some(front))
  {
    assert s.incoming[|front|..] == rest && s.incoming[..|front|] == front;
  }

  lemma WritesMessage(s: Session, m: Message)
    requires s.writesLeft >= 2
    ensures var (s', ok) := WriteMessage(s, m);
      && ok
      && s' == s.(outgoing := s.outgoing + Encode(m), writesLeft := s'.writesLeft)
      && s'.writesLeft >= s.writesLeft - 2
  {
    var h := Header(m.kind, |m.payload|);
    assert s.outgoing + h + m.payload == s.outgoing + (h + m.payload);
    if m.payload == [] {
      assert h + m.payload == h;
    }
  }

  lemma ServesOne(v: Service, s: Session, r: Request, rest: seq<byte>)
    requires s.incoming == Encode(RequestMessage(r)) + rest && s.writesLeft >= 2
    ensures var (s', ok) := ServeNext(v, s);
      var (m, calls) := Reply(v, s.effects, r);
      && ok
      && s' == Session(rest, s.outgoing + Encode(m), s.effects + calls, s'.writesLeft)
      && s'.writesLeft >= s.writesLeft - 2
  {
    hide Header, WriteMessage, ApplyRequest, ReadSetCodec, StatusBytes, ReadExact;
    var q := RequestMessage(r);
    var h := Header(q.kind, |q.payload|);
    var s1 := s.(incoming := q.payload + rest);
    assert s.incoming == h + (q.payload + rest);
    ReadExactly(s, h, q.payload + rest);
    HeaderFields(q.kind, |q.payload|, []);
    assert h + [] == h && h[2..] == h[2..4];
    assert s.effects + [] == s.effects;
    ReadExactly(s1, q.payload, rest);
    var (m, calls) := Reply(v, s.effects, r);
    if !r.AskCodec? {
      assert q.payload + rest == rest;
    }
    WritesMessage(Session(rest, s.outgoing, s.effects + calls, s.writesLeft), m);
  }

  /** However the client's bytes are cut into reads: n requests get n replies, one each and in
      order, the effects are those of the requests one after another, and the stream is left
      exactly behind the last request. */
  lemma {:induction false} EveryRequestAnswered(v: Service, s: Session, rs: seq<Request>, rest: seq<byte>)
    requires s.incoming == EncodeAll(RequestMessages(rs)) + rest && s.writesLeft >= 2 * |rs|
    ensures var s' := Serve(v, s, |rs|);
      && s'.incoming == rest
      && s'.outgoing == s.outgoing + EncodeAll(Replies(v, s.effects, rs))
      && s'.effects == Effects(v, s.effects, rs)
    decreases |rs|
  {
    hide ServeNext, Encode, Reply, RequestMessage;
    if rs == [] {
      assert s.incoming == rest;
      assert s.outgoing + [] == s.outgoing;
    } else {
      var q := RequestMessage(rs[0]);
      var tail := EncodeAll(RequestMessages(rs[1..])) + rest;
      assert RequestMessages(rs)[1..] == RequestMessages(rs[1..]);
      assert s.incoming == Encode(q) + tail;
      ServesOne(v, s, rs[0], tail);
      var (m, calls) := Reply(v, s.effects, rs[0]);
      var s1 := ServeNext(v, s).0;
      EveryRequestAnswered(v, s1, rs[1..], rest);
      var more := EncodeAll(Replies(v, s.effects + calls, rs[1..]));
      assert Replies(v, s.effects, rs)[1..] == Replies(v, s.effects + calls, rs[1..]);
      assert (s.outgoing + Encode(m)) + more == s.outgoing + (Encode(m) + more);
    }
  }

  /** The client can take the answers apart again: as many as it asked, each of the kind its
      request calls for. */
  lemma {:induction false} RepliesMatch(v: Service, done: seq<Effect>, rs: seq<Request>, i: nat)
    requires i < |rs|
    ensures ParseAll(EncodeAll(Replies(v, done, rs))) == Replies(v, done, rs)
    ensures var m := Replies(v, done, rs)[i];
      match rs[i]
      case AskPing => m == Message(0x02, [])
      case AskStatus => m.kind == 0x11 && |m.payload| == 24
      case AskCodec(payload) =>
        && m.kind == 0x21 && |m.payload| == 4
        && m.payload[0] in {0, 1} && m.payload[1..] == [0, 0, 0]
        && (|payload| != 40 ==> m.payload[0] == 0)
    decreases |rs|
  {
    hide StatusBytes, ApplyRequest, ReadSetCodec;
    ParseEncode(Replies(v, done, rs));
    if i > 0 {
      RepliesMatch(v, done + Reply(v, done, rs[0]).1, rs[1..], i - 1);
    }
  }

  /** The requests in octets. */
  lemma RequestOctets(r: Request)
    ensures Encode(RequestMessage(r)) ==
      match r
      case AskPing => [0x01, 0, 0, 0]
      case AskStatus => [0x10, 0, 0, 0]
      case AskCodec(payload) => [0x20, 0, |payload| % 0x100, |payload| / 0x100] + payload
  {
    MessageOctets(RequestMessage(r));
  }

  /** What ends a session: a header that does not arrive whole, a message of an unknown type, a
      payload that does not arrive whole, or a client that takes no more. Nothing is answered
      and nothing called. */
  lemma SessionEnds(v: Service, s: Session, header: seq<byte>, rest: seq<byte>)
    requires |header| == 4
    ensures |s.incoming| < 4 ==> ServeNext(v, s) == (s.(incoming := []), false)
    ensures s.incoming == header + rest ==>
      var kind, len := header[0] as int + 0x100 * header[1] as int, header[2] as int + 0x100 * header[3] as int;
      && (kind !in {0x01, 0x10, 0x20} ==> ServeNext(v, s) == (s.(incoming := rest), false))
      && (kind == 0x20 && |rest| < len ==> ServeNext(v, s) == (s.(incoming := []), false))
    ensures s.writesLeft == 0 ==> !ServeNext(v, s).1 && ServeNext(v, s).0.outgoing == s.outgoing
  {
    hide ApplyRequest, StatusBytes, ReadSetCodec;
    if s.incoming == header + rest {
      ReadExactly(s, header, rest);
      assert header[..2] == [header[0], header[1]] && header[2..] == [header[2], header[3]];
    }
  }

  /** What a well-formed SetCodec does, and when its ack says so (1, against 0 for a refusal):
      AI settings go to the AI stage if there is one; an unknown codec is refused; a switch
      calls the pipeline and then the driver, whose answer counts; any other parameter goes
      to the pipeline, whose answer counts. */
  lemma CodecRequestAnswered(v: Service, done: seq<Effect>, payload: seq<byte>, id: u32)
    requires |payload| == 40
    ensures var r := ReadSetCodec(payload);
      var (m, calls) := Reply(v, done, AskCodec(payload));
      var first := if v.hasController then [PipelineCodec(id)] else [];
      var config := DriverConfig(id, r.key, r.value);
      var param := PipelineParam(r.key, NormalizeParam(r.key, r.value));
      && (r.codec == ['A' as int, 'I' as int] ==>
            calls == (if v.hasAi then [AiParam(r.key, r.value)] else []) && m.payload[0] == (if v.hasAi then 1 else 0))
      && (r.codec != ['A' as int, 'I' as int] && CodecIdFromName(r.codec).None? ==> calls == [] && m.payload[0] == 0)
      && (CodecIdFromName(r.codec) == Some(id) && r.key == Ascii("switch") && v.hasStream ==>
            calls == first + [config] && m.payload[0] == (if v.answer(done + first, config) then 1 else 0))
      && (CodecIdFromName(r.codec) == Some(id) && r.key == Ascii("switch") && !v.hasStream ==>
            calls == first && m.payload[0] == (if v.hasController then 1 else 0))
      && (CodecIdFromName(r.codec) == Some(id) && r.key != Ascii("switch") && v.hasController ==>
            calls == [param] && m.payload[0] == (if v.answer(done, param) then 1 else 0))
      && (CodecIdFromName(r.codec) == Some(id) && r.key != Ascii("switch") && !v.hasController ==>
            calls == [] && m.payload[0] == 0)
  {
    hide CodecIdFromName, NormalizeParam, ReadSetCodec;
    var r := ReadSetCodec(payload);
    assert Ascii("AI") == ['A' as int, 'I' as int];
    if CodecIdFromName(r.codec) == Some(id) {
      NotAi(r.codec);
    }
  }

  lemma NotAi(codec: seq<byte>)
    requires CodecIdFromName(codec).Some?
    ensures codec != Ascii("AI")
  {
    CodecIdsInverse(codec);
    NoCodecIsAi(CodecIdFromName(codec).value);
  }

  /** Exactly when a request of a known kind leaves the stream in sync: SetCodec always, Ping
      and GetStatus only without a payload, because their length field is ignored. */
  lemma InSyncExactly(v: Service, s: Session, kind: u16, payload: seq<byte>, rest: seq<byte>)
    requires kind in {PING, GET_STATUS, SET_CODEC} && |payload| < 0x1_0000
    requires s.incoming == Encode(Message(kind, payload)) + rest && s.writesLeft >= 2
    ensures ServeNext(v, s).0.incoming == rest <==> kind == SET_CODEC || payload == []
  {
    if kind == SET_CODEC {
      ServesOne(v, s, AskCodec(payload), rest);
    } else {
      var h := Header(kind, |payload|);
      assert s.incoming == h + (payload + rest);
      ReadExactly(s, h, payload + rest);
      HeaderFields(kind, |payload|, []);
      assert h + [] == h && h[2..] == h[2..4];
      assert |payload + rest| == |payload| + |rest|;
      if payload == [] {
        assert payload + rest == rest;
      }
    }
  }

  /** A codec switch chosen in the GUI reaches pipeline and driver with the same codec id. */
  lemma GuiSwitchReaches(v: Service, done: seq<Effect>, id: u32, name: string, value: i64)
    requires v.hasController && v.hasStream
    requires id <= CODEC_APTX_ADAPTIVE && AsciiOctets(name) == CodecNameFromId(id)
    ensures var calls := Reply(v, done, AskCodec(GuiSetCodec(name, "switch", value))).1;
      calls == [PipelineCodec(id), DriverConfig(id, Ascii("switch"), value)]
  {
    hide CodecIdFromName, CodecNameFromId, GuiSetCodec, ReadSetCodec;
    GuiSetCodecArrives(name, "switch", value);
    CodecNamesInverse(id);
    UpToNulWhole(CodecNameFromId(id));
    assert AsciiOctets("switch") == Ascii("switch");
    UpToNulWhole(Ascii("switch"));
    assert CodecNameFromId(id) != Ascii("AI") by { NoCodecIsAi(id); }
  }

  lemma NoCodecIsAi(id: u32)
    ensures CodecNameFromId(id) != Ascii("AI")
  {}

  // ---- The status fallback -----------------------------------------------------------------------------------

  /** The AVDTP state as the driver reports it to the service. */
  function StateCode(state: D.AvdtpState): u32 {
    match state
    case Idle => 0
    case Connecting => 1
    case Discovering => 2
    case Configuring => 3
    case Configured => 4
    case Open => 5
    case Streaming => 6
    case Closing => 7
  }

  const OWB_STATE_STREAMING: u32 := 3

  /** fill_status_from_controller: an empty name leaves the default standing. */
  function ControllerStatus(name: seq<byte>, streaming: bool, bitrate: u32): Status {
    Status(if name == [] then DEFAULT_CODEC else name, bitrate, streaming)
  }

  /** fill_status_from_driver, used when the server has no pipeline. query is what the driver
      answered; nothing when the device is closed or the query failed. */
  function DriverStatus(query: Option<(D.AvdtpState, u32)>): Status {
    match query
    case None => Status(DEFAULT_CODEC, 0, false)
    case Some((state, activeCodecId)) =>
      Status(CodecNameFromId(activeCodecId), 0, StateCode(state) == OWB_STATE_STREAMING)
  }

  /** What the GUI sees of a pipeline: its codec's name, "SBC" when it has none. */
  lemma ControllerStatusArrives(name: seq<byte>, streaming: bool, bitrate: u32)
    requires 0 !in name
    ensures GuiReadStatus(StatusBytes(ControllerStatus(name, streaming, bitrate)))
         == Status(if name == [] then DEFAULT_CODEC else Clipped(name, NAME_SIZE), bitrate, streaming)
  {
    var st := ControllerStatus(name, streaming, bitrate);
    StatusArrives(st);
    UpToNulWhole(Clipped(st.codecName, NAME_SIZE));
  }

  /** What the GUI sees through the fallback: no bitrate; the active codec's name, empty for an
      unknown id and "SBC" when the driver gave no answer. The driver reports its internal
      state, which the service compares with another numbering: "capturing" shows exactly in
      Configuring, hence never while streaming. */
  lemma FallbackCapturing(query: Option<(D.AvdtpState, u32)>)
    ensures var seen := GuiReadStatus(StatusBytes(DriverStatus(query)));
      && (seen.capturing <==> query.Some? && query.value.0 == D.Configuring)
      && seen.bitrate == 0
      && seen.codecName == (if query.Some? then CodecNameFromId(query.value.1) else DEFAULT_CODEC)
  {
    hide CodecNameFromId;
    var st := DriverStatus(query);
    if query.Some? {
      CodecNamesInverse(query.value.1);
    }
    StatusArrives(st);
    UpToNulWhole(st.codecName);
  }
}
