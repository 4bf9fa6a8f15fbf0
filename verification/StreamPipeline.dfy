/** service/src/stream_pipeline.cpp: captured PCM is reduced to stereo, accumulated, and cut
    into codec frames while codecs are swapped under a mutex.

    Pipe specifies the state; class StreamPipeline is the source's own form. The codec
    wrappers are unknown functions threading a state of type S. */
module StreamPipeline {
  import opened ByteTypes
  import A = AptxCodec

  const OUT_BYTES := 8192
  const BLOB_FEED_MAX := 2048
  const ACCUM_HARD_CAP := 0x4_0000
  const BLOCK := 8

  // ---- Stereo reduction -------------------------------------------------------------

  /** The buffer holds the frames the caller announces. */
  predicate Readable(src: seq<i16>, frames: nat, channels: nat) {
    frames * channels <= |src| && (frames > 0 ==> src != [])
  }

  lemma FrameFits(src: seq<i16>, f: nat, frames: nat, channels: nat)
    requires Readable(src, frames, channels) && f < frames
    ensures f * channels < |src| && (channels > 1 ==> f * channels + 1 < |src|)
    ensures Readable(src, f, channels)
  {
    assert (f + 1) * channels <= frames * channels;
  }

  /** The first two channels of every frame; mono is doubled. */
  function Stereo(src: seq<i16>, frames: nat, channels: nat): (dst: seq<i16>)
    requires Readable(src, frames, channels)
    ensures |dst| == 2 * frames
  {
    if frames == 0 then []
    else
      FrameFits(src, frames - 1, frames, channels);
      var at := (frames - 1) * channels;
      Stereo(src, frames - 1, channels) + [src[at], src[if channels > 1 then at + 1 else at]]
  }

  lemma {:induction false} StereoAt(src: seq<i16>, frames: nat, channels: nat, f: nat)
    requires Readable(src, frames, channels) && f < frames
    ensures f * channels < |src| && (channels > 1 ==> f * channels + 1 < |src|)
    ensures Stereo(src, frames, channels)[2 * f] == src[f * channels]
    ensures Stereo(src, frames, channels)[2 * f + 1] == src[if channels > 1 then f * channels + 1 else f * channels]
  {
    FrameFits(src, f, frames, channels);
    FrameFits(src, frames - 1, frames, channels);
    if f < frames - 1 {
      StereoAt(src, frames - 1, channels, f);
    }
  }

  lemma {:induction false} StereoOfStereo(src: seq<i16>, frames: nat)
    requires 2 * frames <= |src|
    ensures Stereo(src, frames, 2) == src[..2 * frames]
  {
    if frames > 0 {
      StereoOfStereo(src, frames - 1);
    }
  }

  method ToStereo(src: seq<i16>, frames: nat, channels: nat, dst: seq<i16>) returns (out: seq<i16>)
    requires Readable(src, frames, channels)
    ensures out == dst + Stereo(src, frames, channels)
  {
    if channels == 2 {
      StereoOfStereo(src, frames);
      return dst + src[..frames * 2];
    }
    out := dst;
    var f := 0;
    while f < frames
      invariant 0 <= f <= frames && Readable(src, f, channels)
      invariant out == dst + Stereo(src, f, channels)
    {
      FrameFits(src, f, frames, channels);
      var l := src[f * channels];
      var r := if channels > 1 then src[f * channels + 1] else l;
      out := out + [l] + [r];
      f := f + 1;
      if f < frames {
        FrameFits(src, f, frames, channels);
      }
    }
  }

  // ---- Codecs and state ------------------------------------------------------------------

  /** A codec wrapper: the samples it wants per call (0: it drains the whole buffer) and its
      encode, whose empty result stands for "nothing to send" or an error. */
  datatype Codec<!S> = Codec(frameSamples: S -> int, encode: (S, seq<i16>) -> (S, seq<byte>))

  /** A frame handed to the sink, with the codec state and samples it was made from. */
  datatype SentFrame<S> = SentFrame(codecId: u32, bytes: seq<byte>, state: S, samples: seq<i16>)

  /** sent, fed, arrived and mark are histories: frames handed to the sink, samples fed to
      codecs, stereo samples arrived since the last overflow clear, and how much had been
      fed at that clear. */
  datatype Pipe<!S> = Pipe(
    codec: Option<Codec<S>>,
    state: S,
    codecId: u32,
    accum: seq<i16>,
    streaming: bool,
    sent: seq<SentFrame<S>>,
    fed: seq<i16>,
    arrived: seq<i16>,
    mark: nat)

  function Arrive<S>(p: Pipe<S>, block: seq<i16>): Pipe<S> {
    var accum := p.accum + block;
    if |accum| > ACCUM_HARD_CAP then p.(accum := [], arrived := [], mark := |p.fed|)
    else p.(accum := accum, arrived := p.arrived + block)
  }

  /** encode() on the first n samples, which leave the accumulator whatever it returns. */
  function Feed<S>(p: Pipe<S>, n: nat): Pipe<S>
    requires p.codec.Some? && n <= |p.accum|
  {
    var chunk := p.accum[..n];
    var (state, bytes) := p.codec.value.encode(p.state, chunk);
    var frame := SentFrame(p.codecId, bytes, p.state, chunk);
    p.(state := state,
       accum := p.accum[n..],
       streaming := p.streaming || bytes != [],
       sent := if bytes == [] then p.sent else p.sent + [frame],
       fed := p.fed + chunk)
  }

  function DrainFramed<S>(p: Pipe<S>, frame: nat): (r: Pipe<S>)
    requires p.codec.Some? && frame > 0
    ensures |r.accum| < frame || |r.accum| == |p.accum|
    decreases |p.accum|
  {
    if |p.accum| < frame then p else DrainFramed(Feed(p, frame), frame)
  }

  function Usable(n: nat): nat {
    var capped := if n < BLOB_FEED_MAX then n else BLOB_FEED_MAX;
    capped - capped % BLOCK
  }

  function DrainBlob<S>(p: Pipe<S>): Pipe<S>
    requires p.codec.Some?
  {
    if Usable(|p.accum|) == 0 then p else Feed(p, Usable(|p.accum|))
  }

  /** The frame size is read once, when the drain begins. */
  function Drain<S>(p: Pipe<S>): Pipe<S> {
    if p.codec.None? then p
    else
      var fs := p.codec.value.frameSamples(p.state);
      if fs > 0 then DrainFramed(p, fs) else DrainBlob(p)
  }

  // ---- Turns of the streaming thread, and what other threads do to it -----------------------

  /** rebuild_codec and set_param, each under the codec mutex. */
  datatype Control<S> = Rebuild(codecId: u32, state: S) | SetParam(state: S)

  /** What CodecFactory makes of an id. */
  type Factory<!S> = u32 -> Option<Codec<S>>

  function Apply<S>(factory: Factory<S>, p: Pipe<S>, c: Control<S>): Pipe<S> {
    match c
    case Rebuild(id, state) => p.(codec := factory(id), state := state, codecId := id)
    case SetParam(state) => if p.codec.Some? then p.(state := state) else p
  }

  function ApplyAll<S>(factory: Factory<S>, p: Pipe<S>, cs: seq<Control<S>>): Pipe<S>
    decreases |cs|
  {
    if cs == [] then p else ApplyAll(factory, Apply(factory, p, cs[0]), cs[1..])
  }

  /** One pass of run(): the sink is down, no frames were read, or a block arrives and is
      drained, other threads acting between the two; or another thread acting elsewhere. */
  datatype Turn<S> =
    | SinkDown
    | NoFrames
    | Cycle(block: seq<i16>, during: seq<Control<S>>)
    | Between(control: Control<S>)

  function Pass<S>(factory: Factory<S>, p: Pipe<S>, t: Turn<S>): Pipe<S> {
    match t
    case SinkDown => p.(streaming := false)
    case NoFrames => p
    case Cycle(block, during) => Drain(ApplyAll(factory, Arrive(p, block), during))
    case Between(c) => Apply(factory, p, c)
  }

  function Run<S>(factory: Factory<S>, p: Pipe<S>, ts: seq<Turn<S>>): Pipe<S>
    decreases |ts|
  {
    if ts == [] then p else Run(factory, Pass(factory, p, ts[0]), ts[1..])
  }

  /** The constructor: SBC and an empty accumulator. */
  function Initial<S>(factory: Factory<S>, state: S): Pipe<S> {
    Pipe(factory(CODEC_SBC), state, CODEC_SBC, [], false, [], [], [], 0)
  }

  // ---- The pipeline as the source writes it ---------------------------------------------------

  class StreamPipeline<S(!new)> {
    const factory: Factory<S>
    var codec: Option<Codec<S>>
    var state: S
    var codecId: u32
    var accum: seq<i16>
    var streaming: bool
    ghost var sent: seq<SentFrame<S>>
    ghost var fed: seq<i16>
    ghost var arrived: seq<i16>
    ghost var mark: nat

    ghost function Snapshot(): Pipe<S>
      reads this
    {
      Pipe(codec, state, codecId, accum, streaming, sent, fed, arrived, mark)
    }

    constructor (factory: Factory<S>, state: S)
      ensures this.factory == factory && Snapshot() == Initial(factory, state)
    {
      this.factory := factory;
      codec, this.state, codecId := factory(CODEC_SBC), state, CODEC_SBC;
      accum, streaming := [], false;
      sent, fed, arrived, mark := [], [], [], 0;
    }

    method RebuildCodec(id: u32, state: S)
      modifies this
      ensures Snapshot() == Apply(factory, old(Snapshot()), Rebuild(id, state))
    {
      codec := factory(id);
      this.state := state;
      codecId := id;
    }

    method SetCodecParam(state: S)
      modifies this
      ensures Snapshot() == Apply(factory, old(Snapshot()), SetParam(state))
    {
      if codec.Some? {
        this.state := state;
      }
    }

    /** Other threads, one after the other under the codec mutex. */
    method OtherThreads(controls: seq<Control<S>>)
      modifies this
      ensures Snapshot() == ApplyAll(factory, old(Snapshot()), controls)
    {
      var i := 0;
      while i < |controls|
        invariant 0 <= i <= |controls|
        invariant ApplyAll(factory, Snapshot(), controls[i..]) == ApplyAll(factory, old(Snapshot()), controls)
      {
        match controls[i] {
          case Rebuild(id, state) => RebuildCodec(id, state);
          case SetParam(state) => SetCodecParam(state);
        }
        assert controls[i..][1..] == controls[i + 1..];
        i := i + 1;
      }
    }

    /** One encode() call and the erase behind it. */
    method EncodeFront(n: nat)
      requires codec.Some? && n <= |accum|
      modifies this
      ensures Snapshot() == Feed(old(Snapshot()), n)
    {
      var chunk := accum[..n];
      var result := codec.value.encode(state, chunk);
      if result.1 != [] {
        sent := sent + [SentFrame(codecId, result.1, state, chunk)];
        streaming := true;
      }
      state := result.0;
      fed := fed + chunk;
      accum := accum[n..];
    }

    method DrainCodec()
      modifies this
      ensures Snapshot() == Drain(old(Snapshot()))
    {
      if codec.None? {
        return;
      }
      var fs := codec.value.frameSamples(state);
      if fs > 0 {
        while |accum| >= fs
          invariant codec == old(codec)
          invariant DrainFramed(Snapshot(), fs) == DrainFramed(old(Snapshot()), fs)
        {
          EncodeFront(fs);
        }
        return;
      }
      var usable := if |accum| < BLOB_FEED_MAX then |accum| else BLOB_FEED_MAX;
      usable := usable - usable % BLOCK;
      if usable == 0 {
        return;
      }
      EncodeFront(usable);
    }

    /** One pass of run()'s loop; ai is what the AI stage makes of the stereo block, others
        what other threads do to the codec before the drain takes its mutex. */
    method RunPass(sinkOpen: bool, readBuf: seq<i16>, frames: int, channels: nat, ai: seq<i16> -> seq<i16>,
                   others: seq<Control<S>>)
      requires frames > 0 ==> Readable(readBuf, frames, channels)
      modifies this
      ensures Snapshot() == Pass(factory, old(Snapshot()),
        if !sinkOpen then SinkDown
        else if frames <= 0 then NoFrames
        else Cycle(ai(Stereo(readBuf, frames, channels)), others))
    {
      if !sinkOpen {
        streaming := false;
        return;
      }
      if frames <= 0 {
        return;
      }
      var stereo := ToStereo(readBuf, frames, channels, []);
      assert stereo == Stereo(readBuf, frames, channels);
      var block := ai(stereo);
      accum := accum + block;
      if |accum| > ACCUM_HARD_CAP {
        accum := [];
        arrived, mark := [], |fed|;
      } else {
        arrived := arrived + block;
      }
      assert Snapshot() == Arrive(old(Snapshot()), block);
      OtherThreads(others);
      DrainCodec();
    }
  }

  // ---- Conservation ------------------------------------------------------------------------------

  /** Since the last overflow clear, what was fed followed by the accumulator is what
      arrived; and the accumulator respects its cap. */
  predicate Conserved<S>(p: Pipe<S>) {
    && p.mark <= |p.fed|
    && p.fed[p.mark..] + p.accum == p.arrived
    && |p.accum| <= 0x4_0000
  }

  /** The overflow clear fires exactly beyond 2^18 samples, and takes everything. */
  lemma OverflowExactly<S>(p: Pipe<S>, block: seq<i16>)
    ensures Arrive(p, block).accum == if |p.accum| + |block| > 0x4_0000 then [] else p.accum + block
  {}

  lemma FeedConserves<S>(p: Pipe<S>, n: nat)
    requires Conserved(p) && p.codec.Some? && n <= |p.accum|
    ensures Conserved(Feed(p, n))
  {
    var p' := Feed(p, n);
    assert p'.fed[p.mark..] == p.fed[p.mark..] + p.accum[..n];
    assert p.accum[..n] + p.accum[n..] == p.accum;
    assert p'.fed[p.mark..] + p'.accum == p.fed[p.mark..] + (p.accum[..n] + p.accum[n..]);
  }

  lemma {:induction false} DrainFramedConserves<S>(p: Pipe<S>, frame: nat)
    requires Conserved(p) && p.codec.Some? && frame > 0
    ensures Conserved(DrainFramed(p, frame))
    decreases |p.accum|
  {
    hide Conserved;
    if |p.accum| >= frame {
      FeedConserves(p, frame);
      DrainFramedConserves(Feed(p, frame), frame);
    }
  }

  lemma DrainConserves<S>(p: Pipe<S>)
    requires Conserved(p)
    ensures Conserved(Drain(p))
  {
    hide Conserved, Feed;
    if p.codec.Some? {
      var fs := p.codec.value.frameSamples(p.state);
      if fs > 0 {
        DrainFramedConserves(p, fs);
      } else if Usable(|p.accum|) != 0 {
        FeedConserves(p, Usable(|p.accum|));
      }
    }
  }

  lemma {:induction false} ControlsConserve<S>(factory: Factory<S>, p: Pipe<S>, cs: seq<Control<S>>)
    requires Conserved(p)
    ensures Conserved(ApplyAll(factory, p, cs)) && ApplyAll(factory, p, cs).accum == p.accum
    decreases |cs|
  {
    if cs != [] {
      ControlsConserve(factory, Apply(factory, p, cs[0]), cs[1..]);
    }
  }

  lemma ArriveConserves<S>(p: Pipe<S>, block: seq<i16>)
    requires Conserved(p)
    ensures Conserved(Arrive(p, block))
  {
    var p' := Arrive(p, block);
    if |p.accum + block| <= ACCUM_HARD_CAP {
      assert p.fed[p.mark..] + (p.accum + block) == p.arrived + block;
    }
  }

  /** Sample conservation over every run, whatever the codecs return and whenever they are
      swapped; the accumulator is within its cap at every loop head. */
  lemma {:induction false} EveryRunConserves<S>(factory: Factory<S>, p: Pipe<S>, ts: seq<Turn<S>>)
    requires Conserved(p)
    ensures Conserved(Run(factory, p, ts))
    decreases |ts|
  {
    if ts != [] {
      assert Conserved(Pass(factory, p, ts[0])) by {
        hide Conserved, Drain, Arrive;
        match ts[0]
        case SinkDown => SameSamples(p, p.(streaming := false));
        case NoFrames =>
        case Cycle(block, during) =>
          ArriveConserves(p, block);
          ControlsConserve(factory, Arrive(p, block), during);
          DrainConserves(ApplyAll(factory, Arrive(p, block), during));
        case Between(c) => SameSamples(p, Apply(factory, p, c));
      }
      EveryRunConserves(factory, Pass(factory, p, ts[0]), ts[1..]);
    }
  }

  lemma SameSamples<S>(p: Pipe<S>, p': Pipe<S>)
    requires Conserved(p)
    requires p'.mark == p.mark && p'.fed == p.fed && p'.accum == p.accum && p'.arrived == p.arrived
    ensures Conserved(p')
  {}

  // ---- When the overflow clear never fires ---------------------------------------------------------

  function Blocks<S>(ts: seq<Turn<S>>): seq<i16>
    decreases |ts|
  {
    if ts == [] then [] else (if ts[0].Cycle? then ts[0].block else []) + Blocks(ts[1..])
  }

  /** Every codec of these ids wants between 1 and limit samples per frame. */
  ghost predicate Framed<S(!new)>(factory: Factory<S>, ids: set<u32>, limit: nat) {
    forall id <- ids :: FramedCodec(factory(id), limit)
  }

  ghost predicate FramedCodec<S(!new)>(codec: Option<Codec<S>>, limit: nat) {
    codec.Some? && forall s :: 0 < codec.value.frameSamples(s) <= limit
  }

  /** Every codec of these ids wants at most limit samples per frame, or drains the whole
      buffer. */
  ghost predicate Mixed<S(!new)>(factory: Factory<S>, ids: set<u32>, limit: nat) {
    forall id <- ids :: MixedCodec(factory(id), limit)
  }

  ghost predicate MixedCodec<S(!new)>(codec: Option<Codec<S>>, limit: nat) {
    codec.Some? && forall s :: codec.value.frameSamples(s) <= limit
  }

  /** A codec that drains the whole buffer, such as aptX. */
  ghost predicate BlobCodec<S(!new)>(codec: Option<Codec<S>>) {
    codec.Some? && forall s :: codec.value.frameSamples(s) <= 0
  }

  predicate ControlUses<S>(c: Control<S>, ids: set<u32>) {
    c.Rebuild? ==> c.codecId in ids
  }

  ghost predicate TurnUses<S>(t: Turn<S>, ids: set<u32>) {
    match t
    case Cycle(_, during) => forall c <- during :: ControlUses(c, ids)
    case Between(c) => ControlUses(c, ids)
    case _ => true
  }

  /** The codec in use is the one its id stands for. */
  ghost predicate Tagged<S>(factory: Factory<S>, p: Pipe<S>) {
    p.codec == factory(p.codecId)
  }

  lemma {:induction false} ControlsKeepTag<S>(factory: Factory<S>, p: Pipe<S>, cs: seq<Control<S>>)
    requires Tagged(factory, p)
    ensures var p' := ApplyAll(factory, p, cs);
      && Tagged(factory, p')
      && p' == p.(codec := p'.codec, codecId := p'.codecId, state := p'.state)
    decreases |cs|
  {
    if cs != [] {
      ControlsKeepTag(factory, Apply(factory, p, cs[0]), cs[1..]);
    }
  }

  lemma {:induction false} ControlsUse<S>(factory: Factory<S>, p: Pipe<S>, cs: seq<Control<S>>, ids: set<u32>)
    requires p.codecId in ids && forall c <- cs :: ControlUses(c, ids)
    ensures ApplyAll(factory, p, cs).codecId in ids
    decreases |cs|
  {
    if cs != [] {
      assert cs[0] in cs;
      ControlsUse(factory, Apply(factory, p, cs[0]), cs[1..], ids);
    }
  }

  lemma {:induction false} DrainFramedKeeps<S>(p: Pipe<S>, frame: nat)
    requires p.codec.Some? && frame > 0
    ensures var p' := DrainFramed(p, frame);
      && p'.codec == p.codec && p'.codecId == p.codecId && p'.arrived == p.arrived && p'.mark == p.mark
      && |p'.accum| < frame
    decreases |p.accum|
  {
    if |p.accum| >= frame {
      DrainFramedKeeps(Feed(p, frame), frame);
    }
  }

  lemma DrainKeeps<S>(p: Pipe<S>)
    ensures var p' := Drain(p);
      p'.codec == p.codec && p'.codecId == p.codecId && p'.arrived == p.arrived && p'.mark == p.mark
    ensures p.codec.Some? && p.codec.value.frameSamples(p.state) > 0
            ==> |Drain(p).accum| < p.codec.value.frameSamples(p.state)
    ensures p.codec.Some? && p.codec.value.frameSamples(p.state) <= 0
            ==> |Drain(p).accum| == |p.accum| - Usable(|p.accum|)
  {
    if p.codec.Some? {
      var fs := p.codec.value.frameSamples(p.state);
      if fs > 0 {
        DrainFramedKeeps(p, fs);
      }
    }
  }

  /** A drain in blob mode leaves at most seven samples exactly when it found at most 2055. */
  lemma BlobResidue(n: nat)
    ensures n - Usable(n) <= 7 <==> n <= 2055
    ensures Usable(n) % 8 == 0 && Usable(n) <= 2048
  {}

  /** What remains behind each drain. */
  ghost predicate Settled<S(!new)>(factory: Factory<S>, p: Pipe<S>, ids: set<u32>, residue: nat) {
    Tagged(factory, p) && p.codecId in ids && |p.accum| <= residue
  }

  /** Framed codecs of at most residue + 1 samples and any read (4096 int16 of mono are 8192
      stereo samples); or any mix of those with blob codecs, and reads of at most 2048
      stereo samples. */
  ghost predicate Paced<S(!new)>(factory: Factory<S>, ids: set<u32>, residue: nat, t: Turn<S>) {
    && TurnUses(t, ids)
    && residue + 2 * 4096 <= 0x4_0000
    && (|| (Framed(factory, ids, residue + 1) && (t.Cycle? ==> |t.block| <= 2 * 4096))
        || (Mixed(factory, ids, residue + 1) && 7 <= residue && (t.Cycle? ==> |t.block| <= 2048)))
  }

  lemma PassSettles<S(!new)>(factory: Factory<S>, p: Pipe<S>, t: Turn<S>, ids: set<u32>, residue: nat)
    requires Settled(factory, p, ids, residue) && Paced(factory, ids, residue, t)
    ensures Settled(factory, Pass(factory, p, t), ids, residue)
    ensures Pass(factory, p, t).arrived == p.arrived + (if t.Cycle? then t.block else [])
    ensures Pass(factory, p, t).mark == p.mark
  {
    hide Drain;
    assert p.arrived + [] == p.arrived;
    match t
    case SinkDown =>
    case NoFrames =>
    case Between(c) =>
    case Cycle(block, during) =>
      var p1 := Arrive(p, block);
      var p2 := ApplyAll(factory, p1, during);
      ControlsKeepTag(factory, p1, during);
      ControlsUse(factory, p1, during, ids);
      DrainKeeps(p2);
      assert Framed(factory, ids, residue + 1) ==> FramedCodec(p2.codec, residue + 1);
      assert Mixed(factory, ids, residue + 1) ==> MixedCodec(p2.codec, residue + 1);
  }

  /** With framed codecs and any read, or any mix of framed and blob codecs and reads of at
      most 2048 samples, nothing is ever dropped, however often codecs are swapped: what was
      fed and what waits are together all that was ever read, and the residue stays below
      the largest frame, or at most seven when all are blob codecs. */
  lemma NothingDropped<S(!new)>(factory: Factory<S>, p: Pipe<S>, ts: seq<Turn<S>>, ids: set<u32>, residue: nat)
    requires Conserved(p) && Settled(factory, p, ids, residue)
    requires forall i | 0 <= i < |ts| :: Paced(factory, ids, residue, ts[i])
    ensures var p' := Run(factory, p, ts);
      && |p'.accum| <= residue
      && p.mark <= |p'.fed|
      && p'.fed[p.mark..] + p'.accum == p.arrived + Blocks(ts)
  {
    hide Paced, Run, Blocks, Tagged;
    EveryRunConserves(factory, p, ts);
    RunSettles(factory, p, ts, ids, residue);
  }

  lemma {:induction false} RunSettles<S(!new)>(factory: Factory<S>, p: Pipe<S>, ts: seq<Turn<S>>, ids: set<u32>,
                                               residue: nat)
    requires Settled(factory, p, ids, residue)
    requires forall i | 0 <= i < |ts| :: Paced(factory, ids, residue, ts[i])
    ensures var p' := Run(factory, p, ts);
      Settled(factory, p', ids, residue) && p'.arrived == p.arrived + Blocks(ts) && p'.mark == p.mark
    decreases |ts|
  {
    hide Settled, Paced, Pass;
    if ts != [] {
      var p1 := Pass(factory, p, ts[0]);
      PassSettles(factory, p, ts[0], ids, residue);
      RunSettles(factory, p1, ts[1..], ids, residue);
      var head := if ts[0].Cycle? then ts[0].block else [];
      assert (p.arrived + head) + Blocks(ts[1..]) == p.arrived + (head + Blocks(ts[1..]));
    }
  }

  // ---- A blob codec at a steady pace ---------------------------------------------------------------

  /** n passes that each read this block. */
  function Steadily<S>(block: seq<i16>, n: nat): (ts: seq<Turn<S>>)
    ensures |ts| == n
  {
    if n == 0 then [] else [Cycle(block, [])] + Steadily(block, n - 1)
  }

  lemma {:induction false} SteadyBlocks<S>(block: seq<i16>, n: nat)
    ensures |Blocks<S>(Steadily(block, n))| == n * |block|
    ensures forall i | 0 <= i < n :: Steadily<S>(block, n)[i] == Cycle(block, [])
  {
    if n > 0 {
      SteadyBlocks<S>(block, n - 1);
      assert Steadily<S>(block, n)[1..] == Steadily<S>(block, n - 1);
      assert n * |block| == |block| + (n - 1) * |block|;
    }
  }

  /** Each pass feeds at most 2048 samples. */
  lemma {:induction false} BlobFeeds<S(!new)>(factory: Factory<S>, p: Pipe<S>, block: seq<i16>, n: nat)
    requires BlobCodec(p.codec) && p.mark <= |p.fed|
    ensures var p' := Run(factory, p, Steadily(block, n));
      |p'.fed| <= |p.fed| + n * BLOB_FEED_MAX && p.mark <= p'.mark
    decreases n
  {
    if n > 0 {
      var ts := Steadily<S>(block, n);
      assert ts[1..] == Steadily(block, n - 1);
      var p1 := Pass(factory, p, ts[0]);
      assert ApplyAll(factory, Arrive(p, block), []) == Arrive(p, block);
      BlobFeeds(factory, p1, block, n - 1);
    }
  }

  /** A blob codec keeps up with a steady pace exactly up to 2048 samples a pass; beyond,
      the backlog grows until the overflow clear drops it. */
  lemma BlobPaceExactly<S(!new)>(factory: Factory<S>, p: Pipe<S>, block: seq<i16>)
    requires Conserved(p) && Tagged(factory, p) && BlobCodec(p.codec) && |p.accum| <= 7
    ensures |block| <= 2048
       <==> forall n: nat ::
              Run(factory, p, Steadily(block, n)).arrived == p.arrived + Blocks<S>(Steadily(block, n))
  {
    hide Conserved, Tagged, Paced, Run, Blocks, Steadily;
    if |block| <= BLOB_FEED_MAX {
      forall n: nat
        ensures Run(factory, p, Steadily(block, n)).arrived == p.arrived + Blocks<S>(Steadily(block, n))
      {
        SteadyBlocks<S>(block, n);
        SlowEnough(factory, p, block);
        assert Settled(factory, p, {p.codecId}, 7);
        RunSettles(factory, p, Steadily(block, n), {p.codecId}, 7);
      }
    } else {
      Overflows(factory, p, block, ACCUM_HARD_CAP + 1);
    }
  }

  lemma SlowEnough<S(!new)>(factory: Factory<S>, p: Pipe<S>, block: seq<i16>)
    requires Tagged(factory, p) && BlobCodec(p.codec) && |block| <= BLOB_FEED_MAX
    ensures Paced(factory, {p.codecId}, 7, Cycle(block, []))
  {}

  lemma Overflows<S(!new)>(factory: Factory<S>, p: Pipe<S>, block: seq<i16>, n: nat)
    requires Conserved(p) && BlobCodec(p.codec) && |block| > BLOB_FEED_MAX && n > ACCUM_HARD_CAP
    ensures Run(factory, p, Steadily(block, n)).arrived != p.arrived + Blocks<S>(Steadily(block, n))
  {
    hide Run, Blocks, Steadily;
    var ts := Steadily<S>(block, n);
    BlobFeeds(factory, p, block, n);
    SteadyBlocks<S>(block, n);
    EveryRunConserves(factory, p, ts);
    var p' := Run(factory, p, ts);
    assert |p'.arrived| == |p'.fed| - p'.mark + |p'.accum|;
    assert n * |block| >= n * (BLOB_FEED_MAX + 1);
  }

  // ---- Every frame carries the id of the codec that made it ---------------------------------------------

  ghost predicate FramesTagged<S>(factory: Factory<S>, p: Pipe<S>) {
    && Tagged(factory, p)
    && forall f <- p.sent ::
         factory(f.codecId).Some? && factory(f.codecId).value.encode(f.state, f.samples).1 == f.bytes
  }

  lemma FeedTags<S>(factory: Factory<S>, p: Pipe<S>, n: nat)
    requires FramesTagged(factory, p) && p.codec.Some? && n <= |p.accum|
    ensures FramesTagged(factory, Feed(p, n))
  {}

  lemma {:induction false} DrainFramedTags<S>(factory: Factory<S>, p: Pipe<S>, frame: nat)
    requires FramesTagged(factory, p) && p.codec.Some? && frame > 0
    ensures FramesTagged(factory, DrainFramed(p, frame))
    decreases |p.accum|
  {
    hide FramesTagged;
    if |p.accum| >= frame {
      FeedTags(factory, p, frame);
      DrainFramedTags(factory, Feed(p, frame), frame);
    }
  }

  lemma PassTags<S>(factory: Factory<S>, p: Pipe<S>, t: Turn<S>)
    requires FramesTagged(factory, p)
    ensures FramesTagged(factory, Pass(factory, p, t))
  {
    hide Feed, DrainFramed;
    match t
    case SinkDown =>
    case NoFrames =>
    case Between(c) =>
    case Cycle(block, during) =>
      var p1 := Arrive(p, block);
      var p2 := ApplyAll(factory, p1, during);
      ControlsKeepTag(factory, p1, during);
      assert p2.sent == p1.sent == p.sent;
      assert FramesTagged(factory, p2);
      if p2.codec.Some? {
        var fs := p2.codec.value.frameSamples(p2.state);
        if fs > 0 {
          DrainFramedTags(factory, p2, fs);
        } else if Usable(|p2.accum|) != 0 {
          FeedTags(factory, p2, Usable(|p2.accum|));
        }
      }
  }

  /** Over every run from the start, with codecs swapped at any point, each frame reaches the
      sink under the id of a codec that encodes its samples to exactly those bytes. */
  lemma {:induction false} EveryFrameTagged<S>(factory: Factory<S>, p: Pipe<S>, ts: seq<Turn<S>>)
    requires FramesTagged(factory, p)
    ensures FramesTagged(factory, Run(factory, p, ts))
    decreases |ts|
  {
    hide FramesTagged;
    if ts != [] {
      PassTags(factory, p, ts[0]);
      EveryFrameTagged(factory, Pass(factory, p, ts[0]), ts[1..]);
    }
  }

  /** Both from the constructor on. */
  lemma FromTheStart<S>(factory: Factory<S>, state: S, ts: seq<Turn<S>>)
    ensures var p := Run(factory, Initial(factory, state), ts);
      Conserved(p) && FramesTagged(factory, p)
  {
    hide Run;
    EveryRunConserves(factory, Initial(factory, state), ts);
    EveryFrameTagged(factory, Initial(factory, state), ts);
  }

  // ---- Runs without a codec change ------------------------------------------------------------------

  /** A turn that keeps the codec and its encoder context: the only calls of other threads are
      parameter changes that leave the codec's state as it is, as they do for aptX. */
  ghost predicate KeepsContext<C>(p: Pipe<C>, t: Turn<C>) {
    match t
    case Cycle(_, during) => forall c <- during :: c == SetParam(p.state)
    case Between(c) => c == SetParam(p.state)
    case _ => true
  }

  ghost predicate Undisturbed<C>(factory: Factory<C>, p: Pipe<C>, ts: seq<Turn<C>>)
    decreases |ts|
  {
    ts == [] || (KeepsContext(p, ts[0]) && Undisturbed(factory, Pass(factory, p, ts[0]), ts[1..]))
  }

  lemma {:induction false} SettersKeep<C>(factory: Factory<C>, p: Pipe<C>, cs: seq<Control<C>>)
    requires forall c <- cs :: c == SetParam(p.state)
    ensures ApplyAll(factory, p, cs) == p
  {
    if cs != [] {
      assert cs[0] in cs;
      assert Apply(factory, p, cs[0]) == p;
      assert forall c <- cs[1..] :: c in cs;
      SettersKeep(factory, p, cs[1..]);
    }
  }

  // ---- Framed codecs: every frame in order ---------------------------------------------------------------

  datatype FramedOutput<S> = FramedOutput(state: S, packets: seq<seq<byte>>)

  /** A framed codec run once over a whole sample stream: encode on each group of frame
      samples, the state threaded through; its non-empty results are the packets. */
  function FramedStream<S>(encode: (S, seq<i16>) -> (S, seq<byte>), state: S, samples: seq<i16>, frame: nat)
    : FramedOutput<S>
    requires frame > 0
  {
    if |samples| < frame then FramedOutput(state, [])
    else
      var r := encode(state, samples[..frame]);
      var rest := FramedStream(encode, r.0, samples[frame..], frame);
      FramedOutput(rest.state, Packet(r.1) + rest.packets)
  }

  function Packet(bytes: seq<byte>): seq<seq<byte>> {
    if bytes == [] then [] else [bytes]
  }

  lemma {:induction false} FramedSplits<S>(encode: (S, seq<i16>) -> (S, seq<byte>), state: S, a: seq<i16>, b: seq<i16>,
                                           frame: nat)
    requires frame > 0 && Whole(|a|, frame)
    ensures var first := FramedStream(encode, state, a, frame);
      var second := FramedStream(encode, first.state, b, frame);
      FramedStream(encode, state, a + b, frame) == FramedOutput(second.state, first.packets + second.packets)
    decreases |a|
  {
    hide Packet;
    if a == [] {
      assert a + b == b;
    } else {
      var r := encode(state, a[..frame]);
      FramedSplits(encode, r.0, a[frame..], b, frame);
      assert (a + b)[..frame] == a[..frame];
      assert (a + b)[frame..] == a[frame..] + b;
    }
  }

  /** A whole number of frames. */
  predicate Whole(n: nat, frame: nat)
    requires frame > 0
  {
    n == 0 || (n >= frame && Whole(n - frame, frame))
  }

  lemma {:induction false} WholeGrows(n: nat, frame: nat)
    requires frame > 0 && Whole(n, frame)
    ensures Whole(n + frame, frame)
  {
    if n > 0 {
      WholeGrows(n - frame, frame);
    }
  }

  function Packets<S>(sent: seq<SentFrame<S>>): seq<seq<byte>> {
    if sent == [] then [] else Packets(sent[..|sent| - 1]) + [sent[|sent| - 1].bytes]
  }

  /** Since the codec took over with state0, at nf samples fed and ns frames sent, the sink got
      exactly the packets of one pass over everything fed, all under its id. */
  ghost predicate FramedSent<S>(codec: Codec<S>, id: u32, frame: nat, state0: S, nf: nat, ns: nat, p: Pipe<S>)
    requires frame > 0
  {
    && p.codec == Some(codec) && p.codecId == id
    && nf <= |p.fed| && ns <= |p.sent|
    && Whole(|p.fed| - nf, frame)
    && FramedStream(codec.encode, state0, p.fed[nf..], frame) == FramedOutput(p.state, Packets(p.sent[ns..]))
    && forall f <- p.sent[ns..] :: f.codecId == id
  }

  lemma PacketsAppend<S>(sent: seq<SentFrame<S>>, ns: nat, f: SentFrame<S>)
    requires ns <= |sent|
    ensures Packets((sent + [f])[ns..]) == Packets(sent[ns..]) + [f.bytes]
    ensures (sent + [f])[ns..] == sent[ns..] + [f]
  {
    var tail := (sent + [f])[ns..];
    assert tail[..|tail| - 1] == sent[ns..];
  }

  lemma OneFrame<S>(encode: (S, seq<i16>) -> (S, seq<byte>), state: S, chunk: seq<i16>, frame: nat)
    requires frame > 0 && |chunk| == frame
    ensures var r := encode(state, chunk);
      FramedStream(encode, state, chunk, frame) == FramedOutput(r.0, Packet(r.1))
  {
    hide Packet;
    var r := encode(state, chunk);
    assert chunk[..frame] == chunk && chunk[frame..] == [];
    assert Packet(r.1) + [] == Packet(r.1);
  }

  lemma FeedSends<S>(codec: Codec<S>, id: u32, frame: nat, state0: S, nf: nat, ns: nat, p: Pipe<S>)
    requires frame > 0 && FramedSent(codec, id, frame, state0, nf, ns, p) && frame <= |p.accum|
    ensures FramedSent(codec, id, frame, state0, nf, ns, Feed(p, frame))
  {
    hide FramedStream, Packets;
    var chunk := p.accum[..frame];
    var (next, bytes) := codec.encode(p.state, chunk);
    OneFrame(codec.encode, p.state, chunk, frame);
    FramedSplits(codec.encode, state0, p.fed[nf..], chunk, frame);
    assert (p.fed + chunk)[nf..] == p.fed[nf..] + chunk;
    WholeGrows(|p.fed| - nf, frame);
    if bytes != [] {
      PacketsAppend(p.sent, ns, SentFrame(p.codecId, bytes, p.state, chunk));
    } else {
      assert Packets(p.sent[ns..]) + [] == Packets(p.sent[ns..]);
    }
  }

  lemma {:induction false} DrainSends<S>(codec: Codec<S>, id: u32, frame: nat, state0: S, nf: nat, ns: nat, p: Pipe<S>)
    requires frame > 0 && FramedSent(codec, id, frame, state0, nf, ns, p)
    ensures FramedSent(codec, id, frame, state0, nf, ns, DrainFramed(p, frame))
    decreases |p.accum|
  {
    hide FramedStream, Packets;
    if |p.accum| >= frame {
      FeedSends(codec, id, frame, state0, nf, ns, p);
      DrainSends(codec, id, frame, state0, nf, ns, Feed(p, frame));
    }
  }

  lemma {:induction false} RunSends<S>(factory: Factory<S>, codec: Codec<S>, id: u32, frame: nat, state0: S,
                                       nf: nat, ns: nat, p: Pipe<S>, ts: seq<Turn<S>>)
    requires frame > 0 && (forall s :: codec.frameSamples(s) == frame)
    requires FramedSent(codec, id, frame, state0, nf, ns, p) && Undisturbed(factory, p, ts)
    ensures FramedSent(codec, id, frame, state0, nf, ns, Run(factory, p, ts))
    decreases |ts|
  {
    hide FramedStream, Packets, Feed;
    if ts != [] {
      var p1 := Pass(factory, p, ts[0]);
      assert FramedSent(codec, id, frame, state0, nf, ns, p1) by {
        if ts[0].Cycle? {
          var q := Arrive(p, ts[0].block);
          SettersKeep(factory, q, ts[0].during);
          DrainSends(codec, id, frame, state0, nf, ns, q);
        }
      }
      RunSends(factory, codec, id, frame, state0, nf, ns, p1, ts[1..]);
    }
  }

  /** Switch to a framed codec at any moment and run on: the packets handed to the sink since
      then are exactly the non-empty results of encode on the consecutive frames of the samples
      fed since then, in order, its state threaded through, all under its id. */
  lemma EveryFrameSent<S>(factory: Factory<S>, codec: Codec<S>, id: u32, frame: nat, state0: S,
                          p: Pipe<S>, ts: seq<Turn<S>>)
    requires frame > 0 && (forall s :: codec.frameSamples(s) == frame) && factory(id) == Some(codec)
    requires Undisturbed(factory, Apply(factory, p, Rebuild(id, state0)), ts)
    ensures var p' := Run(factory, Apply(factory, p, Rebuild(id, state0)), ts);
      && |p.fed| <= |p'.fed| && |p.sent| <= |p'.sent|
      && FramedStream(codec.encode, state0, p'.fed[|p.fed|..], frame)
         == FramedOutput(p'.state, Packets(p'.sent[|p.sent|..]))
      && forall f <- p'.sent[|p.sent|..] :: f.codecId == id
  {
    var p0 := Apply(factory, p, Rebuild(id, state0));
    assert FramedSent(codec, id, frame, state0, |p.fed|, |p.sent|, p0);
    RunSends(factory, codec, id, frame, state0, |p.fed|, |p.sent|, p0, ts);
  }

  /** A parameter changes the state of the codec that runs, and nothing when there is none. */
  lemma ParamNeedsCodec<S>(factory: Factory<S>, p: Pipe<S>, state: S)
    ensures p.codec.None? ==> Apply(factory, p, SetParam(state)) == p
    ensures p.codec.Some? ==> Apply(factory, p, SetParam(state)) == p.(state := state)
  {}

  // ---- The streaming flag -------------------------------------------------------------------------------

  /** Set by a frame that was sent, and by nothing else. */
  ghost predicate FlagFollows<S>(p: Pipe<S>, p': Pipe<S>) {
    p.sent <= p'.sent && p'.streaming == (p.streaming || p'.sent != p.sent)
  }

  lemma {:induction false} DrainFramedFlag<S>(p: Pipe<S>, frame: nat)
    requires p.codec.Some? && frame > 0
    ensures FlagFollows(p, DrainFramed(p, frame))
    decreases |p.accum|
  {
    if |p.accum| >= frame {
      FeedFlag(p, frame);
      DrainFramedFlag(Feed(p, frame), frame);
    }
  }

  lemma FeedFlag<S>(p: Pipe<S>, n: nat)
    requires p.codec.Some? && n <= |p.accum|
    ensures FlagFollows(p, Feed(p, n))
  {}

  lemma PassFlag<S>(factory: Factory<S>, p: Pipe<S>, t: Turn<S>)
    requires !t.SinkDown?
    ensures FlagFollows(p, Pass(factory, p, t))
  {
    hide DrainFramed, Feed;
    if t.Cycle? {
      var p1 := Arrive(p, t.block);
      var p2 := ApplyAll(factory, p1, t.during);
      ControlsLeave(factory, p1, t.during);
      if p2.codec.Some? {
        var fs := p2.codec.value.frameSamples(p2.state);
        if fs > 0 {
          DrainFramedFlag(p2, fs);
        } else if Usable(|p2.accum|) != 0 {
          FeedFlag(p2, Usable(|p2.accum|));
        }
      }
    }
  }

  lemma {:induction false} ControlsLeave<S>(factory: Factory<S>, p: Pipe<S>, cs: seq<Control<S>>)
    ensures var p' := ApplyAll(factory, p, cs);
      p' == p.(codec := p'.codec, codecId := p'.codecId, state := p'.state)
    decreases |cs|
  {
    if cs != [] {
      ControlsLeave(factory, Apply(factory, p, cs[0]), cs[1..]);
    }
  }

  /** After the sink was down the flag is clear; from then on it tells whether a frame was sent. */
  lemma {:induction false} StreamingTells<S>(factory: Factory<S>, p: Pipe<S>, ts: seq<Turn<S>>)
    requires SinkDown !in ts
    ensures FlagFollows(p, Run(factory, p, ts))
    ensures var down := Pass(factory, p, SinkDown); !down.streaming && down == p.(streaming := false)
    decreases |ts|
  {
    hide Pass;
    if ts != [] {
      PassFlag(factory, p, ts[0]);
      StreamingTells(factory, Pass(factory, p, ts[0]), ts[1..]);
    }
    assert Pass(factory, p, SinkDown) == p.(streaming := false) by { SinkDownPass(factory, p); }
  }

  lemma SinkDownPass<S>(factory: Factory<S>, p: Pipe<S>)
    ensures Pass(factory, p, SinkDown) == p.(streaming := false)
  {}

  // ---- aptX: chunking preserves meaning -----------------------------------------------------------------

  /** The aptX wrapper as a codec: frame size 0, 8192 bytes of output per call. */
  function AptxCodec<C>(step: A.BlockEncoder<C>): Codec<C> {
    Codec(_ => 0, (ctx: C, samples: seq<i16>) =>
      var r := A.EncodeBlocks(step, ctx, samples, OUT_BYTES); (r.ctx, r.bytes))
  }

  function Payload<S>(sent: seq<SentFrame<S>>): seq<byte> {
    if sent == [] then [] else Payload(sent[..|sent| - 1]) + sent[|sent| - 1].bytes
  }

  /** Since the instance with context ctx0 took over, at nf samples fed and ns frames sent,
      the sink got the block encoder run once over everything fed. */
  ghost predicate Streamed<C>(step: A.BlockEncoder<C>, ctx0: C, nf: nat, ns: nat, p: Pipe<C>) {
    && p.codec == Some(AptxCodec(step))
    && nf <= |p.fed| && ns <= |p.sent|
    && (|p.fed| - nf) % A.SAMPLES_PER_BLOCK == 0
    && A.EncodeStream(step, ctx0, p.fed[nf..]) == A.Encoded(p.state, Payload(p.sent[ns..]))
  }

  lemma PayloadAppend<S>(sent: seq<SentFrame<S>>, ns: nat, f: SentFrame<S>)
    requires ns <= |sent|
    ensures Payload((sent + [f])[ns..]) == Payload(sent[ns..]) + f.bytes
  {
    var tail := (sent + [f])[ns..];
    assert tail[..|tail| - 1] == sent[ns..];
  }

  lemma OutputFits(width: nat, n: nat)
    requires width <= 6 && n <= BLOB_FEED_MAX
    ensures width * (n / BLOCK) <= OUT_BYTES
  {
    assert width * (n / BLOCK) <= 6 * (n / BLOCK);
  }

  lemma FeedStreams<C(!new)>(step: A.BlockEncoder<C>, width: nat, ctx0: C, nf: nat, ns: nat, p: Pipe<C>, n: nat)
    requires A.Steady(step, width) && Streamed(step, ctx0, nf, ns, p)
    requires n <= |p.accum| && n <= BLOB_FEED_MAX && n % BLOCK == 0
    ensures Streamed(step, ctx0, nf, ns, Feed(p, n))
  {
    hide A.EncodeBlocks, A.EncodeStream, Payload;
    var chunk := p.accum[..n];
    var out := A.EncodeStream(step, p.state, chunk);
    OutputFits(width, n);
    A.EncodesEveryBlock(step, width, p.state, chunk, OUT_BYTES);
    A.StreamSplits(step, ctx0, p.fed[nf..], chunk);
    assert (p.fed + chunk)[nf..] == p.fed[nf..] + chunk;
    if out.bytes != [] {
      PayloadAppend(p.sent, ns, SentFrame(p.codecId, out.bytes, p.state, chunk));
    } else {
      assert Payload(p.sent[ns..]) + [] == Payload(p.sent[ns..]);
    }
  }

  lemma {:induction false} RunStreams<C(!new)>(factory: Factory<C>, step: A.BlockEncoder<C>, width: nat, ctx0: C,
                                               nf: nat, ns: nat, p: Pipe<C>, ts: seq<Turn<C>>)
    requires A.Steady(step, width) && Streamed(step, ctx0, nf, ns, p)
    requires Undisturbed(factory, p, ts)
    ensures Streamed(step, ctx0, nf, ns, Run(factory, p, ts))
    decreases |ts|
  {
    hide A.Steady, A.EncodeStream, A.EncodeBlocks;
    if ts != [] {
      var p1 := Pass(factory, p, ts[0]);
      assert Streamed(step, ctx0, nf, ns, p1) by {
        if ts[0].Cycle? {
          var q := Arrive(p, ts[0].block);
          SettersKeep(factory, q, ts[0].during);
          if Usable(|q.accum|) != 0 {
            FeedStreams(step, width, ctx0, nf, ns, q, Usable(|q.accum|));
          }
        }
      }
      RunStreams(factory, step, width, ctx0, nf, ns, p1, ts[1..]);
    }
  }

  /** Switch to aptX at any moment and run on: the bytes handed to the sink since then equal
      the block encoder run once over all samples fed since then. No tail block is dropped,
      no block sees a wrong context, and the output buffer is never short. */
  lemma ChunkingPreservesMeaning<C(!new)>(factory: Factory<C>, step: A.BlockEncoder<C>, width: nat, id: u32, ctx0: C,
                                          p: Pipe<C>, ts: seq<Turn<C>>)
    requires A.Steady(step, width) && factory(id) == Some(AptxCodec(step))
    requires Undisturbed(factory, Apply(factory, p, Rebuild(id, ctx0)), ts)
    ensures var p' := Run(factory, Apply(factory, p, Rebuild(id, ctx0)), ts);
      && |p.fed| <= |p'.fed| && |p.sent| <= |p'.sent|
      && Payload(p'.sent[|p.sent|..]) == A.EncodeStream(step, ctx0, p'.fed[|p.fed|..]).bytes
  {
    var p0 := Apply(factory, p, Rebuild(id, ctx0));
    assert Streamed(step, ctx0, |p.fed|, |p.sent|, p0);
    RunStreams(factory, step, width, ctx0, |p.fed|, |p.sent|, p0, ts);
  }
}
