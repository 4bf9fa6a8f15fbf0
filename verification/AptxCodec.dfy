/** service/codecs/codec_aptx.cpp: packs int16 stereo PCM into 24-bit blocks and threads the
    encoder context of libopenaptx, an unknown step function, through them. */
module AptxCodec {
  import opened ByteTypes

  const SAMPLES_PER_BLOCK := 8
  const INPUT_BYTES := 24
  const MAX_OUTPUT := 6

  // ---- Sample packing ---------------------------------------------------------------

  /** One sample shifted to 24 bits, little-endian two's complement. */
  function S24le(s: i16): (b: seq<byte>)
    ensures |b| == 3
  {
    [0, s % 0x100, s / 0x100 % 0x100]
  }

  function FromS24le(b: seq<byte>): int
    requires |b| == 3
  {
    var u := b[0] as int + 0x100 * b[1] as int + 0x1_0000 * b[2] as int;
    if u < 0x80_0000 then u else u - 0x100_0000
  }

  lemma S24leValue(s: i16)
    ensures FromS24le(S24le(s)) == 256 * s as int
  {
    var hi := s as int / 0x100;
    assert s as int == 0x100 * hi + s as int % 0x100 && -128 <= hi < 128;
    assert hi % 0x100 == if hi >= 0 then hi else hi + 0x100;
  }

  function PackSamples(samples: seq<i16>): (b: seq<byte>)
    ensures |b| == 3 * |samples|
  {
    if samples == [] then [] else S24le(samples[0]) + PackSamples(samples[1..])
  }

  /** The packed block determines its samples: left and right are neither swapped nor mixed. */
  lemma {:induction false} PackedSampleAt(samples: seq<i16>, i: nat)
    requires i < |samples|
    ensures FromS24le(PackSamples(samples)[3 * i..3 * i + 3]) == 256 * samples[i] as int
  {
    var b := PackSamples(samples);
    if i == 0 {
      assert b[..3] == S24le(samples[0]);
      S24leValue(samples[0]);
    } else {
      PackedSampleAt(samples[1..], i - 1);
      assert b[3..] == PackSamples(samples[1..]);
      assert b[3 * i..3 * i + 3] == b[3..][3 * (i - 1)..3 * (i - 1) + 3];
    }
  }

  method WriteS24le(dst: array<byte>, at: nat, s: i16)
    requires at + 3 <= dst.Length
    modifies dst
    ensures dst[..at + 3] == old(dst[..at]) + S24le(s)
    ensures forall j | 0 <= j < dst.Length && !(at <= j < at + 3) :: dst[j] == old(dst[j])
  {
    var s24 := s as int * 256;
    dst[at] := s24 % 256;
    dst[at + 1] := s24 / 256 % 256;
    dst[at + 2] := s24 / 65536 % 256;
    assert s24 / 256 == s as int && s24 / 65536 == s as int / 256;
  }

  lemma {:induction false} PackAppend(a: seq<i16>, b: seq<i16>)
    ensures PackSamples(a + b) == PackSamples(a) + PackSamples(b)
  {
    hide S24le;
    if a == [] {
      assert a + b == b;
    } else {
      var tail := PackSamples(a[1..]);
      assert (a + b)[1..] == a[1..] + b;
      calc {
        PackSamples(a + b);
        S24le(a[0]) + PackSamples(a[1..] + b);
        { PackAppend(a[1..], b); }
        S24le(a[0]) + (tail + PackSamples(b));
        (S24le(a[0]) + tail) + PackSamples(b);
      }
    }
  }

  lemma PackPair(left: i16, right: i16)
    ensures PackSamples([left, right]) == S24le(left) + S24le(right)
  {
    assert [left, right][1..] == [right] && [right][1..] == [];
    assert PackSamples([right]) == S24le(right) + PackSamples([]);
  }

  lemma EmptyPack(frames: seq<i16>)
    ensures PackSamples(frames[..0]) == []
  {}

  /** Four stereo frames, three bytes left then three bytes right each. */
  method PackBlock(frames: seq<i16>, block: array<byte>)
    requires |frames| == SAMPLES_PER_BLOCK && block.Length == INPUT_BYTES
    modifies block
    ensures block[..] == PackSamples(frames)
  {
    hide S24le, PackSamples;
    var i := 0;
    EmptyPack(frames);
    while i < 4
      invariant 0 <= i <= 4
      invariant block[..6 * i] == PackSamples(frames[..2 * i])
    {
      var left, right := frames[2 * i], frames[2 * i + 1];
      PackPair(left, right);
      PackAppend(frames[..2 * i], [left, right]);
      assert frames[..2 * (i + 1)] == frames[..2 * i] + [left, right];
      WriteS24le(block, 6 * i, left);
      WriteS24le(block, 6 * i + 3, right);
      i := i + 1;
    }
    assert frames[..8] == frames;
    assert block[..24] == block[..];
  }

  // ---- Encoding ------------------------------------------------------------------------

  /** aptx_encode on one 24-byte block: the new context, the bytes it consumed and the bytes
      it wrote. */
  datatype BlockResult<C> = BlockResult(ctx: C, processed: nat, written: seq<byte>)
  type BlockEncoder<!C> = (C, seq<byte>) -> BlockResult<C>

  /** The library contract for aptX (width 4) and aptX HD (width 6): a whole block is always
      consumed and always yields width bytes. */
  ghost predicate Steady<C(!new)>(step: BlockEncoder<C>, width: nat) {
    && 0 < width <= MAX_OUTPUT
    && forall c, block | |block| == INPUT_BYTES ::
         step(c, block).processed == INPUT_BYTES && |step(c, block).written| == width
  }

  datatype Encoded<C> = Encoded(ctx: C, bytes: seq<byte>)

  /** What one encode() call does: whole blocks in order, until one fails or no longer fits. */
  function EncodeBlocks<C>(step: BlockEncoder<C>, ctx: C, input: seq<i16>, room: nat): (r: Encoded<C>)
    ensures |r.bytes| <= room
  {
    if |input| < SAMPLES_PER_BLOCK then Encoded(ctx, [])
    else
      var b := step(ctx, PackSamples(input[..SAMPLES_PER_BLOCK]));
      if b.processed != INPUT_BYTES || b.written == [] || |b.written| > room then Encoded(b.ctx, [])
      else
        var rest := EncodeBlocks(step, b.ctx, input[SAMPLES_PER_BLOCK..], room - |b.written|);
        Encoded(rest.ctx, b.written + rest.bytes)
  }

  /** The block encoder run once over a whole sample stream, with no buffer limit. */
  function EncodeStream<C>(step: BlockEncoder<C>, ctx: C, samples: seq<i16>): Encoded<C> {
    if |samples| < SAMPLES_PER_BLOCK then Encoded(ctx, [])
    else
      var b := step(ctx, PackSamples(samples[..SAMPLES_PER_BLOCK]));
      var rest := EncodeStream(step, b.ctx, samples[SAMPLES_PER_BLOCK..]);
      Encoded(rest.ctx, b.written + rest.bytes)
  }

  /** With a steady library and a buffer of width bytes per block, encode() drops no block. */
  lemma {:induction false} EncodesEveryBlock<C(!new)>(step: BlockEncoder<C>, width: nat, ctx: C, input: seq<i16>,
                                                      room: nat)
    requires Steady(step, width)
    requires room >= width * (|input| / SAMPLES_PER_BLOCK)
    ensures EncodeBlocks(step, ctx, input, room) == EncodeStream(step, ctx, input)
    ensures |EncodeStream(step, ctx, input).bytes| == width * (|input| / SAMPLES_PER_BLOCK)
  {
    if |input| >= SAMPLES_PER_BLOCK {
      var rest := input[SAMPLES_PER_BLOCK..];
      var b := step(ctx, PackSamples(input[..SAMPLES_PER_BLOCK]));
      assert |rest| / SAMPLES_PER_BLOCK == |input| / SAMPLES_PER_BLOCK - 1;
      assert width * (|input| / SAMPLES_PER_BLOCK) == width + width * (|rest| / SAMPLES_PER_BLOCK);
      EncodesEveryBlock(step, width, b.ctx, rest, room - width);
    }
  }

  /** Whatever the library answers, encode() gives the longest run of whole blocks it took: n
      blocks consumed whole, none empty, all fitting; and it stopped because the input ended
      there or the next block is refused, empty or too long; the context of that block stays. */
  lemma {:induction false} EncodesPrefix<C>(step: BlockEncoder<C>, ctx: C, input: seq<i16>, room: nat) returns (n: nat)
    ensures 8 * n <= |input|
    ensures var taken := EncodeStream(step, ctx, input[..8 * n]);
      && EncodeBlocks(step, ctx, input, room).bytes == taken.bytes && |taken.bytes| <= room
      && (8 * n + 8 <= |input| ==>
            var b := step(taken.ctx, PackSamples(input[8 * n..8 * n + 8]));
            b.processed != 24 || b.written == [] || |taken.bytes| + |b.written| > room)
    ensures forall k: nat | k < n ::
      var b := step(EncodeStream(step, ctx, input[..8 * k]).ctx, PackSamples(input[8 * k..8 * k + 8]));
      b.processed == 24 && b.written != []
    ensures EncodeBlocks(step, ctx, input, room).ctx ==
      var taken := EncodeStream(step, ctx, input[..8 * n]);
      if 8 * n + 8 <= |input| then step(taken.ctx, PackSamples(input[8 * n..8 * n + 8])).ctx else taken.ctx
  {
    n := 0;
    assert input[..0] == [];
    if |input| >= 8 {
      assert input[0..8] == input[..8];
      var b := step(ctx, PackSamples(input[..8]));
      if b.processed == 24 && b.written != [] && |b.written| <= room {
        var m := EncodesPrefix(step, b.ctx, input[8..], room - |b.written|);
        n := m + 1;
        BlockFirst(step, ctx, input, n);
        assert input[8..][8 * m..] == input[8 * n..];
        forall k: nat | k < n
          ensures var c := step(EncodeStream(step, ctx, input[..8 * k]).ctx, PackSamples(input[8 * k..8 * k + 8]));
            c.processed == 24 && c.written != []
        {
          if k > 0 {
            BlockFirst(step, ctx, input, k);
            assert input[8..][8 * (k - 1)..8 * (k - 1) + 8] == input[8 * k..8 * k + 8];
          }
        }
        if 8 * n + 8 <= |input| {
          assert input[8..][8 * m..8 * m + 8] == input[8 * n..8 * n + 8];
        }
      }
    }
  }

  lemma BlockFirst<C>(step: BlockEncoder<C>, ctx: C, input: seq<i16>, n: nat)
    requires 0 < n && 8 * n <= |input|
    ensures var b := step(ctx, PackSamples(input[..8]));
      var rest := EncodeStream(step, b.ctx, input[8..][..8 * (n - 1)]);
      EncodeStream(step, ctx, input[..8 * n]) == Encoded(rest.ctx, b.written + rest.bytes)
  {
    assert input[..8 * n][..8] == input[..8];
    assert input[..8 * n][8..] == input[8..][..8 * (n - 1)];
  }

  /** Cutting a stream between blocks changes nothing. */
  lemma {:induction false} StreamSplits<C>(step: BlockEncoder<C>, ctx: C, a: seq<i16>, b: seq<i16>)
    requires |a| % SAMPLES_PER_BLOCK == 0
    ensures var first := EncodeStream(step, ctx, a);
      var second := EncodeStream(step, first.ctx, b);
      EncodeStream(step, ctx, a + b) == Encoded(second.ctx, first.bytes + second.bytes)
  {
    if a == [] {
      assert a + b == b;
    } else {
      var head := step(ctx, PackSamples(a[..SAMPLES_PER_BLOCK]));
      StreamSplits(step, head.ctx, a[SAMPLES_PER_BLOCK..], b);
      assert (a + b)[..SAMPLES_PER_BLOCK] == a[..SAMPLES_PER_BLOCK];
      assert (a + b)[SAMPLES_PER_BLOCK..] == a[SAMPLES_PER_BLOCK..] + b;
    }
  }

  /** r is the result once done has been written and encoding goes on at sample at. */
  ghost predicate Pending<C>(r: Encoded<C>, done: seq<byte>, step: BlockEncoder<C>, ctx: C, input: seq<i16>, at: nat,
                             room: nat)
  {
    at <= |input| &&
    var rest := EncodeBlocks(step, ctx, input[at..], room);
    r == Encoded(rest.ctx, done + rest.bytes)
  }

  predicate Stops<C>(b: BlockResult<C>, room: nat) {
    b.processed != INPUT_BYTES || b.written == [] || |b.written| > room
  }

  lemma PendingStep<C>(r: Encoded<C>, done: seq<byte>, step: BlockEncoder<C>, ctx: C, input: seq<i16>, at: nat,
                       room: nat)
    requires Pending(r, done, step, ctx, input, at, room) && at + SAMPLES_PER_BLOCK <= |input|
    ensures var b := step(ctx, PackSamples(input[at..at + SAMPLES_PER_BLOCK]));
      if Stops(b, room) then r == Encoded(b.ctx, done)
      else Pending(r, done + b.written, step, b.ctx, input, at + SAMPLES_PER_BLOCK, room - |b.written|)
  {
    assert input[at..][..SAMPLES_PER_BLOCK] == input[at..at + SAMPLES_PER_BLOCK];
    assert input[at..][SAMPLES_PER_BLOCK..] == input[at + SAMPLES_PER_BLOCK..];
  }

  lemma PendingEnds<C>(r: Encoded<C>, done: seq<byte>, step: BlockEncoder<C>, ctx: C, input: seq<i16>, at: nat,
                       room: nat)
    requires Pending(r, done, step, ctx, input, at, room) && at + SAMPLES_PER_BLOCK > |input|
    ensures r == Encoded(ctx, done)
  {}

  lemma PendingBegins<C>(step: BlockEncoder<C>, ctx: C, input: seq<i16>, room: nat)
    ensures Pending(EncodeBlocks(step, ctx, input, room), [], step, ctx, input, 0, room)
  {
    assert input[0..] == input;
  }

  /** CodecAptx: the context lives in the object, the output in the caller's buffer. */
  class CodecAptx<C(!new)> {
    const step: BlockEncoder<C>
    const ready: bool  // the library gave a context
    var ctx: C

    constructor (step: BlockEncoder<C>, ready: bool, ctx: C)
      ensures this.step == step && this.ready == ready && this.ctx == ctx
    {
      this.step, this.ready, this.ctx := step, ready, ctx;
    }

    /** One block behind the written bytes already in output; 0 when the library refuses it
        or it no longer fits. */
    method EncodeBlock(frames: seq<i16>, output: array<byte>, written: nat) returns (grown: nat)
      requires |frames| == SAMPLES_PER_BLOCK && written <= output.Length
      modifies this, output
      ensures var b := step(old(ctx), PackSamples(frames));
        && ctx == b.ctx
        && (Stops(b, output.Length - written) <==> grown == 0)
        && (grown != 0 ==> grown == |b.written| && written + grown <= output.Length
                           && output[..written + grown] == old(output[..written]) + b.written)
        && (grown == 0 ==> output[..written] == old(output[..written]))
    {
      hide PackSamples;
      var block24 := new byte[INPUT_BYTES](_ => 0);
      PackBlock(frames, block24);
      var result := step(ctx, block24[..]);
      ctx := result.ctx;
      if result.processed != INPUT_BYTES || result.written == [] || written + |result.written| > output.Length {
        return 0;
      }
      CopyBytes(output, written, result.written);
      grown := |result.written|;
    }

    /** The number of bytes written, or -1 when there are none. */
    method Encode(input: seq<i16>, output: array<byte>) returns (n: int)
      modifies this, output
      ensures var r := if ready then EncodeBlocks(step, old(ctx), input, output.Length) else Encoded(old(ctx), []);
        && (n == if r.bytes == [] then -1 else |r.bytes|)
        && output[..|r.bytes|] == r.bytes
        && (output.Length == 0 || ctx == r.ctx)
    {
      if !ready || output.Length == 0 || |input| < SAMPLES_PER_BLOCK {
        return -1;
      }
      hide EncodeBlocks, Pending, PackSamples, Stops;
      var numBlocks := |input| / SAMPLES_PER_BLOCK;
      var written, b := 0, 0;
      ghost var r := EncodeBlocks(step, ctx, input, output.Length);
      ghost var done: seq<byte> := [];
      PendingBegins(step, ctx, input, output.Length);
      while b < numBlocks
        invariant 0 <= b <= numBlocks && written == |done| <= output.Length
        invariant output[..written] == done
        invariant Pending(r, done, step, ctx, input, SAMPLES_PER_BLOCK * b, output.Length - written)
      {
        var at := SAMPLES_PER_BLOCK * b;
        PendingStep(r, done, step, ctx, input, at, output.Length - written);
        ghost var block := step(ctx, PackSamples(input[at..at + SAMPLES_PER_BLOCK])).written;
        var grown := EncodeBlock(input[at..at + SAMPLES_PER_BLOCK], output, written);
        if grown == 0 {
          return if written == 0 then -1 else written;
        }
        done := done + block;
        written := written + grown;
        b := b + 1;
      }
      PendingEnds(r, done, step, ctx, input, SAMPLES_PER_BLOCK * b, output.Length - written);
      n := if written > 0 then written else -1;
    }
  }
}
