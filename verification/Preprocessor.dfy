/** Raw PCM bytes in, fixed-size frames out, with partial blocks and frames carried over. */
module Preprocessor {
  import opened Basics

  type Byte = x: int | 0 <= x < 256
  type Frame = seq<real>

  const TARGET_SR: nat := 16000
  const FRAME_SIZE: nat := 512
  const RESAMPLE_CHUNK_MS: nat := 100

  /** The block length for a source rate, and the resampler applied to each whole block. */
  datatype Rate = Rate(source: nat, resample: Frame -> Frame)
  {
    function Block(): (n: nat)
      ensures n >= 1
    {
      var samples := source * RESAMPLE_CHUNK_MS / 1000;
      if samples < 1 then 1 else samples
    }

    function Convert(block: Frame): Frame
    {
      if source != TARGET_SR then resample(block) else block
    }
  }

  // ---------- what the bytes mean ----------

  /** One little-endian signed 16-bit sample, scaled to [-1, 1). */
  function Sample(lo: Byte, hi: Byte): real
  {
    var u := lo + 256 * hi;
    (if u < 0x8000 then u else u - 0x1_0000) as real / 32768.0
  }

  /** Two's complement, low byte first: 32768 times the sample is that number. */
  ghost predicate IsPcm16(lo: Byte, hi: Byte, sample: real)
  {
    var n := (sample * 32768.0).Floor;
    sample * 32768.0 == n as real && -32768 <= n < 32768 && (n - lo - 256 * hi) % 65536 == 0
  }

  /** Each pair of bytes is one sample, in order. */
  ghost predicate IsPcm16Audio(bytes: seq<Byte>, samples: Frame)
  {
    |bytes| == 2 * |samples|
    && forall i :: 0 <= i < |samples| ==> IsPcm16(bytes[2 * i], bytes[2 * i + 1], samples[i])
  }

  function Decode(bytes: seq<Byte>): (samples: Frame)
    requires |bytes| % 2 == 0
    ensures |samples| == |bytes| / 2
  {
    seq(|bytes| / 2, i requires 0 <= i < |bytes| / 2 => Sample(bytes[2 * i], bytes[2 * i + 1]))
  }

  /** Whole blocks of `s`, each resampled on its own, in one piece. */
  function Resampled(rate: Rate, s: Frame): Frame
    decreases |s|
  {
    var n := rate.Block();
    if |s| < n then [] else rate.Convert(s[..n]) + Resampled(rate, s[n..])
  }

  /** What is left of `s` after its whole blocks. */
  function BlockTail(rate: Rate, s: Frame): (r: Frame)
    ensures |r| < rate.Block()
    decreases |s|
  {
    var n := rate.Block();
    if |s| < n then s else BlockTail(rate, s[n..])
  }

  function Frames(s: Frame): (r: seq<Frame>)
    ensures forall i :: 0 <= i < |r| ==> |r[i]| == FRAME_SIZE
    decreases |s|
  {
    if |s| < FRAME_SIZE then [] else [s[..FRAME_SIZE]] + Frames(s[FRAME_SIZE..])
  }

  function FrameTail(s: Frame): (r: Frame)
    ensures |r| < FRAME_SIZE
    decreases |s|
  {
    if |s| < FRAME_SIZE then s else FrameTail(s[FRAME_SIZE..])
  }

  function Flatten<T>(parts: seq<seq<T>>): seq<T>
  {
    if parts == [] then [] else parts[0] + Flatten(parts[1..])
  }

  // ---------- what the samples become ----------

  lemma DecodeIsPcm16(bytes: seq<Byte>)
    requires |bytes| % 2 == 0
    ensures IsPcm16Audio(bytes, Decode(bytes))
  {
    forall i | 0 <= i < |Decode(bytes)| ensures IsPcm16(bytes[2 * i], bytes[2 * i + 1], Decode(bytes)[i]) {
    }
  }

  /** What a block is replaced by: itself at 16 kHz, its resampling at any other rate. */
  ghost predicate Replaces(rate: Rate, block: Frame, piece: Frame)
  {
    piece == if rate.source == 16000 then block else rate.resample(block)
  }

  /**
   * The samples are cut into blocks of a tenth of a second, at least one
   * sample, and an unfinished rest; what is framed is what replaces the
   * blocks, one after the other.
   */
  lemma {:induction false} BlocksReplaced(rate: Rate, s: Frame) returns (blocks: seq<Frame>, pieces: seq<Frame>)
    ensures s == Flatten(blocks) + BlockTail(rate, s) && Resampled(rate, s) == Flatten(pieces)
    ensures |pieces| == |blocks| && forall j :: 0 <= j < |blocks| ==> Replaces(rate, blocks[j], pieces[j])
    ensures var n := if rate.source < 20 then 1 else rate.source / 10;
      |BlockTail(rate, s)| < n && forall j :: 0 <= j < |blocks| ==> |blocks[j]| == n
    decreases |s|
  {
    var n := rate.Block();
    if |s| < n {
      blocks, pieces := [], [];
    } else {
      var blocks', pieces' := BlocksReplaced(rate, s[n..]);
      blocks, pieces := [s[..n]] + blocks', [rate.Convert(s[..n])] + pieces';
      assert s == s[..n] + s[n..];
      Associative(s[..n], Flatten(blocks'), BlockTail(rate, s));
    }
  }

  /** At 16 kHz the frames, the unfinished frame and the unfinished block are the samples again. */
  lemma {:induction false} NothingLostAt16k(rate: Rate, s: Frame)
    requires rate.source == 16000
    ensures Flatten(Frames(Resampled(rate, s))) + FrameTail(Resampled(rate, s)) + BlockTail(rate, s) == s
    ensures forall i :: 0 <= i < |Frames(Resampled(rate, s))| ==> |Frames(Resampled(rate, s))[i]| == 512
  {
    FramesLoseNothing(Resampled(rate, s));
    PassedThrough(rate, s);
  }

  lemma {:induction false} PassedThrough(rate: Rate, s: Frame)
    requires rate.source == 16000
    ensures Resampled(rate, s) + BlockTail(rate, s) == s
    decreases |s|
  {
    var n := rate.Block();
    if |s| >= n {
      PassedThrough(rate, s[n..]);
      assert s == s[..n] + s[n..];
      Associative(s[..n], Resampled(rate, s[n..]), BlockTail(rate, s[n..]));
    }
  }

  // ---------- splitting the input does not matter ----------

  lemma {:induction false} ResampledAppend(rate: Rate, a: Frame, b: Frame)
    ensures Resampled(rate, a + b) == Resampled(rate, a) + Resampled(rate, BlockTail(rate, a) + b)
    ensures BlockTail(rate, a + b) == BlockTail(rate, BlockTail(rate, a) + b)
    decreases |a|
  {
    var n := rate.Block();
    if |a| >= n {
      assert (a + b)[..n] == a[..n] && (a + b)[n..] == a[n..] + b;
      ResampledAppend(rate, a[n..], b);
      assert Resampled(rate, a + b)
        == rate.Convert(a[..n]) + (Resampled(rate, a[n..]) + Resampled(rate, BlockTail(rate, a[n..]) + b));
    }
  }

  lemma {:induction false} FramesAppend(a: Frame, b: Frame)
    ensures Frames(a + b) == Frames(a) + Frames(FrameTail(a) + b)
    ensures FrameTail(a + b) == FrameTail(FrameTail(a) + b)
    decreases |a|
  {
    if |a| >= FRAME_SIZE {
      assert (a + b)[..FRAME_SIZE] == a[..FRAME_SIZE] && (a + b)[FRAME_SIZE..] == a[FRAME_SIZE..] + b;
      FramesAppend(a[FRAME_SIZE..], b);
      assert Frames(a + b) == [a[..FRAME_SIZE]] + (Frames(a[FRAME_SIZE..]) + Frames(FrameTail(a[FRAME_SIZE..]) + b));
    }
  }

  /** Nothing is lost: the frames and the carried remainder are the input again. */
  lemma {:induction false} FramesLoseNothing(s: Frame)
    ensures Flatten(Frames(s)) + FrameTail(s) == s
    decreases |s|
  {
    if |s| >= FRAME_SIZE {
      FramesLoseNothing(s[FRAME_SIZE..]);
      assert s == s[..FRAME_SIZE] + s[FRAME_SIZE..];
    }
  }

  lemma DecodeAppend(a: seq<Byte>, b: seq<Byte>)
    requires |a| % 2 == 0 && |b| % 2 == 0
    ensures Decode(a + b) == Decode(a) + Decode(b)
  {
    forall i | 0 <= i < |a + b| / 2 ensures Decode(a + b)[i] == (Decode(a) + Decode(b))[i] {
      if i < |a| / 2 {
        assert (a + b)[2 * i] == a[2 * i] && (a + b)[2 * i + 1] == a[2 * i + 1];
      } else {
        var j := i - |a| / 2;
        assert (a + b)[2 * i] == b[2 * j] && (a + b)[2 * i + 1] == b[2 * j + 1];
      }
    }
  }

  /** What a preprocessor holds after all the samples `s`: the unfinished block and the unfinished frame. */
  ghost predicate Holds(rate: Rate, raw: Frame, remainder: Frame, s: Frame)
  {
    raw == BlockTail(rate, s) && remainder == FrameTail(Resampled(rate, s))
  }

  /** One push more: the frames it yields are exactly the new ones. */
  lemma PushExtends(rate: Rate, s: Frame, incoming: Frame)
    ensures var raw, remainder := BlockTail(rate, s), FrameTail(Resampled(rate, s));
      var pending := remainder + Resampled(rate, raw + incoming);
      && Frames(Resampled(rate, s + incoming)) == Frames(Resampled(rate, s)) + Frames(pending)
      && Holds(rate, BlockTail(rate, raw + incoming), FrameTail(pending), s + incoming)
  {
    ResampledAppend(rate, s, incoming);
    FramesAppend(Resampled(rate, s), Resampled(rate, BlockTail(rate, s) + incoming));
  }

  class AudioPreprocessor {
    const rate: Rate
    var rawBuffer: Frame
    var remainder: Frame

    /** Less than one block and less than one frame are carried between pushes. */
    ghost predicate Valid()
      reads this
    {
      |rawBuffer| < rate.Block() && |remainder| < FRAME_SIZE
    }

    constructor (rate: Rate)
      ensures this.rate == rate && rawBuffer == [] && remainder == [] && Valid()
    {
      this.rate := rate;
      rawBuffer, remainder := [], [];
    }

    /** The frames completed by these bytes; an odd number of bytes is an error and changes nothing. */
    method Push(bytes: seq<Byte>) returns (r: Option<seq<Frame>>)
      requires Valid()
      modifies this
      ensures Valid()
      ensures r.Some? <==> |bytes| % 2 == 0
      ensures r.None? ==> rawBuffer == old(rawBuffer) && remainder == old(remainder)
      ensures r.Some? ==>
        var all := old(rawBuffer) + Decode(bytes);
        var pending := old(remainder) + Resampled(rate, all);
        r.value == Frames(pending) && rawBuffer == BlockTail(rate, all) && remainder == FrameTail(pending)
      ensures r.Some? ==> forall i :: 0 <= i < |r.value| ==> |r.value[i]| == 512
      ensures r.Some? && rate.source == 16000 ==>
        exists samples ::
          && IsPcm16Audio(bytes, samples)
          && Flatten(r.value) + remainder + rawBuffer == old(remainder) + old(rawBuffer) + samples
    {
      if |bytes| % 2 != 0 { return None; }
      rawBuffer := rawBuffer + Decode(bytes);
      ghost var all, first := rawBuffer, remainder;
      var frames: seq<Frame> := [];
      var n := rate.Block();
      while |rawBuffer| >= n
        invariant |remainder| < FRAME_SIZE
        invariant BlockTail(rate, rawBuffer) == BlockTail(rate, all)
        invariant frames + Frames(remainder + Resampled(rate, rawBuffer)) == Frames(first + Resampled(rate, all))
        invariant FrameTail(remainder + Resampled(rate, rawBuffer)) == FrameTail(first + Resampled(rate, all))
      {
        OneBlock(rate, rawBuffer, remainder);
        var block := rawBuffer[..n];
        rawBuffer := rawBuffer[n..];
        var combined := remainder + rate.Convert(block);
        var cut, tail := Cut(combined);
        Associative(frames, cut, Frames(tail + Resampled(rate, rawBuffer)));
        frames := frames + cut;
        remainder := tail;
      }
      assert remainder + Resampled(rate, rawBuffer) == remainder;
      DecodeIsPcm16(bytes);
      if rate.source == 16000 {
        var pending := first + Resampled(rate, all);
        PassedThrough(rate, all);
        FramesLoseNothing(pending);
        Associative(first, Resampled(rate, all), BlockTail(rate, all));
        Associative(first, old(rawBuffer), Decode(bytes));
      }
      r := Some(frames);
    }
  }

  /** Converting the first whole block and cutting what it completes. */
  lemma OneBlock(rate: Rate, raw: Frame, remainder: Frame)
    requires |raw| >= rate.Block()
    ensures var n := rate.Block(); var combined := remainder + rate.Convert(raw[..n]);
      && BlockTail(rate, raw) == BlockTail(rate, raw[n..])
      && Frames(remainder + Resampled(rate, raw))
           == Frames(combined) + Frames(FrameTail(combined) + Resampled(rate, raw[n..]))
      && FrameTail(remainder + Resampled(rate, raw)) == FrameTail(FrameTail(combined) + Resampled(rate, raw[n..]))
  {
    var n := rate.Block();
    var converted, rest := rate.Convert(raw[..n]), Resampled(rate, raw[n..]);
    Associative(remainder, converted, rest);
    FramesAppend(remainder + converted, rest);
  }

  /** Slices whole frames off the front by position. */
  method Cut(combined: Frame) returns (frames: seq<Frame>, tail: Frame)
    ensures frames == Frames(combined) && tail == FrameTail(combined)
  {
    var count := |combined| / FRAME_SIZE;
    frames := [];
    for i := 0 to count
      invariant frames + Frames(combined[i * FRAME_SIZE..]) == Frames(combined)
      invariant FrameTail(combined[i * FRAME_SIZE..]) == FrameTail(combined)
    {
      var rest := combined[i * FRAME_SIZE..];
      assert rest[..FRAME_SIZE] == combined[i * FRAME_SIZE..(i + 1) * FRAME_SIZE];
      assert rest[FRAME_SIZE..] == combined[(i + 1) * FRAME_SIZE..];
      frames := frames + [combined[i * FRAME_SIZE..(i + 1) * FRAME_SIZE]];
    }
    tail := combined[count * FRAME_SIZE..];
  }
}
