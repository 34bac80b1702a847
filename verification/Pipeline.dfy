/**
 * Audio bytes to dispatched utterances: the preprocessor feeds the detector
 * frame by frame and the utterance is handed over at each boundary.
 */
module Pipeline {
  import opened Basics
  import opened Detector
  import opened Segmentation
  import opened Preprocessor

  /** The voice detector's fixed parameters. */
  datatype Setup<!N> = Setup(config: Config, threshold: real, infer: (Frame, N) -> (real, N), start: N, rate: Rate)

  datatype Hearing<N> = Hearing(vad: Vad<Frame>, network: N, dispatched: seq<seq<Frame>>)

  function Deaf<N>(setup: Setup<N>): Hearing<N>
  {
    Hearing(Fresh(), setup.start, [])
  }

  /** process_frames on one frame, then _dispatch_utterance at a boundary. */
  function HearOne<N>(setup: Setup<N>, h: Hearing<N>, frame: Frame): Hearing<N>
  {
    var scored := setup.infer(frame, h.network);
    var (v, command) := VadStep(setup.config, h.vad, frame, scored.0 > setup.threshold);
    if !command.EndOfUtterance? then Hearing(v, scored.1, h.dispatched)
    else Dispatch(Hearing(v, scored.1, h.dispatched))
  }

  /** An empty collection is ignored; anything else is queued and forgotten by the detector. */
  function Dispatch<N>(h: Hearing<N>): Hearing<N>
  {
    if h.vad.utterance == [] then h
    else h.(vad := h.vad.(utterance := []), dispatched := h.dispatched + [h.vad.utterance])
  }

  function Hear<N>(setup: Setup<N>, h: Hearing<N>, frames: seq<Frame>): Hearing<N>
    decreases |frames|
  {
    if frames == [] then h else Hear(setup, HearOne(setup, h, frames[0]), frames[1..])
  }

  lemma {:induction false} HearAppend<N>(setup: Setup<N>, h: Hearing<N>, a: seq<Frame>, b: seq<Frame>)
    ensures Hear(setup, h, a + b) == Hear(setup, Hear(setup, h, a), b)
    decreases |a|
  {
    if a == [] {
      assert a + b == b;
    } else {
      assert (a + b)[1..] == a[1..] + b;
      HearAppend(setup, HearOne(setup, h, a[0]), a[1..], b);
    }
  }

  /** The speech flags the network gives a sequence of frames. */
  function Flags<N>(setup: Setup<N>, network: N, frames: seq<Frame>): (b: seq<bool>)
    ensures |b| == |frames|
  {
    if frames == [] then []
    else
      var scored := setup.infer(frames[0], network);
      [scored.0 > setup.threshold] + Flags(setup, scored.1, frames[1..])
  }

  function Utterances(outs: seq<Output<Frame>>): seq<seq<Frame>>
  {
    if outs == [] then []
    else (if outs[0].Ended? then [outs[0].utterance] else []) + Utterances(outs[1..])
  }

  lemma UtterancesCons(out: Output<Frame>, outs: seq<Output<Frame>>)
    ensures Utterances([out] + outs) == (if out.Ended? then [out.utterance] else []) + Utterances(outs)
  {
    assert ([out] + outs)[1..] == outs;
  }

  /** What one frame adds, seen from the detector and from the listener. */
  lemma HearOneIsListen<N>(setup: Setup<N>, h: Hearing<N>, frames: seq<Frame>, b: seq<bool>, k: nat)
    requires k < |frames| == |b| && b[k] == (setup.infer(frames[k], h.network).0 > setup.threshold)
    ensures var next := HearOne(setup, h, frames[k]);
      h.dispatched + Utterances(Listen(setup.config, h.vad, frames, b, k))
      == next.dispatched + Utterances(Listen(setup.config, next.vad, frames, b, k + 1))
  {
    var next := HearOne(setup, h, frames[k]);
    var (v, command) := VadStep(setup.config, h.vad, frames[k], b[k]);
    var rest := Listen(setup.config, next.vad, frames, b, k + 1);
    match command
    case NoCommand =>
      ListenQuiet(setup.config, h.vad, frames, b, k);
    case StartSpeech =>
      ListenStart(setup.config, h.vad, frames, b, k);
      UtterancesCons(Started(k), rest);
      assert [] + Utterances(rest) == Utterances(rest);
    case EndOfUtterance =>
      ListenEnd(setup.config, h.vad, frames, b, k);
      UtterancesCons(Ended(k, v.utterance), rest);
      Associative(h.dispatched, [v.utterance], Utterances(rest));
  }

  lemma {:induction false} HearIsListen<N>(setup: Setup<N>, h: Hearing<N>, frames: seq<Frame>, b: seq<bool>, k: nat)
    requires k <= |frames| == |b| && b[k..] == Flags(setup, h.network, frames[k..])
    ensures Hear(setup, h, frames[k..]).dispatched
      == h.dispatched + Utterances(Listen(setup.config, h.vad, frames, b, k))
    decreases |frames| - k
  {
    if k < |frames| {
      assert frames[k..][0] == frames[k] && frames[k..][1..] == frames[k + 1..];
      assert b[k..][0] == b[k] && b[k..][1..] == b[k + 1..];
      HearOneIsListen(setup, h, frames, b, k);
      HearIsListen(setup, HearOne(setup, h, frames[k]), frames, b, k + 1);
    }
  }

  /** What a call's audio means, whatever chunks it came in. */
  ghost function UtterancesOf<N>(setup: Setup<N>, samples: Frame): seq<seq<Frame>>
  {
    var frames := Frames(Resampled(setup.rate, samples));
    var b := Flags(setup, setup.start, frames);
    Utterances(Outputs(frames, Segments(setup.config, b, 0, [])))
  }

  /** The state of a call after the samples `s`: nothing in it depends on how they were chunked. */
  ghost predicate Heard<N>(setup: Setup<N>, raw: Frame, remainder: Frame, h: Hearing<N>, s: Frame)
  {
    && Holds(setup.rate, raw, remainder, s)
    && h == Hear(setup, Deaf(setup), Frames(Resampled(setup.rate, s)))
  }

  /** One more chunk: the new frames are heard after all the earlier ones. */
  lemma HeardMore<N>(setup: Setup<N>, raw: Frame, remainder: Frame, h: Hearing<N>, s: Frame, incoming: Frame)
    requires Heard(setup, raw, remainder, h, s)
    ensures var pending := remainder + Resampled(setup.rate, raw + incoming);
      Heard(setup, BlockTail(setup.rate, raw + incoming), FrameTail(pending),
            Hear(setup, h, Frames(pending)), s + incoming)
  {
    PushExtends(setup.rate, s, incoming);
    HearAppend(setup, Deaf(setup), Frames(Resampled(setup.rate, s)),
               Frames(remainder + Resampled(setup.rate, raw + incoming)));
  }

  lemma HeardUtterances<N>(setup: Setup<N>, raw: Frame, remainder: Frame, h: Hearing<N>, s: Frame)
    requires ValidConfig(setup.config) && Heard(setup, raw, remainder, h, s)
    ensures h.dispatched == UtterancesOf(setup, s)
  {
    var frames := Frames(Resampled(setup.rate, s));
    var b := Flags(setup, setup.start, frames);
    assert frames[0..] == frames && b[0..] == b;
    HearIsListen(setup, Deaf(setup), frames, b, 0);
    StreamingIsSegmentation(setup.config, frames, b);
  }

  function DecodeAll(chunks: seq<seq<Byte>>): Frame
    requires forall i :: 0 <= i < |chunks| ==> |chunks[i]| % 2 == 0
  {
    if chunks == [] then [] else DecodeAll(chunks[..|chunks| - 1]) + Decode(chunks[|chunks| - 1])
  }

  lemma {:induction false} DecodeAllIsDecode(chunks: seq<seq<Byte>>)
    requires forall i :: 0 <= i < |chunks| ==> |chunks[i]| % 2 == 0
    ensures |Joined(chunks)| % 2 == 0 && DecodeAll(chunks) == Decode(Joined(chunks))
  {
    if chunks != [] {
      DecodeAllIsDecode(chunks[..|chunks| - 1]);
      DecodeAppend(Joined(chunks[..|chunks| - 1]), chunks[|chunks| - 1]);
    }
  }

  function Joined(chunks: seq<seq<Byte>>): seq<Byte>
  {
    if chunks == [] then [] else Joined(chunks[..|chunks| - 1]) + chunks[|chunks| - 1]
  }

  /** The inbound half of a call: _read_pump's objects and the utterance queue it fills. */
  class Listener<N> {
    const setup: Setup<N>
    const vad: VADDetector<Frame, N>
    const preprocessor: AudioPreprocessor
    var utteranceQueue: seq<seq<Frame>>

    ghost predicate Valid()
      reads this, vad, preprocessor
    {
      && preprocessor.Valid() && preprocessor.rate == setup.rate
      && vad.config == setup.config && vad.threshold == setup.threshold && vad.infer == setup.infer
    }

    ghost function View(): Hearing<N>
      reads this, vad
    {
      Hearing(vad.View(), vad.network, utteranceQueue)
    }

    constructor (setup: Setup<N>)
      ensures this.setup == setup && Valid() && fresh(vad) && fresh(preprocessor)
      ensures Heard(setup, preprocessor.rawBuffer, preprocessor.remainder, View(), [])
    {
      this.setup := setup;
      vad := new VADDetector<Frame, N>(setup.config, setup.threshold, setup.infer, setup.start);
      preprocessor := new AudioPreprocessor(setup.rate);
      utteranceQueue := [];
    }

    method DispatchUtterance()
      requires Valid()
      modifies this, vad
      ensures Valid() && View() == Dispatch(old(View()))
    {
      var frames := vad.GetUtteranceFrames();
      if |frames| == 0 { return; }
      utteranceQueue := utteranceQueue + [frames];
    }

    /** An odd-length chunk raises before anything changes. */
    method HandleAudioEvent(bytes: seq<Byte>) returns (ok: bool)
      requires Valid()
      modifies this, vad, preprocessor
      ensures Valid() && ok == (|bytes| % 2 == 0)
      ensures !ok ==> View() == old(View())
      ensures ok ==> forall s ::
        Heard(setup, old(preprocessor.rawBuffer), old(preprocessor.remainder), old(View()), s) ==>
        Heard(setup, preprocessor.rawBuffer, preprocessor.remainder, View(), s + Decode(bytes))
    {
      var pushed := preprocessor.Push(bytes);
      if pushed.None? { return false; }
      var frames := pushed.value;
      ghost var h0 := View();
      for i := 0 to |frames|
        modifies this, vad
        invariant Valid()
        invariant Hear(setup, View(), frames[i..]) == Hear(setup, h0, frames)
      {
        assert frames[i..][0] == frames[i] && frames[i..][1..] == frames[i + 1..];
        var command := vad.ProcessFrame(frames[i]);
        if command == EndOfUtterance {
          DispatchUtterance();
        }
      }
      assert frames[|frames|..] == [];
      forall s | Heard(setup, old(preprocessor.rawBuffer), old(preprocessor.remainder), old(View()), s)
        ensures Heard(setup, preprocessor.rawBuffer, preprocessor.remainder, View(), s + Decode(bytes))
      {
        HeardMore(setup, old(preprocessor.rawBuffer), old(preprocessor.remainder), h0, s, Decode(bytes));
      }
      return true;
    }

    /** Every chunk of a call in turn. */
    method HandleAll(chunks: seq<seq<Byte>>)
      requires Valid() && ValidConfig(setup.config)
      requires Heard(setup, preprocessor.rawBuffer, preprocessor.remainder, View(), [])
      requires forall i :: 0 <= i < |chunks| ==> |chunks[i]| % 2 == 0
      modifies this, vad, preprocessor
      ensures Valid()
      ensures |Joined(chunks)| % 2 == 0
      ensures utteranceQueue == UtterancesOf(setup, Decode(Joined(chunks)))
      ensures IsPcm16Audio(Joined(chunks), Decode(Joined(chunks)))
      ensures Heard(setup, preprocessor.rawBuffer, preprocessor.remainder, View(), Decode(Joined(chunks)))
    {
      for k := 0 to |chunks|
        invariant Valid()
        invariant Heard(setup, preprocessor.rawBuffer, preprocessor.remainder, View(), DecodeAll(chunks[..k]))
      {
        assert chunks[..k + 1][..k] == chunks[..k];
        var ok := HandleAudioEvent(chunks[k]);
      }
      assert chunks[..|chunks|] == chunks;
      DecodeAllIsDecode(chunks);
      DecodeIsPcm16(Joined(chunks));
      HeardUtterances(setup, preprocessor.rawBuffer, preprocessor.remainder, View(), DecodeAll(chunks));
    }
  }
}
