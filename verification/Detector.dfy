/** The four-state voice activity detector, one frame at a time. */
module Detector {
  import opened Basics

  datatype VadState = Silence | SpeechStarting | Speech | SpeechEnding

  datatype Command = NoCommand | StartSpeech | EndOfUtterance

  /** Debounce lengths in frames; the detector clamps all but the maximum to at least one. */
  datatype Config = Config(minSpeech: nat, minSilence: nat, maxUtterance: nat, lookback: nat)

  predicate ValidConfig(c: Config)
  {
    c.minSpeech >= 1 && c.minSilence >= 1 && c.lookback >= 1
  }

  datatype Vad<F> = Vad(
    state: VadState,
    speechCount: nat,
    silenceCount: nat,
    lookback: seq<F>,
    pending: seq<F>,
    utterance: seq<F>)

  function Fresh<F>(): Vad<F>
  {
    Vad(Silence, 0, 0, [], [], [])
  }

  function ForceEnd<F>(v: Vad<F>): (Vad<F>, Command)
  {
    (v.(state := Silence, silenceCount := 0), EndOfUtterance)
  }

  function SilenceStep<F>(c: Config, v: Vad<F>, frame: F, speech: bool): (Vad<F>, Command)
  {
    if speech then (v.(state := SpeechStarting, pending := v.lookback + [frame], speechCount := 1), NoCommand)
    else (v.(lookback := LastN(v.lookback + [frame], c.lookback)), NoCommand)
  }

  function StartingStep<F>(c: Config, v: Vad<F>, frame: F, speech: bool): (Vad<F>, Command)
  {
    if !speech then (v.(state := Silence, pending := []), NoCommand)
    else if v.speechCount + 1 >= c.minSpeech then
      (v.(state := Speech, speechCount := v.speechCount + 1, utterance := v.pending + [frame], pending := []),
       StartSpeech)
    else
      (v.(speechCount := v.speechCount + 1, pending := v.pending + [frame]), NoCommand)
  }

  function SpeechStep<F>(c: Config, v: Vad<F>, frame: F, speech: bool): (Vad<F>, Command)
  {
    var v := v.(utterance := v.utterance + [frame]);
    if |v.utterance| >= c.maxUtterance then ForceEnd(v)
    else if !speech then (v.(state := SpeechEnding, silenceCount := 1), NoCommand)
    else (v, NoCommand)
  }

  function EndingStep<F>(c: Config, v: Vad<F>, frame: F, speech: bool): (Vad<F>, Command)
  {
    var v := v.(utterance := v.utterance + [frame]);
    if |v.utterance| >= c.maxUtterance then ForceEnd(v)
    else if speech then (v.(state := Speech, silenceCount := 0), NoCommand)
    else if v.silenceCount + 1 >= c.minSilence then (v.(state := Silence, silenceCount := 0), EndOfUtterance)
    else (v.(silenceCount := v.silenceCount + 1), NoCommand)
  }

  function VadStep<F>(c: Config, v: Vad<F>, frame: F, speech: bool): (Vad<F>, Command)
  {
    match v.state
    case Silence => SilenceStep(c, v, frame, speech)
    case SpeechStarting => StartingStep(c, v, frame, speech)
    case Speech => SpeechStep(c, v, frame, speech)
    case SpeechEnding => EndingStep(c, v, frame, speech)
  }

  /** The detector as an object. The neural network is an uninterpreted scoring function with its own state. */
  class VADDetector<F, N> {
    const config: Config
    const threshold: real
    const infer: (F, N) -> (real, N)

    var network: N
    var vadState: VadState
    var speechFrameCount: nat
    var silenceFrameCount: nat
    var lookback: seq<F>
    var pendingFrames: seq<F>
    var utteranceFrames: seq<F>

    ghost function View(): Vad<F>
      reads this
    {
      Vad(vadState, speechFrameCount, silenceFrameCount, lookback, pendingFrames, utteranceFrames)
    }

    constructor (config: Config, threshold: real, infer: (F, N) -> (real, N), start: N)
      ensures this.config == config && this.threshold == threshold && this.infer == infer
      ensures View() == Fresh() && network == start
    {
      this.config, this.threshold, this.infer, network := config, threshold, infer, start;
      vadState, speechFrameCount, silenceFrameCount := Silence, 0, 0;
      lookback, pendingFrames, utteranceFrames := [], [], [];
    }

    method ProcessFrame(frame: F) returns (command: Command)
      modifies this
      ensures var scored := infer(frame, old(network));
        network == scored.1 && (View(), command) == VadStep(config, old(View()), frame, scored.0 > threshold)
    {
      var scored := infer(frame, network);
      network := scored.1;
      var isSpeech := scored.0 > threshold;
      match vadState
      case Silence => command := HandleSilence(frame, isSpeech);
      case SpeechStarting => command := HandleSpeechStarting(frame, isSpeech);
      case Speech => command := HandleSpeech(frame, isSpeech);
      case SpeechEnding => command := HandleSpeechEnding(frame, isSpeech);
    }

    method HandleSilence(frame: F, isSpeech: bool) returns (command: Command)
      modifies this
      ensures (View(), command) == SilenceStep(config, old(View()), frame, isSpeech) && network == old(network)
    {
      if isSpeech {
        vadState := SpeechStarting;
        pendingFrames := lookback;
        speechFrameCount := 1;
        pendingFrames := pendingFrames + [frame];
      } else {
        lookback := LastN(lookback + [frame], config.lookback);
      }
      return NoCommand;
    }

    method HandleSpeechStarting(frame: F, isSpeech: bool) returns (command: Command)
      modifies this
      ensures (View(), command) == StartingStep(config, old(View()), frame, isSpeech) && network == old(network)
    {
      if !isSpeech {
        vadState := Silence;
        pendingFrames := [];
        return NoCommand;
      }
      speechFrameCount := speechFrameCount + 1;
      pendingFrames := pendingFrames + [frame];
      if speechFrameCount >= config.minSpeech {
        vadState := Speech;
        utteranceFrames := pendingFrames;
        pendingFrames := [];
        return StartSpeech;
      }
      return NoCommand;
    }

    method HandleSpeech(frame: F, isSpeech: bool) returns (command: Command)
      modifies this
      ensures (View(), command) == SpeechStep(config, old(View()), frame, isSpeech) && network == old(network)
    {
      utteranceFrames := utteranceFrames + [frame];
      if |utteranceFrames| >= config.maxUtterance {
        command := ForceEndOfUtterance();
        return;
      }
      if !isSpeech {
        vadState := SpeechEnding;
        silenceFrameCount := 1;
      }
      return NoCommand;
    }

    method HandleSpeechEnding(frame: F, isSpeech: bool) returns (command: Command)
      modifies this
      ensures (View(), command) == EndingStep(config, old(View()), frame, isSpeech) && network == old(network)
    {
      utteranceFrames := utteranceFrames + [frame];
      if |utteranceFrames| >= config.maxUtterance {
        command := ForceEndOfUtterance();
        return;
      }
      if isSpeech {
        vadState := Speech;
        silenceFrameCount := 0;
        return NoCommand;
      }
      silenceFrameCount := silenceFrameCount + 1;
      if silenceFrameCount >= config.minSilence {
        vadState := Silence;
        silenceFrameCount := 0;
        return EndOfUtterance;
      }
      return NoCommand;
    }

    method ForceEndOfUtterance() returns (command: Command)
      modifies this
      ensures (View(), command) == ForceEnd(old(View())) && network == old(network)
    {
      vadState := Silence;
      silenceFrameCount := 0;
      return EndOfUtterance;
    }

    /** Hands over the collected frames and forgets them. */
    method GetUtteranceFrames() returns (frames: seq<F>)
      modifies this
      ensures frames == old(utteranceFrames)
      ensures View() == old(View()).(utterance := []) && network == old(network)
    {
      frames := utteranceFrames;
      utteranceFrames := [];
    }
  }
}
