/**
 * What the detector is for: cutting a stream into utterances.
 *
 * `Segments` says on the whole sequence of speech flags where utterances
 * start and end, by looking for the first window that qualifies. The
 * theorem is that the frame-by-frame detector finds exactly those.
 */
module Segmentation {
  import opened Basics
  import opened Detector

  // ---------- the declarative segmentation ----------

  /** The run counters are read one state late, so one frame never suffices. */
  function StartRun(c: Config): nat { if c.minSpeech < 2 then 2 else c.minSpeech }

  function EndRun(c: Config): nat { if c.minSilence < 2 then 2 else c.minSilence }

  predicate AllAre(b: seq<bool>, lo: nat, hi: nat, value: bool)
    requires lo <= hi <= |b|
  {
    forall k :: lo <= k < hi ==> b[k] == value
  }

  /** Frame i completes a full run of speech that began at or after `from`. */
  predicate IsStart(c: Config, b: seq<bool>, from: nat, i: nat)
  {
    from + StartRun(c) <= i + 1 <= |b| && AllAre(b, i + 1 - StartRun(c), i + 1, true)
  }

  /** Frame j completes a full run of silence after the start i, or fills the utterance. */
  predicate IsEnd(c: Config, b: seq<bool>, i: nat, lead: nat, j: nat)
  {
    && i < j < |b|
    && (lead + StartRun(c) + (j - i) >= c.maxUtterance
        || (j - i >= EndRun(c) && AllAre(b, j + 1 - EndRun(c), j + 1, false)))
  }

  /** The first START of the gap that began at `from`, looking from frame i on. */
  function FirstStartAt(c: Config, b: seq<bool>, from: nat, i: nat): (r: Option<nat>)
    ensures r.Some? ==> i <= r.value < |b| && IsStart(c, b, from, r.value)
    ensures forall k :: i <= k < (if r.Some? then r.value else |b|) ==> !IsStart(c, b, from, k)
    decreases |b| - i
  {
    if i >= |b| then None else if IsStart(c, b, from, i) then Some(i) else FirstStartAt(c, b, from, i + 1)
  }

  function FirstStart(c: Config, b: seq<bool>, from: nat): Option<nat>
  {
    FirstStartAt(c, b, from, from)
  }

  /** The first END of the utterance started at i, looking from frame j on. */
  function FirstEndAt(c: Config, b: seq<bool>, i: nat, lead: nat, j: nat): (r: Option<nat>)
    ensures r.Some? ==> j <= r.value && IsEnd(c, b, i, lead, r.value)
    ensures forall k :: j <= k < (if r.Some? then r.value else |b|) ==> !IsEnd(c, b, i, lead, k)
    decreases |b| - j
  {
    if j >= |b| then None else if IsEnd(c, b, i, lead, j) then Some(j) else FirstEndAt(c, b, i, lead, j + 1)
  }

  function FirstEnd(c: Config, b: seq<bool>, i: nat, lead: nat): Option<nat>
  {
    FirstEndAt(c, b, i, lead, i + 1)
  }

  predicate Within(s: seq<nat>, n: nat)
  {
    forall k :: 0 <= k < |s| ==> s[k] < n
  }

  /** A silent frame of the gap that began at `from`, other than one that cuts off a false start. */
  predicate IsIdle(b: seq<bool>, from: nat, k: nat)
  {
    k < |b| && !b[k] && (k == from || (k > 0 && !b[k - 1]))
  }

  /** The idle frames of [from, to), in order. */
  function Idle(b: seq<bool>, from: nat, to: nat): (r: seq<nat>)
    ensures Within(r, to) && Within(r, |b|)
  {
    if to <= from then []
    else Idle(b, from, to - 1) + (if IsIdle(b, from, to - 1) then [to - 1] else [])
  }

  /** Lead-in frames, then [onset..ended], with START at `started`; `ended` is missing in the last one only. */
  datatype Segment = Segment(lead: seq<nat>, onset: nat, started: nat, ended: Option<nat>)

  /** Every segment from frame `from` on; `idle` lists the idle frames of all earlier gaps. */
  function Segments(c: Config, b: seq<bool>, from: nat, idle: seq<nat>): seq<Segment>
    decreases |b| - from
  {
    match FirstStart(c, b, from)
    case None => []
    case Some(i) =>
      var onset := i + 1 - StartRun(c);
      var idle' := idle + Idle(b, from, onset);
      var lead := LastN(idle', c.lookback);
      match FirstEnd(c, b, i, |lead|)
      case None => [Segment(lead, onset, i, None)]
      case Some(j) => [Segment(lead, onset, i, Some(j))] + Segments(c, b, j + 1, idle')
  }

  // ---------- the stream ----------

  datatype Output<F> = Started(at: nat) | Ended(at: nat, utterance: seq<F>)

  /** The detector fed frames[k..], its utterance collected at each END. */
  function Listen<F>(c: Config, v: Vad<F>, frames: seq<F>, b: seq<bool>, k: nat): seq<Output<F>>
    requires |frames| == |b|
    decreases |frames| - k
  {
    if k >= |frames| then []
    else
      var (v', command) := VadStep(c, v, frames[k], b[k]);
      match command
      case NoCommand => Listen(c, v', frames, b, k + 1)
      case StartSpeech => [Started(k)] + Listen(c, v', frames, b, k + 1)
      case EndOfUtterance => [Ended(k, v'.utterance)] + Listen(c, v'.(utterance := []), frames, b, k + 1)
  }

  function Pick<F>(frames: seq<F>, s: seq<nat>): seq<F>
    requires Within(s, |frames|)
  {
    seq(|s|, k requires 0 <= k < |s| => frames[s[k]])
  }

  /** What a list of segments looks like from outside. */
  ghost function Outputs<F>(frames: seq<F>, segments: seq<Segment>): seq<Output<F>>
  {
    if segments == [] then [] else OutputsOf(frames, segments[0]) + Outputs(frames, segments[1..])
  }

  ghost function OutputsOf<F>(frames: seq<F>, s: Segment): seq<Output<F>>
  {
    [Started(s.started)] + Closing(frames, s)
  }

  ghost function Closing<F>(frames: seq<F>, s: Segment): seq<Output<F>>
  {
    if s.ended.Some? && Within(s.lead, |frames|) && s.onset <= s.ended.value < |frames|
    then [Ended(s.ended.value, Pick(frames, s.lead) + frames[s.onset..s.ended.value + 1])]
    else []
  }

  lemma OutputsCons<F>(frames: seq<F>, s: Segment, rest: seq<Segment>)
    ensures Outputs(frames, [s] + rest) == [Started(s.started)] + (Closing(frames, s) + Outputs(frames, rest))
  {
    assert ([s] + rest)[1..] == rest;
  }

  /** The segment that START at frame i opens. */
  ghost function Opened(c: Config, b: seq<bool>, idle: seq<nat>, onset: nat, i: nat): Segment
  {
    var lead := LastN(idle, c.lookback);
    Segment(lead, onset, i, FirstEnd(c, b, i, |lead|))
  }

  // ---------- the detector's state inside each phase ----------

  lemma LastNAppend<T>(s: seq<T>, x: T, n: nat)
    requires n >= 1
    ensures LastN(LastN(s, n) + [x], n) == LastN(s + [x], n)
  {
  }

  lemma PickLastN<F>(frames: seq<F>, s: seq<nat>, n: nat)
    requires Within(s, |frames|)
    ensures Within(LastN(s, n), |frames|)
    ensures Pick(frames, LastN(s, n)) == LastN(Pick(frames, s), n)
  {
  }

  /** In a gap: nothing started, and the lookback holds the latest idle frames. */
  ghost predicate InGap<F>(c: Config, frames: seq<F>, b: seq<bool>, v: Vad<F>, from: nat, idle: seq<nat>, k: nat)
  {
    && ValidConfig(c) && |frames| == |b| && from <= k <= |b|
    && Within(idle, from)
    && (forall i :: from <= i < k ==> !IsStart(c, b, from, i))
    && Within(idle + Idle(b, from, k), |frames|)
    && v.lookback == LastN(Pick(frames, idle + Idle(b, from, k)), c.lookback)
  }

  /** Waiting: the previous frame of the gap was silent. */
  ghost predicate Waiting<F>(c: Config, frames: seq<F>, b: seq<bool>, v: Vad<F>, from: nat, idle: seq<nat>, k: nat)
  {
    InGap(c, frames, b, v, from, idle, k) && v.state.Silence? && (k == from || !b[k - 1])
  }

  /** Starting: the last r frames are speech and the one before them is not. */
  ghost predicate Starting<F>(c: Config, frames: seq<F>, b: seq<bool>, v: Vad<F>, from: nat, idle: seq<nat>, k: nat,
                              r: nat)
  {
    && InGap(c, frames, b, v, from, idle, k) && v.state.SpeechStarting?
    && 1 <= r && from + r <= k && v.speechCount == r
    && AllAre(b, k - r, k, true) && (k - r == from || !b[k - r - 1])
    && v.pending == v.lookback + frames[k - r..k]
  }

  /** Speaking: segment s has started and not ended, and the last q frames are silent. */
  ghost predicate Speaking<F>(c: Config, frames: seq<F>, b: seq<bool>, v: Vad<F>, s: Segment, k: nat, q: nat)
  {
    && ValidConfig(c) && |frames| == |b| && s.started < k <= |b|
    && s.onset + StartRun(c) == s.started + 1 && Within(s.lead, |frames|)
    && s.ended == FirstEnd(c, b, s.started, |s.lead|)
    && (forall j :: s.started < j < k ==> !IsEnd(c, b, s.started, |s.lead|, j))
    && v.utterance == Pick(frames, s.lead) + frames[s.onset..k]
    && s.started + q < k && AllAre(b, k - q, k, false) && b[k - q - 1]
    && (if q == 0 then v.state.Speech? else v.state.SpeechEnding? && v.silenceCount == q)
  }

  /** Speaking, with the idle frames of every earlier gap. */
  ghost predicate SpeakingAfter<F>(c: Config, frames: seq<F>, b: seq<bool>, v: Vad<F>, s: Segment, idle: seq<nat>,
                                   k: nat, q: nat)
  {
    && Speaking(c, frames, b, v, s, k, q) && Within(idle, k)
    && s.lead == LastN(idle, c.lookback) && v.lookback == Pick(frames, s.lead)
  }

  lemma IdleStops(b: seq<bool>, from: nat, lo: nat, hi: nat)
    requires from <= lo <= hi <= |b| && forall k :: lo <= k < hi ==> !IsIdle(b, from, k)
    ensures Idle(b, from, hi) == Idle(b, from, lo)
  {
    if lo < hi { IdleStops(b, from, lo, hi - 1); }
  }

  lemma StartNeeds(c: Config, b: seq<bool>, from: nat, i: nat, k: int)
    requires IsStart(c, b, from, i) && i + 1 - StartRun(c) <= k <= i
    ensures from <= k && b[k]
  {
  }

  lemma WaitingStep<F>(c: Config, frames: seq<F>, b: seq<bool>, v: Vad<F>, from: nat, idle: seq<nat>, k: nat)
    requires Waiting(c, frames, b, v, from, idle, k) && k < |b|
    ensures var (v', command) := VadStep(c, v, frames[k], b[k]);
      && command == NoCommand
      && (if b[k] then Starting(c, frames, b, v', from, idle, k + 1, 1)
          else Waiting(c, frames, b, v', from, idle, k + 1))
  {
    if IsStart(c, b, from, k) {
      StartNeeds(c, b, from, k, k - 1);
      assert false;
    }
    var all := idle + Idle(b, from, k);
    if b[k] {
      assert Idle(b, from, k + 1) == Idle(b, from, k);
    } else {
      assert idle + Idle(b, from, k + 1) == all + [k];
      assert Pick(frames, all + [k]) == Pick(frames, all) + [frames[k]];
      LastNAppend(Pick(frames, all), frames[k], c.lookback);
    }
  }

  lemma StartingShort<F>(c: Config, frames: seq<F>, b: seq<bool>, v: Vad<F>, from: nat, idle: seq<nat>, k: nat, r: nat)
    requires Starting(c, frames, b, v, from, idle, k, r)
    ensures r < StartRun(c)
  {
    if r >= StartRun(c) { assert IsStart(c, b, from, k - 1); }
  }

  lemma StartingStepSilent<F>(c: Config, frames: seq<F>, b: seq<bool>, v: Vad<F>, from: nat, idle: seq<nat>, k: nat,
                              r: nat)
    requires Starting(c, frames, b, v, from, idle, k, r) && k < |b| && !b[k]
    ensures var (v', command) := VadStep(c, v, frames[k], b[k]);
      command == NoCommand && Waiting(c, frames, b, v', from, idle, k + 1)
  {
    assert b[k - 1];
    assert Idle(b, from, k + 1) == Idle(b, from, k);
  }

  /** A speech frame that completes no run leaves the gap as it was. */
  lemma GapStays<F>(c: Config, frames: seq<F>, b: seq<bool>, v: Vad<F>, from: nat, idle: seq<nat>, k: nat)
    requires InGap(c, frames, b, v, from, idle, k) && k < |b| && b[k] && !IsStart(c, b, from, k)
    ensures InGap(c, frames, b, v, from, idle, k + 1)
  {
    assert Idle(b, from, k + 1) == Idle(b, from, k);
  }

  lemma StartingStepOn<F>(c: Config, frames: seq<F>, b: seq<bool>, v: Vad<F>, from: nat, idle: seq<nat>, k: nat, r: nat)
    requires Starting(c, frames, b, v, from, idle, k, r) && k < |b| && b[k] && r + 1 < StartRun(c)
    ensures var (v', command) := VadStep(c, v, frames[k], b[k]);
      command == NoCommand && Starting(c, frames, b, v', from, idle, k + 1, r + 1)
  {
    if IsStart(c, b, from, k) {
      StartNeeds(c, b, from, k, k - r - 1);
      assert false;
    }
    GapStays(c, frames, b, v, from, idle, k);
    GrowSlice(v.lookback, frames, k - r, k);
    var v' := VadStep(c, v, frames[k], b[k]).0;
    assert InGap(c, frames, b, v', from, idle, k + 1);
  }

  lemma GrowSlice<F>(front: seq<F>, frames: seq<F>, lo: nat, k: nat)
    requires lo <= k < |frames|
    ensures front + frames[lo..k] + [frames[k]] == front + frames[lo..k + 1]
  {
    assert frames[lo..k + 1] == frames[lo..k] + [frames[k]];
    Associative(front, frames[lo..k], [frames[k]]);
  }

  lemma StartingFires<F>(c: Config, frames: seq<F>, b: seq<bool>, v: Vad<F>, from: nat, idle: seq<nat>, k: nat, r: nat)
    requires Starting(c, frames, b, v, from, idle, k, r) && k < |b| && b[k] && r + 1 >= StartRun(c)
    ensures r + 1 == StartRun(c) && FirstStart(c, b, from) == Some(k)
  {
    StartingShort(c, frames, b, v, from, idle, k, r);
    assert IsStart(c, b, from, k);
  }

  lemma IdleWithin(b: seq<bool>, from: nat, idle: seq<nat>, k: nat, n: nat)
    requires from <= k && Within(idle, from)
    ensures var idle' := idle + Idle(b, from, k);
      Within(idle', k) && Within(LastN(idle', n), k)
  {
  }

  /** The lookback of a gap that ends in r frames of speech is the lead of the segment they start. */
  lemma StartingLead<F>(c: Config, frames: seq<F>, b: seq<bool>, v: Vad<F>, from: nat, idle: seq<nat>, k: nat, r: nat)
    requires Starting(c, frames, b, v, from, idle, k, r)
    ensures var idle' := idle + Idle(b, from, k - r);
      && Within(idle', k - r) && Within(LastN(idle', c.lookback), k - r)
      && v.lookback == Pick(frames, LastN(idle', c.lookback))
  {
    assert Idle(b, from, k) == Idle(b, from, k - r) by { IdleStops(b, from, k - r, k); }
    IdleWithin(b, from, idle, k - r, c.lookback);
    PickLastN(frames, idle + Idle(b, from, k - r), c.lookback);
  }

  lemma StartingStepFires<F>(c: Config, frames: seq<F>, b: seq<bool>, v: Vad<F>, from: nat, idle: seq<nat>, k: nat,
                             r: nat)
    returns (s: Segment)
    requires Starting(c, frames, b, v, from, idle, k, r) && k < |b| && b[k] && r + 1 == StartRun(c)
    ensures s == Opened(c, b, idle + Idle(b, from, k - r), k - r, k)
    ensures var (v', command) := VadStep(c, v, frames[k], b[k]);
      && command == StartSpeech && Speaking(c, frames, b, v', s, k + 1, 0)
      && v'.lookback == Pick(frames, s.lead)
  {
    StartingLead(c, frames, b, v, from, idle, k, r);
    var lead := LastN(idle + Idle(b, from, k - r), c.lookback);
    s := Opened(c, b, idle + Idle(b, from, k - r), k - r, k);
    var (v', command) := VadStep(c, v, frames[k], b[k]);
    assert v'.utterance == Pick(frames, lead) + frames[k - r..k + 1] by { GrowSlice(v.lookback, frames, k - r, k); }
  }

  lemma SilenceShort<F>(c: Config, frames: seq<F>, b: seq<bool>, v: Vad<F>, s: Segment, k: nat, q: nat)
    requires Speaking(c, frames, b, v, s, k, q)
    ensures q < EndRun(c)
  {
    if s.started < k - 1 {
      assert !IsEnd(c, b, s.started, |s.lead|, k - 1);
    }
  }

  lemma SpeakingStep<F>(c: Config, frames: seq<F>, b: seq<bool>, v: Vad<F>, s: Segment, k: nat, q: nat)
    requires Speaking(c, frames, b, v, s, k, q) && k < |b|
    ensures var (v', command) := VadStep(c, v, frames[k], b[k]);
      && v'.lookback == v.lookback
      && (if IsEnd(c, b, s.started, |s.lead|, k) then
            && command == EndOfUtterance && s.ended == Some(k) && v'.state.Silence?
            && v'.utterance == Pick(frames, s.lead) + frames[s.onset..k + 1]
          else
            command == NoCommand && Speaking(c, frames, b, v', s, k + 1, if b[k] then 0 else q + 1))
  {
    SilenceShort(c, frames, b, v, s, k, q);
    GrowSlice(Pick(frames, s.lead), frames, s.onset, k);
    var full := |s.lead| + StartRun(c) + (k - s.started) >= c.maxUtterance;
    assert IsEnd(c, b, s.started, |s.lead|, k) ==> full || q + 1 >= EndRun(c);
    if !b[k] && q + 1 >= EndRun(c) {
      assert AllAre(b, k + 1 - EndRun(c), k + 1, false);
    }
    if IsEnd(c, b, s.started, |s.lead|, k) {
      var r := FirstEnd(c, b, s.started, |s.lead|);
      assert r == Some(k);
    }
  }

  // ---------- the theorem ----------

  /** The segments behind `s`. */
  ghost function After(c: Config, b: seq<bool>, s: Segment, idle: seq<nat>): seq<Segment>
  {
    if s.ended.None? then [] else Segments(c, b, s.ended.value + 1, idle)
  }

  /** What remains to be heard of a segment that has started, and after it. */
  ghost function RestOf<F>(c: Config, frames: seq<F>, b: seq<bool>, s: Segment, idle: seq<nat>): seq<Output<F>>
  {
    Closing(frames, s) + Outputs(frames, After(c, b, s, idle))
  }

  lemma SegmentsStep(c: Config, b: seq<bool>, from: nat, idle: seq<nat>, i: nat)
    requires FirstStart(c, b, from) == Some(i)
    ensures var onset := i + 1 - StartRun(c); var idle' := idle + Idle(b, from, onset);
      var s := Opened(c, b, idle', onset, i);
      Segments(c, b, from, idle) == [s] + After(c, b, s, idle')
  {
  }

  lemma SegmentsUnfold<F>(c: Config, frames: seq<F>, b: seq<bool>, from: nat, idle: seq<nat>, i: nat)
    requires FirstStart(c, b, from) == Some(i)
    ensures var onset := i + 1 - StartRun(c); var idle' := idle + Idle(b, from, onset);
      Outputs(frames, Segments(c, b, from, idle))
      == [Started(i)] + RestOf(c, frames, b, Opened(c, b, idle', onset, i), idle')
  {
    var onset := i + 1 - StartRun(c);
    var idle' := idle + Idle(b, from, onset);
    var s := Opened(c, b, idle', onset, i);
    SegmentsStep(c, b, from, idle, i);
    OutputsCons(frames, s, After(c, b, s, idle'));
  }

  /** At the end of the input no segment is left to start. */
  lemma NothingLeft<F>(c: Config, frames: seq<F>, b: seq<bool>, v: Vad<F>, from: nat, idle: seq<nat>)
    requires InGap(c, frames, b, v, from, idle, |b|)
    ensures Segments(c, b, from, idle) == [] && Listen(c, v, frames, b, |b|) == []
  {
    assert FirstStart(c, b, from).None?;
  }

  lemma {:induction false} ListenWaiting<F>(c: Config, frames: seq<F>, b: seq<bool>, v: Vad<F>, from: nat,
                                            idle: seq<nat>, k: nat)
    requires Waiting(c, frames, b, v, from, idle, k)
    ensures Listen(c, v, frames, b, k) == Outputs(frames, Segments(c, b, from, idle))
    decreases |b| - k
  {
    if k < |b| {
      WaitingStep(c, frames, b, v, from, idle, k);
      ListenQuiet(c, v, frames, b, k);
      var v' := VadStep(c, v, frames[k], b[k]).0;
      if b[k] { ListenStarting(c, frames, b, v', from, idle, k + 1, 1); }
      else { ListenWaiting(c, frames, b, v', from, idle, k + 1); }
    } else {
      NothingLeft(c, frames, b, v, from, idle);
    }
  }

  /** A frame that starts nothing yet passes without a word. */
  lemma StartingOn<F>(c: Config, frames: seq<F>, b: seq<bool>, v: Vad<F>, from: nat, idle: seq<nat>, k: nat, r: nat)
    returns (v': Vad<F>)
    requires Starting(c, frames, b, v, from, idle, k, r) && k < |b| && (b[k] ==> r + 1 < StartRun(c))
    ensures b[k] ==> Starting(c, frames, b, v', from, idle, k + 1, r + 1)
    ensures !b[k] ==> Waiting(c, frames, b, v', from, idle, k + 1)
    ensures Listen(c, v, frames, b, k) == Listen(c, v', frames, b, k + 1)
  {
    v' := VadStep(c, v, frames[k], b[k]).0;
    if b[k] { StartingStepOn(c, frames, b, v, from, idle, k, r); }
    else { StartingStepSilent(c, frames, b, v, from, idle, k, r); }
    ListenQuiet(c, v, frames, b, k);
  }

  lemma {:induction false} ListenStarting<F>(c: Config, frames: seq<F>, b: seq<bool>, v: Vad<F>, from: nat,
                                             idle: seq<nat>, k: nat, r: nat)
    requires Starting(c, frames, b, v, from, idle, k, r)
    ensures Listen(c, v, frames, b, k) == Outputs(frames, Segments(c, b, from, idle))
    decreases |b| - k, 2
  {
    if k == |b| {
      NothingLeft(c, frames, b, v, from, idle);
    } else if b[k] && r + 1 >= StartRun(c) {
      ListenFiring(c, frames, b, v, from, idle, k, r);
    } else {
      var v' := StartingOn(c, frames, b, v, from, idle, k, r);
      if b[k] { ListenStarting(c, frames, b, v', from, idle, k + 1, r + 1); }
      else { ListenWaiting(c, frames, b, v', from, idle, k + 1); }
    }
  }

  lemma ListenQuiet<F>(c: Config, v: Vad<F>, frames: seq<F>, b: seq<bool>, k: nat)
    requires |frames| == |b| && k < |b| && VadStep(c, v, frames[k], b[k]).1.NoCommand?
    ensures Listen(c, v, frames, b, k) == Listen(c, VadStep(c, v, frames[k], b[k]).0, frames, b, k + 1)
  {
  }

  lemma ListenStart<F>(c: Config, v: Vad<F>, frames: seq<F>, b: seq<bool>, k: nat)
    requires |frames| == |b| && k < |b| && VadStep(c, v, frames[k], b[k]).1.StartSpeech?
    ensures Listen(c, v, frames, b, k) == [Started(k)] + Listen(c, VadStep(c, v, frames[k], b[k]).0, frames, b, k + 1)
  {
  }

  lemma ListenEnd<F>(c: Config, v: Vad<F>, frames: seq<F>, b: seq<bool>, k: nat)
    requires |frames| == |b| && k < |b| && VadStep(c, v, frames[k], b[k]).1.EndOfUtterance?
    ensures var v' := VadStep(c, v, frames[k], b[k]).0;
      && v'.utterance != []
      && Listen(c, v, frames, b, k)
           == [Ended(k, v'.utterance)] + Listen(c, v'.(utterance := []), frames, b, k + 1)
  {
  }

  /** Everything the speaking phase needs to know at START. */
  lemma Firing<F>(c: Config, frames: seq<F>, b: seq<bool>, v: Vad<F>, from: nat, idle: seq<nat>, k: nat, r: nat)
    returns (v': Vad<F>, idle': seq<nat>, s: Segment)
    requires Starting(c, frames, b, v, from, idle, k, r) && k < |b| && b[k] && r + 1 >= StartRun(c)
    ensures VadStep(c, v, frames[k], b[k]) == (v', StartSpeech)
    ensures FirstStart(c, b, from) == Some(k)
    ensures idle' == idle + Idle(b, from, k + 1 - StartRun(c)) && Within(idle', k + 1)
    ensures s == Opened(c, b, idle', k + 1 - StartRun(c), k)
    ensures SpeakingAfter(c, frames, b, v', s, idle', k + 1, 0)
  {
    StartingFires(c, frames, b, v, from, idle, k, r);
    StartingLead(c, frames, b, v, from, idle, k, r);
    idle' := idle + Idle(b, from, k - r);
    s := StartingStepFires(c, frames, b, v, from, idle, k, r);
    v' := VadStep(c, v, frames[k], b[k]).0;
  }

  lemma {:induction false} ListenFiring<F>(c: Config, frames: seq<F>, b: seq<bool>, v: Vad<F>, from: nat,
                                           idle: seq<nat>, k: nat, r: nat)
    requires Starting(c, frames, b, v, from, idle, k, r) && k < |b| && b[k] && r + 1 >= StartRun(c)
    ensures Listen(c, v, frames, b, k) == Outputs(frames, Segments(c, b, from, idle))
    decreases |b| - k, 1
  {
    var v', idle', s := Firing(c, frames, b, v, from, idle, k, r);
    ListenFired(c, frames, b, v, v', from, idle, k, s, idle');
  }

  lemma {:induction false} ListenFired<F>(c: Config, frames: seq<F>, b: seq<bool>, v: Vad<F>, v': Vad<F>, from: nat,
                                          idle: seq<nat>,
                                          k: nat, s: Segment, idle': seq<nat>)
    requires |frames| == |b| && k < |b| && VadStep(c, v, frames[k], b[k]) == (v', StartSpeech)
    requires FirstStart(c, b, from) == Some(k) && idle' == idle + Idle(b, from, k + 1 - StartRun(c))
    requires s == Opened(c, b, idle', k + 1 - StartRun(c), k) && SpeakingAfter(c, frames, b, v', s, idle', k + 1, 0)
    ensures Listen(c, v, frames, b, k) == Outputs(frames, Segments(c, b, from, idle))
    decreases |b| - k, 0
  {
    assert Listen(c, v', frames, b, k + 1) == RestOf(c, frames, b, s, idle') by {
      ListenSpeaking(c, frames, b, v', s, idle', k + 1, 0);
    }
    SegmentsUnfold(c, frames, b, from, idle, k);
    ListenStart(c, v, frames, b, k);
  }

  /** A segment still open at the end of the input has no end, and nothing after it. */
  lemma OpenAtTheEnd<F>(c: Config, frames: seq<F>, b: seq<bool>, v: Vad<F>, s: Segment, idle: seq<nat>, k: nat, q: nat)
    requires SpeakingAfter(c, frames, b, v, s, idle, k, q) && k == |b|
    ensures s.ended.None? && Listen(c, v, frames, b, k) == [] == RestOf(c, frames, b, s, idle)
  {
  }

  /** Where a segment ends and what comes after it. */
  lemma RestFromEnd<F>(c: Config, frames: seq<F>, b: seq<bool>, s: Segment, idle: seq<nat>, k: nat)
    requires s.ended == Some(k) && Within(s.lead, |frames|) && s.onset <= k < |frames|
    ensures RestOf(c, frames, b, s, idle)
      == [Ended(k, Pick(frames, s.lead) + frames[s.onset..k + 1])] + Outputs(frames, Segments(c, b, k + 1, idle))
  {
  }

  /** A frame that ends nothing is collected without a word. */
  lemma SpeakingOn<F>(c: Config, frames: seq<F>, b: seq<bool>, v: Vad<F>, s: Segment, idle: seq<nat>, k: nat, q: nat)
    returns (v': Vad<F>, q': nat)
    requires SpeakingAfter(c, frames, b, v, s, idle, k, q) && k < |b| && s.ended != Some(k)
    ensures SpeakingAfter(c, frames, b, v', s, idle, k + 1, q')
    ensures Listen(c, v, frames, b, k) == Listen(c, v', frames, b, k + 1)
  {
    v', q' := VadStep(c, v, frames[k], b[k]).0, if b[k] then 0 else q + 1;
    SpeakingStep(c, frames, b, v, s, k, q);
    ListenQuiet(c, v, frames, b, k);
  }

  /** Where the speaking phase of a segment stops: at its end, or with the input. */
  function StopOf(b: seq<bool>, s: Segment): nat
  {
    if s.ended.Some? then s.ended.value else |b|
  }

  lemma {:induction false} SpeakingToStop<F>(c: Config, frames: seq<F>, b: seq<bool>, v: Vad<F>, s: Segment,
                                             idle: seq<nat>, k: nat, q: nat)
    returns (v': Vad<F>, q': nat)
    requires SpeakingAfter(c, frames, b, v, s, idle, k, q) && k <= StopOf(b, s) <= |b|
    ensures SpeakingAfter(c, frames, b, v', s, idle, StopOf(b, s), q')
    ensures Listen(c, v, frames, b, k) == Listen(c, v', frames, b, StopOf(b, s))
    decreases |b| - k
  {
    if k == StopOf(b, s) {
      v', q' := v, q;
    } else {
      v', q' := SpeakingOn(c, frames, b, v, s, idle, k, q);
      v', q' := SpeakingToStop(c, frames, b, v', s, idle, k + 1, q');
    }
  }

  lemma {:induction false} ListenSpeaking<F>(c: Config, frames: seq<F>, b: seq<bool>, v: Vad<F>, s: Segment,
                                             idle: seq<nat>, k: nat, q: nat)
    requires SpeakingAfter(c, frames, b, v, s, idle, k, q)
    ensures Listen(c, v, frames, b, k) == RestOf(c, frames, b, s, idle)
    decreases |b| - k, 1
  {
    StopIsAhead(c, frames, b, v, s, k, q);
    var v', q' := SpeakingToStop(c, frames, b, v, s, idle, k, q);
    if s.ended.Some? {
      ListenEnding(c, frames, b, v', s, idle, s.ended.value, q');
    } else {
      OpenAtTheEnd(c, frames, b, v', s, idle, |b|, q');
    }
  }

  lemma StopIsAhead<F>(c: Config, frames: seq<F>, b: seq<bool>, v: Vad<F>, s: Segment, k: nat, q: nat)
    requires Speaking(c, frames, b, v, s, k, q)
    ensures k <= StopOf(b, s) <= |b| && (s.ended.Some? ==> s.ended.value < |b|)
  {
  }

  lemma {:induction false} ListenEnding<F>(c: Config, frames: seq<F>, b: seq<bool>, v: Vad<F>, s: Segment,
                                           idle: seq<nat>, k: nat, q: nat)
    requires SpeakingAfter(c, frames, b, v, s, idle, k, q) && k < |b| && s.ended == Some(k)
    ensures Listen(c, v, frames, b, k) == RestOf(c, frames, b, s, idle)
    decreases |b| - k, 0
  {
    SpeakingStep(c, frames, b, v, s, k, q);
    var v' := VadStep(c, v, frames[k], b[k]).0;
    var next := v'.(utterance := []);
    assert Listen(c, next, frames, b, k + 1) == Outputs(frames, Segments(c, b, k + 1, idle)) by {
      WaitsAgain(c, frames, b, next, s, idle, k + 1);
      ListenWaiting(c, frames, b, next, k + 1, idle, k + 1);
    }
    ListenEnd(c, v, frames, b, k);
    RestFromEnd(c, frames, b, s, idle, k);
  }

  lemma WaitsAgain<F>(c: Config, frames: seq<F>, b: seq<bool>, v: Vad<F>, s: Segment, idle: seq<nat>, from: nat)
    requires ValidConfig(c) && |frames| == |b| && from <= |b| && Within(idle, from) && v.state.Silence?
    requires s.lead == LastN(idle, c.lookback) && Within(s.lead, |frames|) && v.lookback == Pick(frames, s.lead)
    ensures Waiting(c, frames, b, v, from, idle, from)
  {
    PickLastN(frames, idle, c.lookback);
    assert idle + Idle(b, from, from) == idle;
  }

  /** On any stream of flags, the detector fires exactly where the segmentation says, with exactly its frames. */
  lemma StreamingIsSegmentation<F>(c: Config, frames: seq<F>, b: seq<bool>)
    requires ValidConfig(c) && |frames| == |b|
    ensures Listen(c, Fresh(), frames, b, 0) == Outputs(frames, Segments(c, b, 0, []))
  {
    assert Waiting(c, frames, b, Fresh(), 0, [], 0);
    ListenWaiting(c, frames, b, Fresh(), 0, [], 0);
  }

  /** Output m is a START exactly when m is even, or odd if `speaking` already. */
  ghost predicate Alternate<F>(outs: seq<Output<F>>, speaking: bool)
  {
    forall m :: 0 <= m < |outs| ==> (outs[m].Started? <==> (m % 2 == 0) != speaking)
  }

  /** START and END strictly alternate, whatever the flags. */
  lemma {:induction false} StartsAndEndsAlternate<F>(c: Config, v: Vad<F>, frames: seq<F>, b: seq<bool>, k: nat)
    requires |frames| == |b|
    ensures Alternate(Listen(c, v, frames, b, k), v.state.Speech? || v.state.SpeechEnding?)
    decreases |frames| - k
  {
    if k < |frames| {
      var (v', command) := VadStep(c, v, frames[k], b[k]);
      var next := if command.EndOfUtterance? then v'.(utterance := []) else v';
      StartsAndEndsAlternate(c, next, frames, b, k + 1);
      var outs, rest := Listen(c, v, frames, b, k), Listen(c, next, frames, b, k + 1);
      if !command.NoCommand? {
        forall m | 0 <= m < |outs|
          ensures outs[m].Started? <==> (m % 2 == 0) != (v.state.Speech? || v.state.SpeechEnding?)
        {
          if m > 0 { assert outs[m] == rest[m - 1]; }
        }
      }
    }
  }

  // ---------- frame accounting ----------

  ghost predicate WellCut(c: Config, b: seq<bool>, s: Segment, from: nat)
  {
    && |s.lead| <= c.lookback
    && (forall k :: 0 <= k < |s.lead| ==> s.lead[k] < s.onset && s.lead[k] < |b| && !b[s.lead[k]])
    && (forall j, k :: 0 <= j < k < |s.lead| ==> s.lead[j] < s.lead[k])
    && from <= s.onset && s.onset + StartRun(c) == s.started + 1 && s.started < |b|
    && b[s.onset] && b[s.started]
    && (s.ended.Some? ==>
          && s.started < s.ended.value < |b|
          && |s.lead| + (s.ended.value + 1 - s.onset) <= Longest(c))
  }

  function Longest(c: Config): nat
  {
    var least := c.lookback + StartRun(c) + 1;
    if c.maxUtterance > least then c.maxUtterance else least
  }

  /** Increasing, silent, and all before `from`. */
  ghost predicate IdleSoFar(b: seq<bool>, idle: seq<nat>, from: nat)
  {
    && (forall k :: 0 <= k < |idle| ==> idle[k] < from && idle[k] < |b| && !b[idle[k]])
    && (forall j, k :: 0 <= j < k < |idle| ==> idle[j] < idle[k])
  }

  lemma IdleExtends(b: seq<bool>, idle: seq<nat>, from: nat, hi: nat)
    requires IdleSoFar(b, idle, from) && from <= hi
    ensures IdleSoFar(b, idle + Idle(b, from, hi), hi)
    decreases hi
  {
    if from < hi {
      IdleExtends(b, idle, from, hi - 1);
      var all, front := idle + Idle(b, from, hi), idle + Idle(b, from, hi - 1);
      if IsIdle(b, from, hi - 1) { assert all == front + [hi - 1]; } else { assert all == front; }
    } else {
      assert idle + Idle(b, from, hi) == idle;
    }
  }

  lemma IdleLater(b: seq<bool>, idle: seq<nat>, from: nat, to: nat)
    requires IdleSoFar(b, idle, from) && from <= to
    ensures IdleSoFar(b, idle, to)
  {
  }

  /** Well-cut segments, disjoint and in order, of which only the last may be open. */
  ghost predicate AllCut(c: Config, b: seq<bool>, segments: seq<Segment>, from: nat)
  {
    && (forall m :: 0 <= m < |segments| ==> WellCut(c, b, segments[m], from))
    && (forall m, n :: 0 <= m < n < |segments| ==>
          Before(segments[m], segments[n]))
  }

  predicate Before(a: Segment, b: Segment)
  {
    a.ended.Some? && a.ended.value < b.onset
  }

  lemma AllCutCons(c: Config, b: seq<bool>, s: Segment, rest: seq<Segment>, from: nat)
    requires WellCut(c, b, s, from)
    requires if s.ended.Some? then AllCut(c, b, rest, s.ended.value + 1) else rest == []
    ensures AllCut(c, b, [s] + rest, from)
  {
    var all := [s] + rest;
    forall m | 0 <= m < |all| ensures WellCut(c, b, all[m], from) {
      if m > 0 { assert all[m] == rest[m - 1] && WellCut(c, b, rest[m - 1], s.ended.value + 1); }
    }
    forall m, n | 0 <= m < n < |all| ensures Before(all[m], all[n]) {
      assert all[n] == rest[n - 1] && WellCut(c, b, rest[n - 1], s.ended.value + 1);
      if m > 0 { assert all[m] == rest[m - 1] && Before(rest[m - 1], rest[n - 1]); }
    }
  }

  lemma OpenedIsWellCut(c: Config, b: seq<bool>, from: nat, idle: seq<nat>, i: nat)
    requires ValidConfig(c) && IsStart(c, b, from, i) && IdleSoFar(b, idle, i + 1 - StartRun(c))
    ensures WellCut(c, b, Opened(c, b, idle, i + 1 - StartRun(c), i), from)
  {
    var onset := i + 1 - StartRun(c);
    assert b[onset] && b[i];
    var s := Opened(c, b, idle, onset, i);
    if s.ended.Some? && s.ended.value > i + 1 {
      assert !IsEnd(c, b, i, |s.lead|, s.ended.value - 1);
    }
  }

  /** A segment that starts at frame i is well cut, and is followed by idle frames of its own stretch. */
  lemma FirstIsCut(c: Config, b: seq<bool>, from: nat, idle: seq<nat>, i: nat)
    returns (idle': seq<nat>, s: Segment)
    requires ValidConfig(c) && IdleSoFar(b, idle, from) && FirstStart(c, b, from) == Some(i)
    ensures Segments(c, b, from, idle) == [s] + After(c, b, s, idle')
    ensures WellCut(c, b, s, from)
    ensures s.ended.Some? ==> from <= s.ended.value < |b| && IdleSoFar(b, idle', s.ended.value + 1)
  {
    var onset := i + 1 - StartRun(c);
    idle' := idle + Idle(b, from, onset);
    s := Opened(c, b, idle', onset, i);
    SegmentsStep(c, b, from, idle, i);
    IdleExtends(b, idle, from, onset);
    OpenedIsWellCut(c, b, from, idle', i);
    if s.ended.Some? { IdleLater(b, idle', onset, s.ended.value + 1); }
  }

  /**
   * Every segment is at most L lead-in frames, all silent, in input order and
   * before the onset, then one contiguous slice from the first frame of the
   * start run to the boundary; slices of different segments are disjoint and
   * in order; only the last segment can lack an end; and no utterance is
   * longer than max(max frames, L + start run + 1).
   */
  lemma {:induction false} FrameAccounting(c: Config, b: seq<bool>, from: nat, idle: seq<nat>)
    requires ValidConfig(c) && IdleSoFar(b, idle, from)
    ensures AllCut(c, b, Segments(c, b, from, idle), from)
    decreases |b| - from
  {
    var start := FirstStart(c, b, from);
    if start.None? {
      assert Segments(c, b, from, idle) == [];
    } else {
      var idle', s := FirstIsCut(c, b, from, idle, start.value);
      if s.ended.Some? { FrameAccounting(c, b, s.ended.value + 1, idle'); }
      AllCutCons(c, b, s, After(c, b, s, idle'), from);
    }
  }

  lemma Broken(b: seq<bool>, lo: nat, hi: nat, value: bool, k: nat)
    requires lo <= k < hi <= |b| && b[k] != value
    ensures !AllAre(b, lo, hi, value)
  {
  }

  const CONFIG_EXAMPLE := Config(2, 2, 100, 5)
  const FALSE_START := [false, true, false, true, true, false, false, true, true, false, false]

  lemma FalseStartFirst()
    ensures FirstStart(CONFIG_EXAMPLE, FALSE_START, 0) == Some(4) && Idle(FALSE_START, 0, 3) == [0]
    ensures FirstEnd(CONFIG_EXAMPLE, FALSE_START, 4, 1) == Some(6)
  {
    var c, b := CONFIG_EXAMPLE, FALSE_START;
    Broken(b, 0, 2, true, 0);
    Broken(b, 1, 3, true, 2);
    Broken(b, 2, 4, true, 2);
    Broken(b, 4, 6, false, 4);
    assert IsStart(c, b, 0, 4) && IsEnd(c, b, 4, 1, 6);
    assert Idle(b, 0, 1) == [0] && Idle(b, 0, 2) == [0];
  }

  lemma FalseStartSecond()
    ensures FirstStart(CONFIG_EXAMPLE, FALSE_START, 7) == Some(8)
    ensures FirstEnd(CONFIG_EXAMPLE, FALSE_START, 8, 1) == Some(10)
  {
    var c, b := CONFIG_EXAMPLE, FALSE_START;
    Broken(b, 8, 10, false, 8);
    assert IsStart(c, b, 7, 8) && IsEnd(c, b, 8, 1, 10);
  }

  /**
   * The lookback is not always the audio just before the onset: the frame
   * that cut off a false start is skipped, and since nothing clears the
   * lookback the same frame can lead two utterances.
   */
  lemma LookbackSkipsAndRepeats()
    ensures Segments(CONFIG_EXAMPLE, FALSE_START, 0, [])
      == [Segment([0], 3, 4, Some(6)), Segment([0], 7, 8, Some(10))]
  {
    FalseStartFirst();
    FalseStartSecond();
    var c, b := CONFIG_EXAMPLE, FALSE_START;
    assert [] + Idle(b, 0, 3) == [0] && [0] + Idle(b, 7, 7) == [0];
    SegmentsStep(c, b, 0, [], 4);
    SegmentsStep(c, b, 7, [0], 8);
  }
}
