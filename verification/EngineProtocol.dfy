/**
 * The inference engine's output stream for one call: a read pump, a worker
 * and a relay, joined by two FIFO queues, in any interleaving.
 */
module EngineProtocol {
  import opened Basics

  datatype Outcome = AGREED | PROMISED | REFUSED | UNCLEAR

  const HISTORY_LIMIT: nat := 12

  datatype Role = User | Assistant

  datatype Turn = Turn(role: Role, content: string)

  /** An utterance by its dispatch number, or the stop marker. */
  datatype Item = Utterance(number: nat) | UtteranceStop

  datatype Message = Audio(chunk: seq<int>) | CallOutcome(outcome: Outcome) | Shutdown

  /**
   * What inference does with one utterance. No text: nothing is said or
   * remembered. Otherwise `chunks` is the audio of the sentences spoken;
   * `failed` means a caught exception ended it, `parts` counts sentences.
   */
  datatype Reply =
    | NoText
    | Spoken(user: string, assistant: string, parts: nat, chunks: seq<seq<int>>, failed: bool)

  /** A reply, and the dispatch number of the utterance it answers. */
  datatype Answer = Answer(number: nat, reply: Reply)

  datatype Worker =
    | Idle
    | Speaking(reply: Reply, sent: nat)
    | Stopping
    | Closing
    | WorkerDone

  datatype Engine = Engine(
    input: nat,                 // utterances the caller has yet to complete
    pumpDone: bool,
    dispatched: nat,            // utterances put on the utterance queue so far
    utteranceQueue: seq<Item>,
    worker: Worker,
    history: seq<Turn>,
    outboundQueue: seq<Message>,
    stream: seq<Message>,       // what the relay has yielded
    closed: bool,
    answers: seq<Answer>)       // how each utterance taken so far was answered, in the order taken

  datatype Event =
    | Dispatch
    | InputEnds
    | Take(reply: Reply)
    | SendChunk
    | FinishReply
    | Classify(word: string)
    | PutShutdown
    | Relay

  function Start(input: nat): Engine
  {
    Engine(input, false, 0, [], Idle, [], [], [], false, [])
  }

  /** Anything but the four words is UNCLEAR. */
  function OutcomeOf(word: string): Outcome
  {
    if word == "AGREED" then AGREED
    else if word == "PROMISED" then PROMISED
    else if word == "REFUSED" then REFUSED
    else UNCLEAR
  }

  function KeepLast(history: seq<Turn>, reply: Reply): seq<Turn>
  {
    if reply.Spoken? && !reply.failed && reply.parts > 0
    then LastN(history + [Turn(User, reply.user), Turn(Assistant, reply.assistant)], HISTORY_LIMIT)
    else history
  }

  function ChunksOf(reply: Reply): seq<seq<int>>
  {
    if reply.NoText? then [] else reply.chunks
  }

  predicate Enabled(g: Engine, e: Event)
  {
    match e
    case Dispatch => !g.pumpDone && g.input > 0
    case InputEnds => !g.pumpDone
    case Take(_) => g.worker.Idle? && g.utteranceQueue != []
    case SendChunk => g.worker.Speaking? && g.worker.sent < |ChunksOf(g.worker.reply)|
    case FinishReply => g.worker.Speaking? && g.worker.sent == |ChunksOf(g.worker.reply)|
    case Classify(_) => g.worker.Stopping?
    case PutShutdown => g.worker.Closing?
    case Relay => !g.closed && g.outboundQueue != []
  }

  function Put(g: Engine, m: Message): Engine
  {
    g.(outboundQueue := g.outboundQueue + [m])
  }

  function Apply(g: Engine, e: Event): Engine
    requires Enabled(g, e)
  {
    match e
    case Dispatch =>
      g.(input := g.input - 1, dispatched := g.dispatched + 1,
         utteranceQueue := g.utteranceQueue + [Utterance(g.dispatched)])
    case InputEnds =>
      // the finally block runs however the pump ends; what is left of the input is dropped
      g.(pumpDone := true, utteranceQueue := g.utteranceQueue + [UtteranceStop])
    case Take(reply) =>
      if g.utteranceQueue[0].UtteranceStop?
      then g.(utteranceQueue := g.utteranceQueue[1..], worker := Stopping)
      else g.(utteranceQueue := g.utteranceQueue[1..], worker := Speaking(reply, 0),
              answers := g.answers + [Answer(g.utteranceQueue[0].number, reply)])
    case SendChunk =>
      Put(g.(worker := g.worker.(sent := g.worker.sent + 1)), Audio(ChunksOf(g.worker.reply)[g.worker.sent]))
    case FinishReply =>
      g.(worker := Idle, history := KeepLast(g.history, g.worker.reply))
    case Classify(word) =>
      Put(g.(worker := Closing), CallOutcome(if g.history == [] then UNCLEAR else OutcomeOf(word)))
    case PutShutdown =>
      Put(g.(worker := WorkerDone), Shutdown)
    case Relay =>
      if g.outboundQueue[0].Shutdown?
      then g.(outboundQueue := g.outboundQueue[1..], closed := true)
      else g.(outboundQueue := g.outboundQueue[1..], stream := g.stream + [g.outboundQueue[0]])
  }

  ghost predicate IsRun(states: seq<Engine>, events: seq<Event>)
  {
    && |states| == |events| + 1 && (exists n :: states[0] == Start(n))
    && forall k {:trigger events[k]} :: 0 <= k < |events| ==>
         Enabled(states[k], events[k]) && states[k + 1] == Apply(states[k], events[k])
  }

  // ---------- what the stream should be ----------

  ghost function AudioOf(chunks: seq<seq<int>>): seq<Message>
  {
    seq(|chunks|, i requires 0 <= i < |chunks| => Audio(chunks[i]))
  }

  /** The audio of one answer: the chunks of what was spoken, and none for a silent utterance. */
  ghost function AnswerAudio(reply: Reply): seq<Message>
  {
    match reply
    case NoText => []
    case Spoken(_, _, _, chunks, _) => AudioOf(chunks)
  }

  /** The audio of the answers, one after the other. */
  ghost function AllAudio(answers: seq<Answer>): seq<Message>
  {
    if answers == [] then []
    else AllAudio(answers[..|answers| - 1]) + AnswerAudio(answers[|answers| - 1].reply)
  }

  /** A complete exchange: something was said, and no failure ended it. */
  ghost predicate Remembered(reply: Reply)
  {
    match reply
    case NoText => false
    case Spoken(_, _, parts, _, failed) => parts >= 1 && !failed
  }

  /** Answer i is about utterance i: none is skipped, repeated or overtaken. */
  predicate InDispatchOrder(answers: seq<Answer>)
  {
    forall i :: 0 <= i < |answers| ==> answers[i].number == i
  }

  /** Every complete exchange of the call, in order: the full transcript. */
  ghost function Transcript(answers: seq<Answer>): seq<Turn>
  {
    if answers == [] then []
    else
      var reply := answers[|answers| - 1].reply;
      Transcript(answers[..|answers| - 1]) +
        (if Remembered(reply)
         then [Turn(User, reply.user), Turn(Assistant, reply.assistant)] else [])
  }

  /** The utterances the worker has finished answering. */
  function Finished(g: Engine): seq<Answer>
  {
    if g.worker.Speaking? && |g.answers| > 0 then g.answers[..|g.answers| - 1] else g.answers
  }

  function Numbers(lo: nat, hi: nat): seq<Item>
    requires lo <= hi
  {
    seq(hi - lo, i requires 0 <= i < hi - lo => Utterance(lo + i))
  }

  ghost predicate QueueOk(g: Engine)
  {
    && |g.answers| <= g.dispatched && InDispatchOrder(g.answers)
    && (g.worker.Stopping? || g.worker.Closing? || g.worker.WorkerDone? ==>
          g.pumpDone && g.utteranceQueue == [] && |g.answers| == g.dispatched)
    && (g.worker.Idle? || g.worker.Speaking? ==>
          g.utteranceQueue == Numbers(|g.answers|, g.dispatched) + (if g.pumpDone then [UtteranceStop] else []))
  }

  ghost predicate SpeakingOk(g: Engine)
  {
    g.worker.Speaking? ==>
      && g.answers != [] && g.worker.reply == g.answers[|g.answers| - 1].reply
      && g.worker.sent <= |ChunksOf(g.worker.reply)|
  }

  /** Everything the worker has put so far, in order, without the outcome. */
  ghost function Said(g: Engine): seq<Message>
  {
    AllAudio(Finished(g)) +
      (if g.worker.Speaking? && g.worker.sent <= |ChunksOf(g.worker.reply)|
       then AudioOf(ChunksOf(g.worker.reply)[..g.worker.sent]) else [])
  }

  /** Everything put on the outbound queue so far: yielded, then still queued, then the marker that closed the relay. */
  function Sent(g: Engine): seq<Message>
  {
    g.stream + g.outboundQueue + (if g.closed then [Shutdown] else [])
  }

  /** What the worker has put, given the outcome it reported. */
  ghost function Expected(g: Engine, outcome: Outcome): seq<Message>
  {
    if g.worker.WorkerDone? then Said(g) + [CallOutcome(outcome), Shutdown]
    else if g.worker.Closing? then Said(g) + [CallOutcome(outcome)]
    else Said(g)
  }

  ghost predicate Inv(g: Engine, outcome: Outcome)
  {
    && QueueOk(g) && SpeakingOk(g)
    && Sent(g) == Expected(g, outcome)
    && (g.closed ==> g.outboundQueue == [] && g.worker.WorkerDone?)
    && g.history == LastN(Transcript(Finished(g)), HISTORY_LIMIT)
  }

  // ---------- the classifier's word ----------

  /** What the classifier answered so far, one word per time it ran. */
  ghost function Words(events: seq<Event>): seq<string>
  {
    if events == [] then []
    else
      var e := events[|events| - 1];
      Words(events[..|events| - 1]) + (if e.Classify? then [e.word] else [])
  }

  /** A word is one of the three verdicts, or there is none. */
  ghost predicate Spells(word: string, outcome: Outcome)
  {
    && (outcome == AGREED <==> word == "AGREED")
    && (outcome == PROMISED <==> word == "PROMISED")
    && (outcome == REFUSED <==> word == "REFUSED")
  }

  /** No verdict on a call without a complete exchange; otherwise the classifier's. */
  ghost predicate Verdict(answers: seq<Answer>, word: string, outcome: Outcome)
  {
    if forall i :: 0 <= i < |answers| ==> !Remembered(answers[i].reply) then outcome == UNCLEAR
    else Spells(word, outcome)
  }

  ghost predicate WordsOk(g: Engine, words: seq<string>, outcome: Outcome)
  {
    if g.worker.Closing? || g.worker.WorkerDone? then |words| == 1 && Verdict(g.answers, words[0], outcome)
    else words == []
  }

  lemma {:induction false} NothingRemembered(answers: seq<Answer>)
    ensures Transcript(answers) == [] <==> forall i :: 0 <= i < |answers| ==> !Remembered(answers[i].reply)
  {
    if answers != [] {
      var n := |answers| - 1;
      NothingRemembered(answers[..n]);
      if forall i :: 0 <= i < |answers| ==> !Remembered(answers[i].reply) {
        assert forall i :: 0 <= i < n ==> !Remembered(answers[..n][i].reply);
      } else if !Remembered(answers[n].reply) {
        var i :| 0 <= i < |answers| && Remembered(answers[i].reply);
        assert Remembered(answers[..n][i].reply);
      }
    }
  }

  lemma WordsStep(g: Engine, words: seq<string>, outcome: Outcome, e: Event)
    requires Inv(g, outcome) && WordsOk(g, words, outcome) && Enabled(g, e)
    ensures WordsOk(Apply(g, e), if e.Classify? then words + [e.word] else words, Reported(g, e, outcome))
  {
    if e.Classify? {
      NothingRemembered(g.answers);
    }
  }

  // ---------- one step ----------

  /** Taking an utterance keeps the queue and the numbering. */
  lemma TakeQueue(g: Engine, reply: Reply)
    requires QueueOk(g) && Enabled(g, Take(reply))
    ensures QueueOk(Apply(g, Take(reply)))
    ensures g.utteranceQueue[0].UtteranceStop? ==> g.dispatched == |g.answers|
  {
    var n := |g.answers|;
    if !g.utteranceQueue[0].UtteranceStop? {
      assert n < g.dispatched;
      assert Numbers(n, g.dispatched)[1..] == Numbers(n + 1, g.dispatched);
    }
  }

  /** Taking an utterance finishes nothing and says nothing. */
  lemma TakeSays(g: Engine, reply: Reply)
    requires SpeakingOk(g) && Enabled(g, Take(reply))
    ensures var g' := Apply(g, Take(reply));
      Finished(g') == Finished(g) && Said(g') == Said(g) && SpeakingOk(g')
  {
    var g' := Apply(g, Take(reply));
    assert AllAudio(g.answers) + [] == AllAudio(g.answers);
    if !g.utteranceQueue[0].UtteranceStop? {
      assert g'.answers[..|g.answers|] == g.answers;
      assert AudioOf(ChunksOf(reply)[..0]) == [];
    }
  }

  lemma TakeStep(g: Engine, outcome: Outcome, reply: Reply)
    requires Inv(g, outcome) && Enabled(g, Take(reply))
    ensures Inv(Apply(g, Take(reply)), outcome)
  {
    TakeQueue(g, reply);
    TakeSays(g, reply);
    assert Sent(Apply(g, Take(reply))) == Sent(g);
  }

  lemma PutSent(g: Engine, m: Message)
    requires !g.closed
    ensures Sent(Put(g, m)) == Sent(g) + [m]
  {
    assert g.stream + (g.outboundQueue + [m]) + [] == g.stream + g.outboundQueue + [] + [m];
  }

  /** One more chunk of the current reply is one more message said. */
  lemma SaidGrows(g: Engine)
    requires Enabled(g, SendChunk)
    ensures Said(Apply(g, SendChunk)) == Said(g) + [Audio(ChunksOf(g.worker.reply)[g.worker.sent])]
  {
    var chunks, k := ChunksOf(g.worker.reply), g.worker.sent;
    assert AudioOf(chunks[..k + 1]) == AudioOf(chunks[..k]) + [Audio(chunks[k])];
    Associative(AllAudio(Finished(g)), AudioOf(chunks[..k]), [Audio(chunks[k])]);
  }

  lemma SendChunkStep(g: Engine, outcome: Outcome)
    requires Inv(g, outcome) && Enabled(g, SendChunk)
    ensures Inv(Apply(g, SendChunk), outcome)
  {
    var m := Audio(ChunksOf(g.worker.reply)[g.worker.sent]);
    SaidGrows(g);
    PutSent(g, m);
    assert Sent(Apply(g, SendChunk)) == Sent(Put(g, m));
  }

  lemma FinishStep(g: Engine, outcome: Outcome)
    requires Inv(g, outcome) && Enabled(g, FinishReply)
    ensures Inv(Apply(g, FinishReply), outcome)
  {
    var reply := g.worker.reply;
    var chunks := ChunksOf(reply);
    assert chunks[..|chunks|] == chunks;
    var before := Transcript(g.answers[..|g.answers| - 1]);
    if reply.Spoken? && !reply.failed && reply.parts > 0 {
      var pair := [Turn(User, reply.user), Turn(Assistant, reply.assistant)];
      assert LastN(LastN(before, HISTORY_LIMIT) + pair, HISTORY_LIMIT) == LastN(before + pair, HISTORY_LIMIT);
    } else {
      assert before + [] == before;
    }
  }

  lemma PumpQueue(g: Engine, e: Event)
    requires QueueOk(g) && Enabled(g, e) && (e.Dispatch? || e.InputEnds?)
    ensures QueueOk(Apply(g, e))
  {
    if e.Dispatch? {
      assert Numbers(|g.answers|, g.dispatched + 1) == Numbers(|g.answers|, g.dispatched) + [Utterance(g.dispatched)];
    }
  }

  lemma PumpStep(g: Engine, outcome: Outcome, e: Event)
    requires Inv(g, outcome) && Enabled(g, e) && (e.Dispatch? || e.InputEnds?)
    ensures Inv(Apply(g, e), outcome)
  {
    PumpQueue(g, e);
    var g' := Apply(g, e);
    assert Said(g') == Said(g) && Sent(g') == Sent(g) && Finished(g') == Finished(g);
  }

  /** The outcome an event reports, if it is the one that does. */
  function Reported(g: Engine, e: Event, outcome: Outcome): Outcome
  {
    if e.Classify? then (if g.history == [] then UNCLEAR else OutcomeOf(e.word)) else outcome
  }

  lemma InvStep(g: Engine, outcome: Outcome, e: Event)
    requires Inv(g, outcome) && Enabled(g, e)
    ensures Inv(Apply(g, e), Reported(g, e, outcome))
  {
    match e
    case Take(reply) => TakeStep(g, outcome, reply);
    case SendChunk => SendChunkStep(g, outcome);
    case FinishReply => FinishStep(g, outcome);
    case Relay =>
      RelayStep(g, outcome);
    case Dispatch => PumpStep(g, outcome, e);
    case InputEnds => PumpStep(g, outcome, e);
    case Classify(word) =>
      PutSent(g, CallOutcome(Reported(g, e, outcome)));
      assert Sent(Apply(g, e)) == Sent(Put(g, CallOutcome(Reported(g, e, outcome))));
    case PutShutdown =>
      PutSent(g, Shutdown);
      assert Sent(Apply(g, e)) == Sent(Put(g, Shutdown));
      assert Said(g) + [CallOutcome(outcome)] + [Shutdown] == Said(g) + [CallOutcome(outcome), Shutdown];
  }

  lemma AudioHasNoShutdown(answers: seq<Answer>)
    ensures forall i :: 0 <= i < |AllAudio(answers)| ==> AllAudio(answers)[i].Audio?
  {
  }

  /** A message moves from the queue to the stream, or closes it; what was sent stays what it was. */
  lemma RelaySent(g: Engine, outcome: Outcome)
    requires Inv(g, outcome) && Enabled(g, Relay)
    ensures Sent(Apply(g, Relay)) == Sent(g)
  {
    var head, rest := g.outboundQueue[0], g.outboundQueue[1..];
    assert g.outboundQueue == [head] + rest;
    if head.Shutdown? {
      ShutdownIsLast(g, outcome);
    } else {
      Associative(g.stream, [head], rest);
    }
  }

  lemma RelayStep(g: Engine, outcome: Outcome)
    requires Inv(g, outcome) && Enabled(g, Relay)
    ensures Inv(Apply(g, Relay), outcome)
  {
    var g' := Apply(g, Relay);
    RelaySent(g, outcome);
    assert Expected(g', outcome) == Expected(g, outcome);
    if g.outboundQueue[0].Shutdown? { ShutdownIsLast(g, outcome); }
  }

  lemma ShutdownIsLast(g: Engine, outcome: Outcome)
    requires Inv(g, outcome) && !g.closed && g.outboundQueue != [] && g.outboundQueue[0].Shutdown?
    ensures g.worker.WorkerDone? && |g.outboundQueue| == 1
  {
    AudioHasNoShutdown(Finished(g));
    assert Sent(g)[|g.stream|] == Shutdown;
  }

  lemma WordsMore(events: seq<Event>, k: nat)
    requires k < |events|
    ensures Words(events[..k + 1])
      == if events[k].Classify? then Words(events[..k]) + [events[k].word] else Words(events[..k])
  {
    assert events[..k + 1][..k] == events[..k];
  }

  lemma {:induction false} RunInv(states: seq<Engine>, events: seq<Event>, k: nat) returns (outcome: Outcome)
    requires IsRun(states, events) && k < |states|
    ensures Inv(states[k], outcome) && WordsOk(states[k], Words(events[..k]), outcome)
  {
    if k == 0 {
      outcome := UNCLEAR;
    } else {
      var before := RunInv(states, events, k - 1);
      var g, e := states[k - 1], events[k - 1];
      InvStep(g, before, e);
      WordsStep(g, Words(events[..k - 1]), before, e);
      WordsMore(events, k - 1);
      outcome := Reported(g, e, before);
    }
  }

  // ---------- the protocol ----------

  /**
   * At every moment the stream is a prefix of: the audio of the answers to
   * utterances 0, 1, 2 and so on, then one outcome, which comes only after
   * every dispatched utterance was answered and is the verdict of the one word
   * the classifier then gave. It is closed only when it is all of that and
   * nothing more is coming.
   */
  lemma OutputProtocol(states: seq<Engine>, events: seq<Event>, k: nat) returns (outcome: Outcome)
    requires IsRun(states, events) && k < |states|
    ensures var g := states[k];
      && g.stream <= AllAudio(g.answers) + [CallOutcome(outcome)]
      && InDispatchOrder(g.answers) && |g.answers| <= g.dispatched
      && (|g.stream| > |AllAudio(g.answers)| ==>
            && |g.answers| == g.dispatched && g.pumpDone
            && |Words(events[..k])| == 1 && Verdict(g.answers, Words(events[..k])[0], outcome))
      && (g.closed ==>
            && g.stream == AllAudio(g.answers) + [CallOutcome(outcome)]
            && |g.answers| == g.dispatched && g.pumpDone && g.outboundQueue == [] && g.utteranceQueue == [])
  {
    outcome := RunInv(states, events, k);
    var g := states[k];
    SaidIsPrefix(g);
    assert g.stream <= Expected(g, outcome);
    var all := AllAudio(g.answers) + [CallOutcome(outcome)];
    if g.worker.WorkerDone? {
      assert Said(g) == AllAudio(g.answers);
      assert Expected(g, outcome) == all + [Shutdown];
      NoShutdownYielded(states, events, k);
      PrefixWithout(g.stream, all, Shutdown);
      if g.closed { assert g.stream + [] + [Shutdown] == all + [Shutdown]; assert g.stream == all; }
    } else if g.worker.Closing? {
      assert Said(g) == AllAudio(g.answers);
    } else {
      PrefixTransitive(g.stream, Said(g), AllAudio(g.answers));
      PrefixTransitive(g.stream, AllAudio(g.answers), all);
    }
  }

  lemma LastOf(a: seq<Message>, front: seq<Message>, last: Message)
    requires a == front + [last]
    ensures |a| > |front| && a[|front|] == last
  {
  }

  lemma PrefixWithout(a: seq<Message>, all: seq<Message>, last: Message)
    requires a <= all + [last] && forall i :: 0 <= i < |a| ==> a[i] != last
    ensures a <= all
  {
    if |a| > |all| {
      assert a == all + [last];
      LastOf(a, all, last);
      assert false;
    }
  }

  lemma PrefixTransitive(a: seq<Message>, b: seq<Message>, c: seq<Message>)
    requires a <= b <= c
    ensures a <= c
  {
  }

  lemma {:induction false} NoShutdownYielded(states: seq<Engine>, events: seq<Event>, k: nat)
    requires IsRun(states, events) && k < |states|
    ensures forall i :: 0 <= i < |states[k].stream| ==> !states[k].stream[i].Shutdown?
  {
    if k > 0 { NoShutdownYielded(states, events, k - 1); assert Enabled(states[k - 1], events[k - 1]); }
  }

  lemma SaidIsPrefix(g: Engine)
    requires SpeakingOk(g)
    ensures Said(g) <= AllAudio(g.answers)
  {
    if g.worker.Speaking? {
      var chunks := ChunksOf(g.worker.reply);
      assert AudioOf(chunks[..g.worker.sent]) <= AudioOf(chunks);
    }
  }

  /** The classifier only ever runs after every dispatched utterance has been answered and remembered. */
  lemma ClassifierSeesWholeCall(states: seq<Engine>, events: seq<Event>, k: nat)
    requires IsRun(states, events) && k < |events| && events[k].Classify?
    ensures var g := states[k];
      && g.pumpDone && |g.answers| == g.dispatched && InDispatchOrder(g.answers)
      && g.history == LastN(Transcript(g.answers), HISTORY_LIMIT)
  {
    var outcome := RunInv(states, events, k);
    assert Enabled(states[k], events[k]);
  }

  lemma {:induction false} TranscriptIsPairs(answers: seq<Answer>)
    ensures IsPairs(Transcript(answers))
  {
    if answers != [] { TranscriptIsPairs(answers[..|answers| - 1]); }
  }

  /** Whole exchanges: the user's turn, then the assistant's. */
  ghost predicate IsPairs(turns: seq<Turn>)
  {
    |turns| % 2 == 0 && forall i :: 0 <= i < |turns| ==> (turns[i].role.User? <==> i % 2 == 0)
  }

  lemma RecentPairs(turns: seq<Turn>)
    requires IsPairs(turns)
    ensures IsPairs(LastN(turns, HISTORY_LIMIT))
  {
    var recent := LastN(turns, HISTORY_LIMIT);
    var gap := |turns| - |recent|;
    forall i | 0 <= i < |recent| ensures recent[i].role.User? <==> i % 2 == 0 {
      assert recent[i] == turns[gap + i];
    }
  }

  /** History is always the last six or fewer complete user/assistant exchanges of the full transcript. */
  lemma HistoryIsRecentPairs(states: seq<Engine>, events: seq<Event>, k: nat)
    requires IsRun(states, events) && k < |states|
    ensures var g := states[k]; var all := Transcript(Finished(g));
      && IsPairs(g.history) && |g.history| == (if |all| < 12 then |all| else 12)
      && g.history == all[|all| - |g.history|..] && InDispatchOrder(Finished(g))
  {
    var outcome := RunInv(states, events, k);
    TranscriptIsPairs(Finished(states[k]));
    RecentPairs(Transcript(Finished(states[k])));
  }

  // ---------- the call always ends ----------

  function WorkerRank(w: Worker): nat
  {
    match w
    case Idle => 0
    case Speaking(_, _) => 1
    case Stopping => 3
    case Closing => 2
    case WorkerDone => 1
  }

  function Unsent(w: Worker): nat
  {
    if w.Speaking? && w.sent <= |ChunksOf(w.reply)| then |ChunksOf(w.reply)| - w.sent else 0
  }

  /** A lexicographic measure of the work left. */
  function WorkLeft(g: Engine): (nat, nat, nat, nat)
  {
    (g.input + (if g.pumpDone then 0 else 1),
     4 * |g.utteranceQueue| + WorkerRank(g.worker),
     Unsent(g.worker),
     |g.outboundQueue|)
  }

  predicate Less(a: (nat, nat, nat, nat), b: (nat, nat, nat, nat))
  {
    || a.0 < b.0
    || (a.0 == b.0 && a.1 < b.1)
    || (a.0 == b.0 && a.1 == b.1 && a.2 < b.2)
    || (a.0 == b.0 && a.1 == b.1 && a.2 == b.2 && a.3 < b.3)
  }

  /** Every step leaves strictly less work, whatever inference answers, so no run goes on for ever. */
  lemma EveryStepDescends(g: Engine, e: Event)
    requires Enabled(g, e)
    ensures Less(WorkLeft(Apply(g, e)), WorkLeft(g))
  {
  }

  /** Where nothing can happen the worker has put everything. */
  lemma StuckWorkerIsDone(g: Engine, outcome: Outcome)
    requires Inv(g, outcome)
    requires !Enabled(g, InputEnds) && !Enabled(g, Take(NoText)) && !Enabled(g, SendChunk) && !Enabled(g, FinishReply)
    requires !Enabled(g, Classify("")) && !Enabled(g, PutShutdown)
    ensures g.worker.WorkerDone?
  {
    assert SpeakingOk(g) && QueueOk(g);
  }

  /** A worker that is done and a relay with nothing to do: the relay has seen the marker. */
  lemma DrainedIsClosed(g: Engine, outcome: Outcome)
    requires Inv(g, outcome) && g.worker.WorkerDone? && !Enabled(g, Relay)
    requires forall i :: 0 <= i < |g.stream| ==> !g.stream[i].Shutdown?
    ensures g.closed
  {
    assert Sent(g)[|Sent(g)| - 1] == Shutdown;
    assert g.stream + [] + [] == g.stream;
  }

  /** A run can only stop where the stream is complete and closed. */
  lemma StuckMeansClosed(states: seq<Engine>, events: seq<Event>, k: nat) returns (outcome: Outcome)
    requires IsRun(states, events) && k < |states|
    requires forall e :: !Enabled(states[k], e)
    ensures states[k].closed && states[k].stream == AllAudio(states[k].answers) + [CallOutcome(outcome)]
    ensures |states[k].answers| == states[k].dispatched && InDispatchOrder(states[k].answers)
  {
    var o := RunInv(states, events, k);
    StuckWorkerIsDone(states[k], o);
    NoShutdownYielded(states, events, k);
    DrainedIsClosed(states[k], o);
    outcome := OutputProtocol(states, events, k);
  }
}
