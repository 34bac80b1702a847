/**
 * From the engine's classification to the gateway's report: what the engine
 * yields is what the gateway receives, in order and perhaps cut short.
 */
module CallReport {
  import opened Basics
  import EngineProtocol
  import Teardown

  type Message = EngineProtocol.Message
  type Incoming = Teardown.Incoming

  /** The word on the wire. */
  function Word(outcome: EngineProtocol.Outcome): (word: string)
    ensures EngineProtocol.OutcomeOf(word) == outcome && word != ""
  {
    match outcome
    case AGREED => "AGREED"
    case PROMISED => "PROMISED"
    case REFUSED => "REFUSED"
    case UNCLEAR => "UNCLEAR"
  }

  function OnWire(m: Message): Incoming
  {
    match m
    case Audio(_) => Teardown.AudioEvent
    case CallOutcome(outcome) => Teardown.OutcomeEvent(Word(outcome))
    case Shutdown => Teardown.OtherEvent
  }

  function AllOnWire(stream: seq<Message>): (wire: seq<Incoming>)
  {
    seq(|stream|, i requires 0 <= i < |stream| => OnWire(stream[i]))
  }

  /** What the gateway has been sent, in order. */
  ghost function Received(events: seq<Teardown.Event>): seq<Incoming>
  {
    if events == [] then []
    else
      var e := events[|events| - 1];
      Received(events[..|events| - 1]) + (if e.ByEngine? && e.engine.EngineSends? then [e.engine.sent] else [])
  }

  lemma {:induction false} SentAreReceived(events: seq<Teardown.Event>)
    ensures Teardown.SentOutcomes(events) == Teardown.OutcomesIn(Received(events))
  {
    if events != [] {
      var front, e := events[..|events| - 1], events[|events| - 1];
      SentAreReceived(front);
      if e.ByEngine? && e.engine.EngineSends? {
        Teardown.OutcomesInAppend(Received(front), e.engine.sent);
      } else {
        assert Received(front) + [] == Received(front);
        assert Teardown.SentOutcomes(front) + [] == Teardown.SentOutcomes(front);
      }
    }
  }

  lemma {:induction false} NoOutcomeInAudio(wire: seq<Incoming>)
    requires forall i :: 0 <= i < |wire| ==> wire[i].AudioEvent?
    ensures Teardown.OutcomesIn(wire) == []
  {
    if wire != [] { NoOutcomeInAudio(wire[1..]); }
  }

  /** The first part of audio followed by one outcome: no outcome until all of it has come. */
  lemma OutcomeComesLast(audio: seq<Incoming>, word: string, wire: seq<Incoming>)
    requires forall i :: 0 <= i < |audio| ==> audio[i].AudioEvent?
    requires wire <= audio + [Teardown.OutcomeEvent(word)]
    ensures Teardown.OutcomesIn(wire) == if |wire| > |audio| then [word] else []
  {
    if |wire| > |audio| {
      assert wire == audio + [Teardown.OutcomeEvent(word)];
      NoOutcomeInAudio(audio);
      Teardown.OutcomesInAppend(audio, Teardown.OutcomeEvent(word));
    } else {
      assert wire == audio[..|wire|];
      NoOutcomeInAudio(wire);
    }
  }

  /**
   * In any interleaving on either side, the gateway is sent at most one
   * outcome, the engine's own and never an empty one, and only after the
   * audio of every dispatched utterance.
   */
  lemma EngineReportsOnce(engine: seq<EngineProtocol.Engine>, steps: seq<EngineProtocol.Event>, n: nat,
                          events: seq<Teardown.Event>)
    returns (outcome: EngineProtocol.Outcome)
    requires EngineProtocol.IsRun(engine, steps) && n < |engine|
    requires Received(events) <= AllOnWire(engine[n].stream)
    ensures Teardown.SentOutcomes(events) <= [Word(outcome)]
    ensures Teardown.SentOutcomes(events) != [] ==>
      && engine[n].stream == EngineProtocol.AllAudio(engine[n].answers) + [EngineProtocol.CallOutcome(outcome)]
      && |engine[n].answers| == engine[n].dispatched && EngineProtocol.InDispatchOrder(engine[n].answers)
      && |EngineProtocol.Words(steps[..n])| == 1
      && EngineProtocol.Verdict(engine[n].answers, EngineProtocol.Words(steps[..n])[0], outcome)
    ensures engine[n].closed && Received(events) == AllOnWire(engine[n].stream) ==>
      Teardown.SentOutcomes(events) == [Word(outcome)]
  {
    outcome := EngineProtocol.OutputProtocol(engine, steps, n);
    var g := engine[n];
    var audio := EngineProtocol.AllAudio(g.answers);
    EngineProtocol.AudioHasNoShutdown(g.answers);
    var all := audio + [EngineProtocol.CallOutcome(outcome)];
    assert AllOnWire(all) == AllOnWire(audio) + [Teardown.OutcomeEvent(Word(outcome))];
    assert AllOnWire(g.stream) <= AllOnWire(all);
    OutcomeComesLast(AllOnWire(audio), Word(outcome), Received(events));
    SentAreReceived(events);
    if |g.stream| > |audio| { assert g.stream == all; }
  }

  /** What a call should be reported as, from its answers and the classifier's word. */
  ghost function ProperReport(answers: seq<EngineProtocol.Answer>, word: string): string
  {
    if (exists i :: 0 <= i < |answers| && EngineProtocol.Remembered(answers[i].reply))
       && (word == "AGREED" || word == "PROMISED" || word == "REFUSED")
    then word
    else "UNCLEAR"
  }

  /**
   * End to end: with no half-close error and no timeout, if the pump
   * processed an outcome at all, as it has once it read all of a closed
   * stream, the gateway reports the word of the classifier, which ran once,
   * after every dispatched utterance was answered in order; UNCLEAR stands
   * for any other word and for a call with no complete exchange. If it
   * processed none, it reports UNCLEAR.
   */
  lemma VerdictIsReported(engine: seq<EngineProtocol.Engine>, steps: seq<EngineProtocol.Event>, n: nat,
                          calls: seq<Teardown.Call>, events: seq<Teardown.Event>, k: nat)
    requires EngineProtocol.IsRun(engine, steps) && n < |engine|
    requires Teardown.IsRun(calls, events) && k < |calls| && Received(events[..k]) <= AllOnWire(engine[n].stream)
    requires calls[k].main.pc.Reported? && Teardown.Unhurried(calls[k])
    ensures var processed, g, words := calls[k].pump.processed, engine[n], EngineProtocol.Words(steps[..n]);
      if processed == [] then
        calls[k].main.value == Some("UNCLEAR")
      else
        && |words| == 1 && calls[k].main.value == Some(ProperReport(g.answers, words[0]))
        && processed == [ProperReport(g.answers, words[0])]
        && |g.answers| == g.dispatched && EngineProtocol.InDispatchOrder(g.answers)
    ensures engine[n].closed && Received(events[..k]) == AllOnWire(engine[n].stream) && calls[k].pump.incoming == []
      ==> calls[k].pump.processed != []
  {
    var outcome := EngineReportsOnce(engine, steps, n, events[..k]);
    Teardown.OutcomesInOrder(calls, events, k);
    Teardown.SingleOutcomeIsDelivered(calls, events, k);
    Teardown.RunInv(calls, events, k);
    Teardown.DrainedMeansDone(calls, events, k);
    if calls[k].pump.processed != [] {
    }
  }
}
