/**
 * Exactly which processed outcomes the gateway is bound to report.
 *
 * Main may look after any of them, so only a list whose entries agree leaves
 * it no choice.
 */
module TeardownDelivery {
  import opened Basics
  import opened Teardown

  lemma Next(s: Call, e: Event)
    requires Reachable(s) && Enabled(s, e)
    ensures Reachable(Apply(s, e))
  {
    var states, events := [s, Apply(s, e)], [e];
    assert IsExecution(states, events);
    Follow(states, events);
  }

  /** The caller has hung up, the half-close went through, and main waits. */
  const WAITING := START.(
    relay := Relay(RelayExited, false),
    main := START.main.(pc := Awaiting, halfCloseStarted := true))

  lemma WaitingReachable()
    ensures Reachable(WAITING)
  {
    StartReachable();
    var s1 := Apply(START, ByRelay(GetsEnd));
    Next(START, ByRelay(GetsEnd));
    var s2 := Apply(s1, ByRelay(Publishes));
    Next(s1, ByRelay(Publishes));
    var s3 := Apply(s2, ByMain(SelectInbound));
    Next(s2, ByMain(SelectInbound));
    var s4 := Apply(s3, ByMain(Collect));
    Next(s3, ByMain(Collect));
    Next(s4, ByMain(HalfCloseReturns(true)));
    assert Apply(s4, ByMain(HalfCloseReturns(true))) == WAITING;
  }

  /** The pump after it has processed one more outcome. */
  function Stored(p: Pump, outcome: string): Pump
  {
    p.(outcome := outcome, processed := p.processed + [outcome], outcomeClosed := true,
       outcomeCloses := if p.outcomeClosed then p.outcomeCloses else p.outcomeCloses + 1)
  }

  function StoredAll(p: Pump, outcomes: seq<string>): (r: Pump)
    ensures r.processed == p.processed + outcomes
    ensures r.pc == p.pc && r.incoming == p.incoming && r.engineEnded == p.engineEnded && r.doneClosed == p.doneClosed
    ensures outcomes != [] ==> r.outcomeClosed && r.outcome == outcomes[|outcomes| - 1]
    ensures outcomes == [] ==> r == p
    decreases |outcomes|
  {
    if outcomes == [] then p else StoredAll(Stored(p, outcomes[0]), outcomes[1..])
  }

  /** The pump is between events and the engine may still send. */
  predicate Listening(s: Call)
  {
    s.pump.pc.PumpRecv? && s.pump.incoming == [] && !s.pump.engineEnded && !s.main.cancelled
  }

  lemma ProcessOne(s: Call, outcome: string)
    requires Reachable(s) && Listening(s)
    ensures Reachable(s.(pump := Stored(s.pump, outcome)))
  {
    var e1 := ByEngine(EngineSends(OutcomeEvent(outcome)));
    var s1 := Apply(s, e1);
    Next(s, e1);
    var s2 := Apply(s1, ByPump(Receives));
    Next(s1, ByPump(Receives));
    var s3 := Apply(s2, ByPump(Stores));
    Next(s2, ByPump(Stores));
    Next(s3, ByPump(ClosesOutcome));
    assert Apply(s3, ByPump(ClosesOutcome)) == s.(pump := Stored(s.pump, outcome));
  }

  lemma {:induction false} ProcessMany(s: Call, outcomes: seq<string>)
    requires Reachable(s) && Listening(s)
    ensures Reachable(s.(pump := StoredAll(s.pump, outcomes)))
    decreases |outcomes|
  {
    if outcomes != [] {
      ProcessOne(s, outcomes[0]);
      ProcessMany(s.(pump := Stored(s.pump, outcomes[0])), outcomes[1..]);
    } else {
      assert s.(pump := StoredAll(s.pump, outcomes)) == s;
    }
  }

  /** With nothing to drain, the pump's three last steps and the drain's. */
  lemma PumpEnds(s: Call) returns (t: Call)
    requires Reachable(s) && s.pump.pc.PumpRecv? && s.line == START.line
    ensures Reachable(t) && t.main == s.main && t.pump.processed == s.pump.processed && t.line.drain.DrainExited?
  {
    var s1 := Apply(s, ByPump(RecvFails));
    Next(s, ByPump(RecvFails));
    var s2 := Apply(s1, ByPump(SignalsDone));
    Next(s1, ByPump(SignalsDone));
    var s3 := Apply(s2, ByPump(ClosesAudio));
    Next(s2, ByPump(ClosesAudio));
    t := Apply(s3, ByDrain(Ends));
    Next(s3, ByDrain(Ends));
  }

  /** From a decision on: cancel, let pump and drain finish, report. */
  lemma WindDown(s: Call) returns (t: Call)
    requires Reachable(s) && Listening(s) && s.main.pc.Cancelling? && s.line == START.line
    ensures Reachable(t) && t.main == s.main.(cancelled := true, pc := Reported)
    ensures t.pump.processed == s.pump.processed
  {
    Next(s, ByMain(Cancel));
    var s1 := PumpEnds(Apply(s, ByMain(Cancel)));
    t := Apply(s1, ByMain(Finish));
    Next(s1, ByMain(Finish));
  }

  /** Main may wake after any of the outcomes and report that one, with no timeout and no half-close error. */
  lemma AnyOutcomeCanBeReported(sent: seq<string>, i: nat) returns (s: Call)
    requires i < |sent|
    ensures Reachable(s) && s.main.pc.Reported? && Unhurried(s)
    ensures s.pump.processed == sent && s.main.value == Some(OrFallback(sent[i]))
  {
    WaitingReachable();
    var early, late := sent[..i + 1], sent[i + 1..];
    ProcessMany(WAITING, early);
    var s1 := WAITING.(pump := StoredAll(WAITING.pump, early));
    var s2 := Apply(s1, ByMain(WakeOutcome));
    Next(s1, ByMain(WakeOutcome));
    var s3 := Apply(s2, ByMain(Read));
    Next(s2, ByMain(Read));
    ProcessMany(s3, late);
    assert [] + early + late == sent;
    s := WindDown(s3.(pump := StoredAll(s3.pump, late)));
  }

  /** In every unhurried run that processes these outcomes the last one is what is reported. */
  ghost predicate AlwaysDelivered(sent: seq<string>)
  {
    forall s :: Reachable(s) && s.main.pc.Reported? && Unhurried(s) && s.pump.processed == sent
      ==> s.main.value == Some(OrFallback(Latest(sent)))
  }

  /**
   * The outcome is bound to be delivered exactly when all processed outcomes
   * agree, an empty one counting as UNCLEAR.
   */
  lemma DeliveryExactly(sent: seq<string>)
    ensures AlwaysDelivered(sent) <==> Agree(sent)
  {
    if Agree(sent) {
      forall s | Reachable(s) && s.main.pc.Reported? && Unhurried(s) && s.pump.processed == sent
        ensures s.main.value == Some(OrFallback(Latest(sent)))
      {
        var states, events :| IsRun(states, events) && states[|events|] == s;
        AgreeingOutcomesAreDelivered(states, events, |events|);
      }
    } else {
      var i, j :| 0 <= i < |sent| && 0 <= j < |sent| && OrFallback(sent[i]) != OrFallback(sent[j]);
      var s := AnyOutcomeCanBeReported(sent, i);
      var t := AnyOutcomeCanBeReported(sent, j);
      assert s.main.value != t.main.value;
    }
  }

  /** An engine that reports an empty outcome first can have a proper one after it go unreported. */
  lemma EmptyOutcomeHidesLaterOne() returns (s: Call)
    ensures !AlwaysDelivered(["", "AGREED"])
    ensures Reachable(s) && s.main.pc.Reported? && Unhurried(s)
    ensures s.pump.processed == ["", "AGREED"] && s.main.value == Some(FALLBACK)
  {
    var sent := ["", "AGREED"];
    assert OrFallback(sent[0]) != OrFallback(sent[1]);
    DeliveryExactly(sent);
    s := AnyOutcomeCanBeReported(sent, 0);
  }
}
