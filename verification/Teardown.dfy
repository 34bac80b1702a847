/**
 * The end of a call in the gateway: the inbound relay, the session's read
 * pump, the outbound drain and the main goroutine, in any interleaving.
 */
module Teardown {
  import opened Basics

  const FALLBACK := "UNCLEAR"
  const AUDIO_CAPACITY: nat := 100

  datatype RelayPc = RelayRecv | RelaySending | RelayPublishing | RelayExited

  /** What the engine may send; other payloads are ignored by the pump. */
  datatype Incoming = OutcomeEvent(outcome: string) | AudioEvent | OtherEvent

  datatype PumpPc =
    | PumpRecv
    | PumpStoring(outcome: string)   // setOutcome, before the mutex
    | PumpStored                     // outcome written, OutcomeChan not yet closed
    | PumpPushing                    // blocked on AgentAudioChan
    | PumpEnding                     // deferred signalDone
    | PumpSignalled                  // deferred close(AgentAudioChan)
    | PumpExited

  datatype DrainPc = DrainRecv | DrainSending | DrainExited

  datatype MainPc =
    | Selecting
    | Collecting(relayExited: bool)  // collectOutcome's first read
    | HalfClosing                    // CloseSend in progress
    | Awaiting                       // outcome, done or timeout
    | Reading
    | Cancelling
    | AwaitingDrain
    | Reported

  /** The relay, and whether its one message is waiting in the inboundErr buffer. */
  datatype Relay = Relay(pc: RelayPc, published: bool)

  /**
   * The read pump, the engine's stream it reads, and the session fields it
   * writes; `processed` lists every value ever stored in `outcome`, and
   * `outcomeCloses` counts the closes of OutcomeChan.
   */
  datatype Pump = Pump(
    pc: PumpPc,
    incoming: seq<Incoming>,
    engineEnded: bool,
    outcome: string,
    processed: seq<string>,
    outcomeClosed: bool,
    outcomeCloses: nat,
    doneClosed: bool)

  /** AgentAudioChan and the goroutine that empties it. */
  datatype Line = Line(audio: nat, closed: bool, drain: DrainPc, sendFailed: bool)

  /** The main goroutine; `seen` is `processed` at the moment `value` was decided. */
  datatype Main = Main(
    pc: MainPc,
    halfCloseStarted: bool,
    halfCloseFailed: bool,
    timedOut: bool,
    cancelled: bool,
    seen: seq<string>,
    value: Option<string>)

  datatype Call = Call(relay: Relay, pump: Pump, line: Line, main: Main)

  datatype EngineStep = EngineSends(sent: Incoming) | EngineEnds

  datatype RelayStep = GetsAudio | GetsOther | GetsEnd | SendReturns(sendOk: bool) | Publishes

  datatype PumpStep =
    | Receives | SeesEof | RecvFails | Stores | ClosesOutcome | Pushes | SignalsDone | ClosesAudio

  datatype DrainStep = Takes | CallerSendReturns(callerOk: bool) | Ends

  datatype MainStep =
    | SelectDone | SelectInbound | Collect | HalfCloseReturns(closeOk: bool)
    | WakeOutcome | WakeDone | WakeTimeout | Read | Cancel | Finish

  datatype Event =
    | ByEngine(engine: EngineStep)
    | ByRelay(relay: RelayStep)
    | ByPump(pump: PumpStep)
    | ByDrain(drain: DrainStep)
    | ByMain(main: MainStep)

  const START := Call(
    Relay(RelayRecv, false),
    Pump(PumpRecv, [], false, "", [], false, 0, false),
    Line(0, false, DrainRecv, false),
    Main(Selecting, false, false, false, false, [], None))

  predicate RelayEnabled(s: Call, e: RelayStep)
  {
    match e
    case SendReturns(_) => s.relay.pc.RelaySending?
    case Publishes => s.relay.pc.RelayPublishing?
    case _ => s.relay.pc.RelayRecv?
  }

  predicate PumpEnabled(s: Call, e: PumpStep)
  {
    match e
    case Receives => s.pump.pc.PumpRecv? && s.pump.incoming != []
    case SeesEof => s.pump.pc.PumpRecv? && s.pump.incoming == [] && s.pump.engineEnded
    case RecvFails => s.pump.pc.PumpRecv?
    case Stores => s.pump.pc.PumpStoring?
    case ClosesOutcome => s.pump.pc.PumpStored?
    case Pushes => s.pump.pc.PumpPushing? && s.line.audio < AUDIO_CAPACITY
    case SignalsDone => s.pump.pc.PumpEnding?
    case ClosesAudio => s.pump.pc.PumpSignalled?
  }

  predicate DrainEnabled(s: Call, e: DrainStep)
  {
    match e
    case Takes => s.line.drain.DrainRecv? && s.line.audio > 0
    case CallerSendReturns(_) => s.line.drain.DrainSending?
    case Ends => s.line.drain.DrainRecv? && s.line.audio == 0 && s.line.closed
  }

  predicate MainEnabled(s: Call, e: MainStep)
  {
    match e
    case SelectDone => s.main.pc.Selecting? && s.pump.doneClosed
    case SelectInbound => s.main.pc.Selecting? && s.relay.published
    case Collect => s.main.pc.Collecting?
    case HalfCloseReturns(_) => s.main.pc.HalfClosing?
    case WakeOutcome => s.main.pc.Awaiting? && s.pump.outcomeClosed
    case WakeDone => s.main.pc.Awaiting? && s.pump.doneClosed
    case WakeTimeout => s.main.pc.Awaiting?
    case Read => s.main.pc.Reading?
    case Cancel => s.main.pc.Cancelling?
    case Finish => s.main.pc.AwaitingDrain? && s.line.drain.DrainExited?
  }

  predicate Enabled(s: Call, e: Event)
  {
    match e
    case ByEngine(_) => !s.pump.engineEnded && !s.main.cancelled
    case ByRelay(r) => RelayEnabled(s, r)
    case ByPump(p) => PumpEnabled(s, p)
    case ByDrain(d) => DrainEnabled(s, d)
    case ByMain(m) => MainEnabled(s, m)
  }

  function EngineApply(s: Call, e: EngineStep): Call
  {
    match e
    case EngineSends(sent) => s.(pump := s.pump.(incoming := s.pump.incoming + [sent]))
    case EngineEnds => s.(pump := s.pump.(engineEnded := true))
  }

  function RelayApply(s: Call, e: RelayStep): Call
    requires RelayEnabled(s, e)
  {
    match e
    case GetsAudio => s.(relay := s.relay.(pc := RelaySending))
    case GetsOther => s
    case GetsEnd => s.(relay := s.relay.(pc := RelayPublishing))
    case SendReturns(ok) => s.(relay := s.relay.(pc := if ok then RelayRecv else RelayPublishing))
    case Publishes => s.(relay := Relay(RelayExited, true))
  }

  function PumpApply(s: Call, e: PumpStep): Call
    requires PumpEnabled(s, e)
  {
    var p := s.pump;
    match e
    case Receives =>
      var pc := match p.incoming[0]
        case OutcomeEvent(outcome) => PumpStoring(outcome)
        case AudioEvent => PumpPushing
        case OtherEvent => PumpRecv;
      s.(pump := p.(incoming := p.incoming[1..], pc := pc))
    case SeesEof => s.(pump := p.(pc := PumpEnding))
    case RecvFails => s.(pump := p.(pc := PumpEnding))
    case Stores =>
      s.(pump := p.(outcome := p.pc.outcome, processed := p.processed + [p.pc.outcome], pc := PumpStored))
    case ClosesOutcome =>
      // outcomeOnce: only the first call closes the channel
      s.(pump := p.(outcomeClosed := true, pc := PumpRecv,
                    outcomeCloses := if p.outcomeClosed then p.outcomeCloses else p.outcomeCloses + 1))
    case Pushes => s.(line := s.line.(audio := s.line.audio + 1), pump := p.(pc := PumpRecv))
    case SignalsDone => s.(pump := p.(doneClosed := true, pc := PumpSignalled))
    case ClosesAudio => s.(line := s.line.(closed := true), pump := p.(pc := PumpExited))
  }

  function DrainApply(s: Call, e: DrainStep): Call
    requires DrainEnabled(s, e)
  {
    var l := s.line;
    match e
    case Takes => s.(line := l.(audio := l.audio - 1, drain := if l.sendFailed then DrainRecv else DrainSending))
    case CallerSendReturns(ok) => s.(line := l.(drain := DrainRecv, sendFailed := !ok))
    case Ends => s.(line := l.(drain := DrainExited))
  }

  function Decide(s: Call, value: string): Main
  {
    s.main.(value := Some(value), seen := s.pump.processed, pc := Cancelling)
  }

  /** An empty outcome field means none was reported. */
  function OrFallback(outcome: string): string
  {
    if outcome == "" then FALLBACK else outcome
  }

  function MainApply(s: Call, e: MainStep): Call
    requires MainEnabled(s, e)
  {
    match e
    case SelectDone => s.(main := s.main.(pc := Collecting(false)))
    case SelectInbound =>
      s.(relay := s.relay.(published := false), main := s.main.(pc := Collecting(true)))
    case Collect =>
      if s.pump.outcome != "" then s.(main := Decide(s, s.pump.outcome))
      else if !s.main.pc.relayExited then s.(main := Decide(s, FALLBACK))
      else s.(main := s.main.(pc := HalfClosing, halfCloseStarted := true))
    case HalfCloseReturns(ok) =>
      if ok then s.(main := s.main.(pc := Awaiting)) else s.(main := Decide(s, FALLBACK).(halfCloseFailed := true))
    case WakeOutcome => s.(main := s.main.(pc := Reading))
    case WakeDone => s.(main := s.main.(pc := Reading))
    case WakeTimeout => s.(main := s.main.(pc := Reading, timedOut := true))
    case Read => s.(main := Decide(s, OrFallback(s.pump.outcome)))
    case Cancel => s.(main := s.main.(cancelled := true, pc := AwaitingDrain))
    case Finish => s.(main := s.main.(pc := Reported))
  }

  function Apply(s: Call, e: Event): Call
    requires Enabled(s, e)
  {
    match e
    case ByEngine(g) => EngineApply(s, g)
    case ByRelay(r) => RelayApply(s, r)
    case ByPump(p) => PumpApply(s, p)
    case ByDrain(d) => DrainApply(s, d)
    case ByMain(m) => MainApply(s, m)
  }

  ghost predicate IsExecution(states: seq<Call>, events: seq<Event>)
  {
    && |states| == |events| + 1
    && forall k {:trigger events[k]} :: 0 <= k < |events| ==>
         Enabled(states[k], events[k]) && states[k + 1] == Apply(states[k], events[k])
  }

  ghost predicate IsRun(states: seq<Call>, events: seq<Event>)
  {
    IsExecution(states, events) && states[0] == START
  }

  // ---------- invariants ----------

  /** The relay's message exists, in the buffer or taken by main, only after its last send. */
  ghost predicate RelayOk(s: Call)
  {
    && (s.relay.published ==> s.relay.pc.RelayExited?)
    && (s.main.pc.Collecting? && s.main.pc.relayExited ==> s.relay.pc.RelayExited?)
    && (s.main.halfCloseStarted ==> s.relay.pc.RelayExited?)
    && (s.main.pc.HalfClosing? || s.main.pc.Awaiting? ==> s.main.halfCloseStarted)
  }

  function Latest(processed: seq<string>): string
  {
    if processed == [] then "" else processed[|processed| - 1]
  }

  predicate PumpOver(s: Call)
  {
    s.pump.pc.PumpSignalled? || s.pump.pc.PumpExited?
  }

  ghost predicate PumpOk(s: Call)
  {
    && s.pump.outcome == Latest(s.pump.processed)
    && (s.pump.outcomeClosed || s.pump.pc.PumpStored? ==> s.pump.processed != [])
    && s.pump.outcomeCloses == (if s.pump.outcomeClosed then 1 else 0)
    && (s.pump.doneClosed <==> PumpOver(s))
    && (s.line.closed <==> s.pump.pc.PumpExited?)
    && s.line.audio <= AUDIO_CAPACITY
  }

  ghost predicate Decided(s: Call)
  {
    s.main.pc.Cancelling? || s.main.pc.AwaitingDrain? || s.main.pc.Reported?
  }

  ghost predicate MainOk(s: Call)
  {
    && (Decided(s) <==> s.main.value.Some?)
    && (s.main.cancelled <==> s.main.pc.AwaitingDrain? || s.main.pc.Reported?)
    && (s.main.pc.Reported? ==> s.line.drain.DrainExited?)
    && (s.main.pc.Collecting? && !s.main.pc.relayExited ==> s.pump.doneClosed)
    && (s.main.pc.Reading? && !s.main.timedOut ==> s.pump.processed != [] || s.pump.doneClosed)
    && (s.main.halfCloseFailed || s.main.timedOut ==> s.main.pc.Reading? || Decided(s))
    && (s.main.halfCloseFailed ==> Decided(s) && s.main.value == Some(FALLBACK) && !s.main.timedOut)
    && (Decided(s) ==>
          && s.main.seen <= s.pump.processed
          && (!s.main.halfCloseFailed ==> s.main.value == Some(OrFallback(Latest(s.main.seen))))
          && (!s.main.halfCloseFailed && !s.main.timedOut && s.main.seen == [] ==>
                s.pump.processed == [] && s.pump.doneClosed))
  }

  ghost predicate Inv(s: Call)
  {
    RelayOk(s) && PumpOk(s) && MainOk(s)
  }

  lemma InvStep(s: Call, e: Event)
    requires Inv(s) && Enabled(s, e)
    ensures Inv(Apply(s, e))
  {
    match e
    case ByPump(p) => PumpInv(s, p);
    case ByMain(m) => MainInv(s, m);
    case _ =>
  }

  lemma PumpInv(s: Call, e: PumpStep)
    requires Inv(s) && PumpEnabled(s, e)
    ensures Inv(PumpApply(s, e))
  {
    if e.Stores? {
      assert s.pump.processed <= PumpApply(s, e).pump.processed;
    }
  }

  lemma MainInv(s: Call, e: MainStep)
    requires Inv(s) && MainEnabled(s, e)
    ensures Inv(MainApply(s, e))
  {
  }

  lemma {:induction false} RunInv(states: seq<Call>, events: seq<Event>, k: nat)
    requires IsRun(states, events) && k < |states|
    ensures Inv(states[k])
  {
    if k > 0 {
      RunInv(states, events, k - 1);
      InvStep(states[k - 1], events[k - 1]);
    }
  }

  // ---------- half-close safety ----------

  /** The relay starts or finishes a SendAudio. */
  predicate SendsAudio(e: Event)
  {
    e.ByRelay? && (e.relay.GetsAudio? || e.relay.SendReturns?)
  }

  /** While CloseSend runs, and ever after, the relay has exited: no SendAudio is in flight or still to come. */
  lemma HalfCloseIsSafe(states: seq<Call>, events: seq<Event>, i: nat, j: nat)
    requires IsRun(states, events) && i <= j < |states| && states[i].main.pc.HalfClosing?
    ensures !states[j].relay.pc.RelaySending?
    ensures forall k :: i <= k < j ==> !SendsAudio(events[k])
    decreases j
  {
    RunInv(states, events, i);
    HalfCloseStays(states, events, i, j);
    RunInv(states, events, j);
    forall k | i <= k < j ensures !SendsAudio(events[k]) {
      HalfCloseStays(states, events, i, k);
      RunInv(states, events, k);
      assert Enabled(states[k], events[k]);
    }
  }

  lemma {:induction false} HalfCloseStays(states: seq<Call>, events: seq<Event>, i: nat, j: nat)
    requires IsRun(states, events) && i <= j < |states| && states[i].main.halfCloseStarted
    ensures states[j].main.halfCloseStarted
  {
    if i < j {
      HalfCloseStays(states, events, i, j - 1);
      assert Enabled(states[j - 1], events[j - 1]);
    }
  }

  /** No goroutine sends on or closes a closed channel; OutcomeChan is closed once however many outcomes arrive. */
  lemma NoUseAfterClose(states: seq<Call>, events: seq<Event>, k: nat)
    requires IsRun(states, events) && k < |events|
    ensures events[k] == ByPump(Pushes) || events[k] == ByPump(ClosesAudio) ==> !states[k].line.closed
    ensures events[k] == ByPump(SignalsDone) ==> !states[k].pump.doneClosed
    ensures states[k + 1].pump.outcomeCloses <= 1
    ensures states[k + 1].pump.outcomeCloses > states[k].pump.outcomeCloses ==>
      events[k] == ByPump(ClosesOutcome) && !states[k].pump.outcomeClosed
  {
    RunInv(states, events, k);
    RunInv(states, events, k + 1);
    assert Enabled(states[k], events[k]);
  }

  // ---------- outcome delivery ----------

  /** The report when main saw these outcomes: the latest, unless there is none or it is empty. */
  ghost function ReportOf(seen: seq<string>): string
  {
    if seen == [] || seen[|seen| - 1] == "" then "UNCLEAR" else seen[|seen| - 1]
  }

  /**
   * What is reported, in every interleaving. With no half-close error and no
   * timeout it is the latest outcome processed when main looked, and main
   * looked after the first one if there ever was one; the half-close error
   * always yields the fallback; and nothing but a processed outcome or the
   * fallback is ever reported.
   */
  lemma OutcomeDelivery(states: seq<Call>, events: seq<Event>, k: nat)
    requires IsRun(states, events) && k < |states| && states[k].main.pc.Reported?
    ensures var s := states[k];
      && s.main.value.Some? && s.pump.doneClosed
      && (s.main.value.value == "UNCLEAR" || s.main.value.value in s.pump.processed)
      && (s.main.halfCloseFailed ==> s.main.value.value == "UNCLEAR")
      && (!s.main.halfCloseFailed ==> s.main.seen <= s.pump.processed && s.main.value.value == ReportOf(s.main.seen))
      && (!s.main.halfCloseFailed && !s.main.timedOut && s.pump.processed != [] ==> s.main.seen != [])
  {
    RunInv(states, events, k);
    DrainedMeansDone(states, events, k);
  }

  /** Every outcome of the list means the same to the caller. */
  predicate Agree(outcomes: seq<string>)
  {
    forall i, j :: 0 <= i < |outcomes| && 0 <= j < |outcomes| ==> OrFallback(outcomes[i]) == OrFallback(outcomes[j])
  }

  /** Main gave up on nothing: it was not timed out and its half-close went through. */
  predicate Unhurried(s: Call)
  {
    !s.main.timedOut && !s.main.halfCloseFailed
  }

  /** Outcomes that agree are delivered, whenever main looks. */
  lemma AgreeingOutcomesAreDelivered(states: seq<Call>, events: seq<Event>, k: nat)
    requires IsRun(states, events) && k < |states| && states[k].main.pc.Reported?
    requires Unhurried(states[k]) && Agree(states[k].pump.processed)
    ensures states[k].main.value == Some(OrFallback(Latest(states[k].pump.processed)))
  {
    OutcomeDelivery(states, events, k);
    var s := states[k];
    if s.pump.processed != [] {
      var i, j := |s.main.seen| - 1, |s.pump.processed| - 1;
      assert s.main.seen[i] == s.pump.processed[i];
      assert OrFallback(s.pump.processed[i]) == OrFallback(s.pump.processed[j]);
    }
  }

  /** The engine reports at most once per call: then that outcome is what is reported. */
  lemma SingleOutcomeIsDelivered(states: seq<Call>, events: seq<Event>, k: nat)
    requires IsRun(states, events) && k < |states| && states[k].main.pc.Reported?
    requires |states[k].pump.processed| <= 1 && Unhurried(states[k])
    ensures states[k].main.value == Some(OrFallback(Latest(states[k].pump.processed)))
  {
    AgreeingOutcomesAreDelivered(states, events, k);
  }

  /** The outcomes the engine sent, in order. */
  ghost function SentOutcomes(events: seq<Event>): seq<string>
  {
    if events == [] then []
    else
      var e := events[|events| - 1];
      SentOutcomes(events[..|events| - 1])
        + (if e.ByEngine? && e.engine.EngineSends? then OutcomesIn([e.engine.sent]) else [])
  }

  ghost function OutcomesIn(incoming: seq<Incoming>): seq<string>
  {
    if incoming == [] then []
    else (if incoming[0].OutcomeEvent? then [incoming[0].outcome] else []) + OutcomesIn(incoming[1..])
  }

  lemma {:induction false} OutcomesInAppend(a: seq<Incoming>, x: Incoming)
    ensures OutcomesIn(a + [x]) == OutcomesIn(a) + OutcomesIn([x])
  {
    if a == [] {
      assert a + [x] == [x];
    } else {
      var head := if a[0].OutcomeEvent? then [a[0].outcome] else [];
      var rest := a[1..];
      assert (a + [x])[0] == a[0] && (a + [x])[1..] == rest + [x];
      OutcomesInAppend(rest, x);
      Associative(head, OutcomesIn(rest), OutcomesIn([x]));
      assert OutcomesIn(a) == head + OutcomesIn(rest);
      assert OutcomesIn(a + [x]) == head + OutcomesIn(rest + [x]);
    }
  }

  /** Stored, being stored, still on the wire. */
  ghost function InTransit(p: Pump): seq<string>
  {
    p.processed + ((if p.pc.PumpStoring? then [p.pc.outcome] else []) + OutcomesIn(p.incoming))
  }

  lemma TransitStep(s: Call, e: Event)
    requires Enabled(s, e)
    ensures InTransit(Apply(s, e).pump) == InTransit(s.pump)
      + (if e.ByEngine? && e.engine.EngineSends? then OutcomesIn([e.engine.sent]) else [])
  {
    if e.ByEngine? && e.engine.EngineSends? {
      OutcomesInAppend(s.pump.incoming, e.engine.sent);
    }
    if e.ByPump? && e.pump.Stores? {
      Associative(s.pump.processed, [s.pump.pc.outcome], OutcomesIn(s.pump.incoming));
    }
  }

  /** Outcomes are processed in the order the engine sent them, none invented, duplicated or overtaken. */
  lemma {:induction false} OutcomesInOrder(states: seq<Call>, events: seq<Event>, k: nat)
    requires IsRun(states, events) && k < |states|
    ensures InTransit(states[k].pump) == SentOutcomes(events[..k])
    ensures states[k].pump.processed <= SentOutcomes(events[..k])
  {
    if k > 0 {
      OutcomesInOrder(states, events, k - 1);
      assert Enabled(states[k - 1], events[k - 1]);
      TransitStep(states[k - 1], events[k - 1]);
      assert events[..k][..k - 1] == events[..k - 1];
    }
  }

  /**
   * An engine that keeps its own protocol sends one outcome. Then the report
   * is that outcome if the pump ever processed it, and UNCLEAR if it did not,
   * unless the half-close failed or the wait timed out.
   */
  lemma EngineOutcomeIsReported(states: seq<Call>, events: seq<Event>, k: nat, sent: string)
    requires IsRun(states, events) && k < |states| && states[k].main.pc.Reported?
    requires SentOutcomes(events[..k]) == [sent] && sent != ""
    requires Unhurried(states[k])
    ensures states[k].main.value == Some(if states[k].pump.processed == [] then "UNCLEAR" else sent)
  {
    OutcomesInOrder(states, events, k);
    SingleOutcomeIsDelivered(states, events, k);
  }

  // ---------- audio is passed on ----------

  ghost function AudioSent(): Event -> nat
  {
    (e: Event) => if e.ByEngine? && e.engine == EngineSends(AudioEvent) then 1 else 0
  }

  ghost function AudioTaken(): Event -> nat
  {
    (e: Event) => if e.ByDrain? && e.drain.Takes? then 1 else 0
  }

  ghost function IsAudio(): Incoming -> nat
  {
    (x: Incoming) => if x.AudioEvent? then 1 else 0
  }

  /** Audio on its way to the caller: still to be read, read and not pushed, or in the channel. */
  ghost function AudioHeld(s: Call): nat
  {
    Sum(s.pump.incoming, IsAudio()) + (if s.pump.pc.PumpPushing? then 1 else 0) + s.line.audio
  }

  lemma EventSum(events: seq<Event>, k: nat, f: Event -> nat)
    requires k < |events|
    ensures Sum(events[..k + 1], f) == Sum(events[..k], f) + f(events[k])
  {
    assert events[..k + 1] == events[..k] + [events[k]];
    SumAppend(events[..k], events[k], f);
  }

  lemma {:induction false} SumHead(s: seq<Incoming>, f: Incoming -> nat)
    requires s != []
    ensures Sum(s, f) == f(s[0]) + Sum(s[1..], f)
  {
    assert s == [s[0]] + s[1..];
    SumConcat([s[0]], s[1..], f);
    assert [s[0]] == [] + [s[0]];
    SumAppend([], s[0], f);
  }

  lemma AudioStep(s: Call, e: Event)
    requires Enabled(s, e) && s.line.audio <= 100
    ensures AudioHeld(Apply(s, e)) + AudioTaken()(e) == AudioHeld(s) + AudioSent()(e)
    ensures Apply(s, e).line.audio <= 100
  {
    if e.ByEngine? && e.engine.EngineSends? { SumAppend(s.pump.incoming, e.engine.sent, IsAudio()); }
    if e.ByPump? && e.pump.Receives? { SumHead(s.pump.incoming, IsAudio()); }
  }

  /**
   * In every interleaving each piece of the engine's audio is taken for the
   * caller once or is still on its way, at most a hundred pieces of it in the
   * channel.
   */
  lemma {:induction false} AudioIsPassedOn(states: seq<Call>, events: seq<Event>, k: nat)
    requires IsRun(states, events) && k < |states|
    ensures Sum(events[..k], AudioTaken()) + AudioHeld(states[k]) == Sum(events[..k], AudioSent())
    ensures states[k].line.audio <= 100
  {
    if k > 0 {
      AudioIsPassedOn(states, events, k - 1);
      assert Enabled(states[k - 1], events[k - 1]);
      AudioStep(states[k - 1], events[k - 1]);
      EventSum(events, k - 1, AudioTaken());
      EventSum(events, k - 1, AudioSent());
    }
  }

  ghost function CallerAudio(): Event -> nat
  {
    (e: Event) => if e.ByRelay? && e.relay.GetsAudio? then 1 else 0
  }

  ghost function SendsReturned(): Event -> nat
  {
    (e: Event) => if e.ByRelay? && e.relay.SendReturns? then 1 else 0
  }

  /** In every interleaving the relay sends each piece of the caller's audio to the engine once, one at a time. */
  lemma {:induction false} CallerIsHeard(states: seq<Call>, events: seq<Event>, k: nat)
    requires IsRun(states, events) && k < |states|
    ensures Sum(events[..k], CallerAudio())
      == Sum(events[..k], SendsReturned()) + (if states[k].relay.pc.RelaySending? then 1 else 0)
  {
    if k > 0 {
      CallerIsHeard(states, events, k - 1);
      assert Enabled(states[k - 1], events[k - 1]);
      EventSum(events, k - 1, CallerAudio());
      EventSum(events, k - 1, SendsReturned());
    }
  }

  /** Among the first k events, the relay met the end of the caller's stream or could not send. */
  ghost predicate RelayEnded(events: seq<Event>, k: nat)
    requires k <= |events|
  {
    exists i :: 0 <= i < k && (events[i] == ByRelay(GetsEnd) || events[i] == ByRelay(SendReturns(false)))
  }

  /** The relay is on its way out from the first of those on, and only then: it neither stops early nor goes on. */
  lemma {:induction false} RelayStopsOnce(states: seq<Call>, events: seq<Event>, k: nat)
    requires IsRun(states, events) && k < |states|
    ensures states[k].relay.pc.RelayPublishing? || states[k].relay.pc.RelayExited? <==> RelayEnded(events, k)
  {
    if k > 0 {
      RelayStopsOnce(states, events, k - 1);
      assert Enabled(states[k - 1], events[k - 1]);
    }
  }

  ghost function CallerSends(): Event -> nat
  {
    (e: Event) => if e.ByDrain? && e.drain.CallerSendReturns? then 1 else 0
  }

  /** Among the first k events, a send to the caller failed. */
  ghost predicate CallerLost(events: seq<Event>, k: nat)
    requires k <= |events|
  {
    exists i :: 0 <= i < k && events[i] == ByDrain(CallerSendReturns(false))
  }

  lemma {:induction false} LostIsRemembered(states: seq<Call>, events: seq<Event>, k: nat)
    requires IsRun(states, events) && k < |states|
    ensures states[k].line.sendFailed <==> CallerLost(events, k)
    ensures CallerLost(events, k) ==> !states[k].line.drain.DrainSending?
  {
    if k > 0 {
      LostIsRemembered(states, events, k - 1);
      assert Enabled(states[k - 1], events[k - 1]);
    }
  }

  ghost function Sending(s: Call): nat
  {
    if s.line.drain.DrainSending? then 1 else 0
  }

  lemma DrainSends(s: Call, e: Event)
    requires Enabled(s, e) && !s.line.sendFailed && !Apply(s, e).line.sendFailed
    ensures AudioTaken()(e) + Sending(s) == CallerSends()(e) + Sending(Apply(s, e))
  {
  }

  /** Until a send to the caller fails, each piece taken is sent; after it, none is. */
  lemma {:induction false} CallerHearsUntilLost(states: seq<Call>, events: seq<Event>, k: nat)
    requires IsRun(states, events) && k < |states|
    ensures CallerLost(events, k) ==> !states[k].line.drain.DrainSending?
    ensures !CallerLost(events, k) ==>
      Sum(events[..k], AudioTaken()) == Sum(events[..k], CallerSends()) + Sending(states[k])
  {
    LostIsRemembered(states, events, k);
    if k > 0 && !CallerLost(events, k) {
      CallerHearsUntilLost(states, events, k - 1);
      LostIsRemembered(states, events, k - 1);
      DrainSends(states[k - 1], events[k - 1]);
      EventSum(events, k - 1, AudioTaken());
      EventSum(events, k - 1, CallerSends());
    }
  }

  /** The drain only finishes after the pump has signalled done and closed its channel. */
  lemma {:induction false} DrainedMeansDone(states: seq<Call>, events: seq<Event>, k: nat)
    requires IsRun(states, events) && k < |states| && states[k].line.drain.DrainExited?
    ensures states[k].line.closed && states[k].pump.doneClosed
  {
    if k > 0 {
      assert Enabled(states[k - 1], events[k - 1]);
      RunInv(states, events, k - 1);
      RunInv(states, events, k);
      if states[k - 1].line.drain.DrainExited? { DrainedMeansDone(states, events, k - 1); }
    }
  }

  // ---------- the drain always finishes ----------

  function PumpRank(p: PumpPc): nat
  {
    match p
    case PumpRecv => 3
    case PumpStoring(_) => 5
    case PumpStored => 4
    case PumpPushing => 6
    case PumpEnding => 2
    case PumpSignalled => 1
    case PumpExited => 0
  }

  /** What the pump and the drain still have to do once nothing more arrives. */
  function DrainWork(s: Call): nat
  {
    6 * |s.pump.incoming| + PumpRank(s.pump.pc) + 2 * s.line.audio
      + (match s.line.drain case DrainRecv => 1 case DrainSending => 2 case DrainExited => 0)
  }

  predicate ByPumpOrDrain(e: Event)
  {
    e.ByPump? || e.ByDrain?
  }

  /** After cancelAgent nothing adds to that work, and each of their steps, failed sends included, lowers it. */
  lemma CancelledOnlyDrains(s: Call, e: Event)
    requires Enabled(s, e) && s.main.cancelled
    ensures Apply(s, e).main.cancelled
    ensures if ByPumpOrDrain(e) then DrainWork(Apply(s, e)) < DrainWork(s) else DrainWork(Apply(s, e)) == DrainWork(s)
  {
    if e.ByPump? { PumpDescends(s, e.pump); }
  }

  lemma PumpDescends(s: Call, e: PumpStep)
    requires PumpEnabled(s, e)
    ensures DrainWork(PumpApply(s, e)) < DrainWork(s)
  {
    if e.Receives? {
      assert |s.pump.incoming[1..]| == |s.pump.incoming| - 1;
    }
  }

  /** Until the drain has exited, the pump or the drain can always take a step. */
  lemma DrainNeverStuck(states: seq<Call>, events: seq<Event>, k: nat) returns (e: Event)
    requires IsRun(states, events) && k < |states| && states[k].main.cancelled && !states[k].line.drain.DrainExited?
    ensures ByPumpOrDrain(e) && Enabled(states[k], e)
  {
    var s := states[k];
    RunInv(states, events, k);
    e := match s.pump.pc
      case PumpRecv => ByPump(RecvFails)
      case PumpStoring(_) => ByPump(Stores)
      case PumpStored => ByPump(ClosesOutcome)
      case PumpEnding => ByPump(SignalsDone)
      case PumpSignalled => ByPump(ClosesAudio)
      case _ =>
        if s.line.drain.DrainSending? then ByDrain(CallerSendReturns(false))
        else if s.line.audio > 0 then ByDrain(Takes)
        else if s.pump.pc.PumpPushing? then ByPump(Pushes)
        else ByDrain(Ends);
  }

  ghost function DrainSteps(events: seq<Event>): nat
  {
    Sum(events, (e: Event) => if ByPumpOrDrain(e) then 1 else 0)
  }

  /** So in any continuation of any run the pump and the drain take at most DrainWork steps more. */
  lemma {:induction false} DrainIsBounded(states: seq<Call>, events: seq<Event>, i: nat, j: nat)
    requires IsRun(states, events) && i <= j < |states| && states[i].main.cancelled
    ensures states[j].main.cancelled && DrainSteps(events[i..j]) + DrainWork(states[j]) <= DrainWork(states[i])
    decreases j
  {
    if i < j {
      DrainIsBounded(states, events, i, j - 1);
      assert Enabled(states[j - 1], events[j - 1]);
      CancelledOnlyDrains(states[j - 1], events[j - 1]);
      assert events[i..j] == events[i..j - 1] + [events[j - 1]];
      SumAppend(events[i..j - 1], events[j - 1], (e: Event) => if ByPumpOrDrain(e) then 1 else 0);
    }
  }

  // ---------- reachable states ----------

  /** Some run ends in `s`. */
  ghost predicate Reachable(s: Call)
  {
    exists states, events :: IsRun(states, events) && states[|events|] == s
  }

  lemma Follow(states: seq<Call>, events: seq<Event>)
    requires IsExecution(states, events) && Reachable(states[0])
    ensures Reachable(states[|events|])
  {
    var before, past :| IsRun(before, past) && before[|past|] == states[0];
    var all, done := before + states[1..], past + events;
    assert IsRun(all, done) && all[|done|] == states[|events|];
  }

  lemma StartReachable()
    ensures Reachable(START)
  {
    var states: seq<Call> := [START];
    assert IsRun(states, []) && states[|states| - 1] == START;
  }
}
