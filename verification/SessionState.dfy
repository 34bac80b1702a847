/** The gateway session's lifecycle, shared by its read pump and the idle timer's callbacks. */
module SessionState {
  datatype State = CREATED | CONNECTING | ACTIVE | PROCESSING | RESPONDING | TERMINATED

  function ValidTransitions(s: State): seq<State>
  {
    match s
    case CREATED => [CONNECTING]
    case CONNECTING => [ACTIVE]
    case ACTIVE => [PROCESSING, RESPONDING, TERMINATED]
    case PROCESSING => [RESPONDING, TERMINATED]
    case RESPONDING => [ACTIVE, TERMINATED]
    case TERMINATED => []
  }

  /** The lifecycle: set up, then turns of speech until the end. */
  ghost predicate Legal(s: State, next: State)
  {
    || (s == CREATED && next == CONNECTING)
    || (s == CONNECTING && next == ACTIVE)
    || (s == ACTIVE && (next == PROCESSING || next == RESPONDING))
    || (s == PROCESSING && next == RESPONDING)
    || (s == RESPONDING && next == ACTIVE)
    || ((s == ACTIVE || s == PROCESSING || s == RESPONDING) && next == TERMINATED)
  }

  /** The state after asking for `next`: an illegal request is refused and changes nothing. */
  function Moved(s: State, next: State): State
  {
    if next in ValidTransitions(s) then next else s
  }

  class Session {
    var state: State

    constructor ()
      ensures state == CREATED
    {
      state := CREATED;
    }

    method TransitionTo(next: State) returns (ok: bool)
      modifies this
      ensures ok == (next in ValidTransitions(old(state))) && state == Moved(old(state), next)
      ensures ok <==> Legal(old(state), next)
      ensures state == if ok then next else old(state)
    {
      ok := next in ValidTransitions(state);
      if ok {
        state := next;
      }
    }

    /** A stream can be attached once, to a session just created. */
    method Attach() returns (ok: bool)
      modifies this
      ensures ok == (old(state) == CREATED)
      ensures state == if ok then ACTIVE else old(state)
    {
      ok := TransitionTo(CONNECTING);
      if !ok { return; }
      ok := TransitionTo(ACTIVE);
    }
  }

  // ---------- the pump and the timer, interleaved ----------

  /** `Ending` is past the last event, before the deferred stop of the timer. */
  datatype PumpPc = Receiving | SawOther | Arming | Ending | Over

  /**
   * `callbacks` are timer callbacks that have started, `checked` those that
   * have read RESPONDING and not yet asked for ACTIVE: a timer reset while
   * one runs starts another beside it.
   */
  datatype Shared = Shared(
    state: State,
    pump: PumpPc,
    armed: bool,
    callbacks: nat,
    checked: nat,
    sawEof: bool,
    refusedPump: nat,
    refusedTimer: nat)

  datatype Event =
    | AudioArrives
    | PumpResponds
    | PumpArms
    | PumpSeesEof
    | PumpFails
    | PumpStopsTimer
    | TimerFires
    | CallbackChecks
    | CallbackActs

  const ATTACHED := Shared(ACTIVE, Receiving, false, 0, 0, false, 0, 0)

  predicate Enabled(s: Shared, e: Event)
  {
    match e
    case AudioArrives => s.pump.Receiving?
    case PumpResponds => s.pump.SawOther?
    case PumpArms => s.pump.Arming?
    case PumpSeesEof => s.pump.Receiving?
    case PumpFails => s.pump.Receiving?
    case PumpStopsTimer => s.pump.Ending?
    case TimerFires => s.armed
    case CallbackChecks => s.callbacks > 0
    case CallbackActs => s.checked > 0
  }

  function Refused(s: State, next: State): nat
  {
    if next in ValidTransitions(s) then 0 else 1
  }

  function Apply(s: Shared, e: Event): Shared
    requires Enabled(s, e)
  {
    match e
    case AudioArrives => s.(pump := if s.state.RESPONDING? then Arming else SawOther)
    case PumpResponds =>
      s.(pump := Arming, state := Moved(s.state, RESPONDING),
         refusedPump := s.refusedPump + Refused(s.state, RESPONDING))
    case PumpArms => s.(pump := Receiving, armed := true)
    case PumpSeesEof =>
      s.(pump := Ending, sawEof := true, state := Moved(s.state, TERMINATED),
         refusedPump := s.refusedPump + Refused(s.state, TERMINATED))
    case PumpFails => s.(pump := Ending)
    case PumpStopsTimer => s.(pump := Over, armed := false)
    case TimerFires => s.(armed := false, callbacks := s.callbacks + 1)
    case CallbackChecks =>
      s.(callbacks := s.callbacks - 1, checked := s.checked + (if s.state.RESPONDING? then 1 else 0))
    case CallbackActs =>
      s.(checked := s.checked - 1, state := Moved(s.state, ACTIVE),
         refusedTimer := s.refusedTimer + Refused(s.state, ACTIVE))
  }

  ghost predicate IsRun(states: seq<Shared>, events: seq<Event>)
  {
    && |states| == |events| + 1 && states[0] == ATTACHED
    && forall k {:trigger events[k]} :: 0 <= k < |events| ==>
         Enabled(states[k], events[k]) && states[k + 1] == Apply(states[k], events[k])
  }

  ghost predicate Inv(s: Shared)
  {
    && (s.state.ACTIVE? || s.state.RESPONDING? || s.state.TERMINATED?)
    && (s.state.TERMINATED? <==> s.sawEof) && (s.sawEof ==> s.pump.Ending? || s.pump.Over?)
    && (s.pump.SawOther? ==> s.state.ACTIVE?)
    && s.refusedPump == 0
  }

  /**
   * In every interleaving with the timer the pump's own requests are always
   * legal, and the session is terminated exactly when the engine closed its
   * stream in order; a receive error leaves it as it was.
   */
  lemma {:induction false} PumpIsNeverRefused(states: seq<Shared>, events: seq<Event>, k: nat)
    requires IsRun(states, events) && k < |states|
    ensures Inv(states[k])
  {
    if k > 0 {
      PumpIsNeverRefused(states, events, k - 1);
      assert Enabled(states[k - 1], events[k - 1]);
    }
  }

  /** A late callback never brings a terminated session back. */
  lemma {:induction false} TerminatedStays(states: seq<Shared>, events: seq<Event>, i: nat, j: nat)
    requires IsRun(states, events) && i <= j < |states| && states[i].state.TERMINATED?
    ensures states[j].state.TERMINATED?
  {
    if i < j {
      TerminatedStays(states, events, i, j - 1);
      PumpIsNeverRefused(states, events, j - 1);
      assert Enabled(states[j - 1], events[j - 1]);
    }
  }

  // ---------- when a callback is refused ----------

  /** The engine's end of stream was seen after event i and before event k. */
  ghost predicate EofBetween(events: seq<Event>, i: nat, k: nat)
    requires k <= |events|
  {
    exists m :: i < m < k && events[m].PumpSeesEof?
  }

  /** A callback acted after event i, and nothing brought RESPONDING back before event k. */
  ghost predicate ActedBetween(events: seq<Event>, i: nat, k: nat)
    requires k <= |events|
  {
    exists m :: i < m < k && events[m].CallbackActs? && NoReturn(events, m, k)
  }

  ghost predicate NoReturn(events: seq<Event>, m: nat, k: nat)
    requires k <= |events|
  {
    forall n :: m < n < k ==> !events[n].PumpResponds?
  }

  lemma BetweenStep(events: seq<Event>, i: nat, k: nat)
    requires i < k < |events|
    ensures EofBetween(events, i, k + 1) <==> EofBetween(events, i, k) || events[k].PumpSeesEof?
    ensures ActedBetween(events, i, k + 1)
      <==> events[k].CallbackActs? || (ActedBetween(events, i, k) && !events[k].PumpResponds?)
  {
    assert NoReturn(events, k, k + 1);
    if ActedBetween(events, i, k) && !events[k].PumpResponds? {
      var m :| i < m < k && events[m].CallbackActs? && NoReturn(events, m, k);
      assert NoReturn(events, m, k + 1);
    }
    if ActedBetween(events, i, k + 1) && !events[k].CallbackActs? {
      var m :| i < m < k + 1 && events[m].CallbackActs? && NoReturn(events, m, k + 1);
      assert NoReturn(events, m, k);
    }
  }

  /** From a check that read RESPONDING on, only those two things take RESPONDING away. */
  lemma {:induction false} RespondingSince(states: seq<Shared>, events: seq<Event>, i: nat, k: nat)
    requires IsRun(states, events) && i < k <= |events|
    requires events[i].CallbackChecks? && states[i].state.RESPONDING?
    ensures states[k].state.RESPONDING? <==> !EofBetween(events, i, k) && !ActedBetween(events, i, k)
    ensures states[k].sawEof <==> EofBetween(events, i, k)
  {
    var j := k - 1;
    assert Enabled(states[j], events[j]);
    PumpIsNeverRefused(states, events, j);
    PumpIsNeverRefused(states, events, k);
    if j > i {
      RespondingSince(states, events, i, j);
      BetweenStep(events, i, j);
    }
  }

  /**
   * A callback's request is refused exactly when, since its check, the
   * engine's end of stream was seen or another callback acted without a
   * return to RESPONDING. It does not matter which earlier check was its own.
   */
  lemma RefusedExactly(states: seq<Shared>, events: seq<Event>, i: nat, k: nat)
    requires IsRun(states, events) && i < k < |events|
    requires events[i].CallbackChecks? && states[i].state.RESPONDING? && events[k].CallbackActs?
    ensures states[k + 1].refusedTimer == states[k].refusedTimer
      + (if EofBetween(events, i, k) || ActedBetween(events, i, k) then 1 else 0)
  {
    RespondingSince(states, events, i, k);
    PumpIsNeverRefused(states, events, k);
    assert Enabled(states[k], events[k]);
  }

  /** Every callback that acts has a check behind it. */
  lemma {:induction false} CheckedBefore(states: seq<Shared>, events: seq<Event>, k: nat) returns (i: nat)
    requires IsRun(states, events) && k < |states| && states[k].checked > 0
    ensures i < k && events[i].CallbackChecks? && states[i].state.RESPONDING?
  {
    assert Enabled(states[k - 1], events[k - 1]);
    if events[k - 1].CallbackChecks? && states[k - 1].state.RESPONDING? {
      i := k - 1;
    } else {
      i := CheckedBefore(states, events, k - 1);
    }
  }

  /** No callback among the first n events acts on a check that has gone stale. */
  ghost predicate NoStaleAct(states: seq<Shared>, events: seq<Event>, n: nat)
    requires n <= |events| < |states|
  {
    forall i, k :: 0 <= i < k < n && events[i].CallbackChecks? && states[i].state.RESPONDING? && events[k].CallbackActs?
      ==> !EofBetween(events, i, k) && !ActedBetween(events, i, k)
  }

  /** The timer is never refused exactly in the runs without a stale act. */
  lemma {:induction false} NeverRefusedExactly(states: seq<Shared>, events: seq<Event>, n: nat)
    requires IsRun(states, events) && n <= |events|
    ensures states[n].refusedTimer == 0 <==> NoStaleAct(states, events, n)
  {
    if n > 0 {
      var k := n - 1;
      NeverRefusedExactly(states, events, k);
      assert Enabled(states[k], events[k]);
      if events[k].CallbackActs? {
        var i := CheckedBefore(states, events, k);
        RefusedExactly(states, events, i, k);
        forall j | 0 <= j < k && events[j].CallbackChecks? && states[j].state.RESPONDING?
          ensures EofBetween(events, j, k) || ActedBetween(events, j, k)
            <==> states[n].refusedTimer > states[k].refusedTimer
        {
          RefusedExactly(states, events, j, k);
        }
      }
    }
  }

  /** Some run ends in `s`. */
  ghost predicate Reachable(s: Shared)
  {
    exists states, events :: IsRun(states, events) && states[|events|] == s
  }

  lemma Then(s: Shared, e: Event)
    requires Reachable(s) && Enabled(s, e)
    ensures Reachable(Apply(s, e))
  {
    var states, events :| IsRun(states, events) && states[|events|] == s;
    var states', events' := states + [Apply(s, e)], events + [e];
    assert IsRun(states', events') && states'[|events'|] == Apply(s, e);
  }

  /** A callback has read RESPONDING and stalls; the pump is receiving again. */
  lemma OneCallbackStalls()
    ensures Reachable(Shared(RESPONDING, Receiving, false, 0, 1, false, 0, 0))
  {
    var start: seq<Shared> := [ATTACHED];
    assert IsRun(start, []) && start[|start| - 1] == ATTACHED;
    var s1 := Apply(ATTACHED, AudioArrives);
    Then(ATTACHED, AudioArrives);
    var s2 := Apply(s1, PumpResponds);
    Then(s1, PumpResponds);
    var s3 := Apply(s2, PumpArms);
    Then(s2, PumpArms);
    var s4 := Apply(s3, TimerFires);
    Then(s3, TimerFires);
    Then(s4, CallbackChecks);
  }

  /** New audio resets the timer, and a second callback reads RESPONDING beside the first. */
  lemma TwoCallbacksStall()
    ensures Reachable(Shared(RESPONDING, Receiving, false, 0, 2, false, 0, 0))
  {
    OneCallbackStalls();
    var s0 := Shared(RESPONDING, Receiving, false, 0, 1, false, 0, 0);
    var s1 := Apply(s0, AudioArrives);
    Then(s0, AudioArrives);
    var s2 := Apply(s1, PumpArms);
    Then(s1, PumpArms);
    var s3 := Apply(s2, TimerFires);
    Then(s2, TimerFires);
    Then(s3, CallbackChecks);
  }

  /** The first of the two is granted, the second refused. */
  lemma TwoActs()
    ensures var s0 := Shared(RESPONDING, Receiving, false, 0, 2, false, 0, 0);
      Apply(s0, CallbackActs) == Shared(ACTIVE, Receiving, false, 0, 1, false, 0, 0)
    ensures var s1 := Shared(ACTIVE, Receiving, false, 0, 1, false, 0, 0);
      Apply(s1, CallbackActs) == Shared(ACTIVE, Receiving, false, 0, 0, false, 0, 1)
  {
    assert Moved(RESPONDING, ACTIVE) == ACTIVE && Moved(ACTIVE, ACTIVE) == ACTIVE;
    assert Refused(RESPONDING, ACTIVE) == 0 && Refused(ACTIVE, ACTIVE) == 1;
  }

  /** The check before a callback's request does not protect it: the second of the two is refused. */
  lemma CallbacksCollide()
    ensures Reachable(Shared(ACTIVE, Receiving, false, 0, 0, false, 0, 1))
  {
    TwoCallbacksStall();
    TwoActs();
    Then(Shared(RESPONDING, Receiving, false, 0, 2, false, 0, 0), CallbackActs);
    Then(Shared(ACTIVE, Receiving, false, 0, 1, false, 0, 0), CallbackActs);
  }
}
