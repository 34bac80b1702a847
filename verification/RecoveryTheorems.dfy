/**
 * The orchestrator's guarantees over whole interleaved runs, from an empty
 * database, with any number of requests in flight and any writes failing.
 */
module RecoveryTheorems {
  import opened Basics
  import opened RecoveryModel
  import opened RecoverySteps
  import opened RecoveryInvariants

  ghost predicate Inv(s: Sys)
  {
    && Shape(s)
    && Unique(s.db)
    && (forall sid: nat :: CaptureBalance(s, sid))
    && (forall sid: nat :: SettledBound(s, sid))
    && (forall sid: nat :: AssignBalance(s, sid))
    && (forall c: nat :: TotalBalance(s, c))
  }

  lemma InvInit(s: Sys)
    requires Init(s)
    ensures Inv(s) && TimersAgree(s.db) && LinksCovered(s)
  {
  }

  lemma InvStep(s: Sys, e: Event)
    requires Inv(s) && Enabled(s, e)
    ensures Inv(Apply(s, e))
  {
    ShapeStep(s, e);
    UniqueStep(s, e);
    forall sid: nat
      ensures CaptureBalance(Apply(s, e), sid) && SettledBound(Apply(s, e), sid) && AssignBalance(Apply(s, e), sid)
    {
      CaptureBalanceStep(s, e, sid);
      SettledBoundStep(s, e, sid);
      AssignBalanceStep(s, e, sid);
    }
    forall c: nat ensures TotalBalance(Apply(s, e), c) {
      TotalBalanceStep(s, e, c);
    }
  }

  lemma {:induction false} RunInv(states: seq<Sys>, events: seq<Event>, k: nat)
    requires IsRun(states, events) && k < |states|
    ensures Inv(states[k])
  {
    if k == 0 {
      InvInit(states[0]);
    } else {
      RunInv(states, events, k - 1);
      InvStep(states[k - 1], events[k - 1]);
    }
  }

  lemma {:induction false} UneditedRunInv(states: seq<Sys>, events: seq<Event>, k: nat)
    requires IsRun(states, events) && Unedited(events) && k < |states|
    ensures TimersAgree(states[k].db) && LinksCovered(states[k])
  {
    if k == 0 {
      InvInit(states[0]);
    } else {
      UneditedRunInv(states, events, k - 1);
      RunInv(states, events, k - 1);
      TimersAgreeStep(states[k - 1], events[k - 1]);
      LinksCoveredStep(states[k - 1], events[k - 1]);
    }
  }

  // ---------- every session stops ----------

  ghost function StatusChanges(states: seq<Sys>, sid: nat, n: nat): nat
    requires n < |states|
  {
    if n == 0 then 0
    else
      StatusChanges(states, sid, n - 1) +
      (if sid < |states[n - 1].db.sessions| && sid < |states[n].db.sessions|
          && states[n - 1].db.sessions[sid].status != states[n].db.sessions[sid].status then 1 else 0)
  }

  ghost function Calls(events: seq<Event>, sid: nat): nat
  {
    Sum(events, (e: Event) => if e.Assign? && e.sid == sid then 1 else 0)
  }

  lemma {:induction false} CallsAreAttempts(states: seq<Sys>, events: seq<Event>, sid: nat, n: nat)
    requires IsRun(states, events) && n < |states|
    ensures Calls(events[..n], sid) ==
      if sid < |states[n].db.sessions| then states[n].db.sessions[sid].attempts else 0
  {
    if n > 0 {
      var s, e := states[n - 1], events[n - 1];
      CallsAreAttempts(states, events, sid, n - 1);
      assert Step(s, e, states[n]);
      assert Inv(s) by { RunInv(states, events, n - 1); }
      assert events[..n] == events[..n - 1] + [e];
      SumAppend(events[..n - 1], e, (e: Event) => if e.Assign? && e.sid == sid then 1 else 0);
      if sid < |s.db.sessions| {
        assert SettledBound(s, sid);
        StatusChangeLowersMeasure(s, e, sid);
      } else if sid < |states[n].db.sessions| {
        NewRowStep(s, e, sid);
      }
    }
  }

  lemma {:induction false} ChangesAreBounded(states: seq<Sys>, events: seq<Event>, sid: nat, n: nat)
    requires IsRun(states, events) && n < |states|
    ensures if sid < |states[n].db.sessions| then
        var x := states[n].db.sessions[sid];
        x.attempts <= x.maxAttempts && StatusChanges(states, sid, n) + Measure(x) <= 4 * x.maxAttempts + 1
      else
        StatusChanges(states, sid, n) == 0
  {
    if n > 0 {
      var s, e := states[n - 1], events[n - 1];
      ChangesAreBounded(states, events, sid, n - 1);
      assert Step(s, e, states[n]);
      assert Shape(s) && SettledBound(s, sid) by { RunInv(states, events, n - 1); }
      if sid < |s.db.sessions| {
        StatusChangeLowersMeasure(s, e, sid);
      } else if sid < |states[n].db.sessions| {
        NewRowStep(s, e, sid);
      }
    }
  }

  /**
   * Under any interleaving and any timer edits, a session is called at most
   * maxAttempts times and changes status at most 4 * maxAttempts + 1 times.
   */
  lemma EverySessionStops(states: seq<Sys>, events: seq<Event>, sid: nat)
    requires IsRun(states, events) && sid < |states[|events|].db.sessions|
    ensures var x := states[|events|].db.sessions[sid];
      && Calls(events, sid) == x.attempts <= x.maxAttempts
      && StatusChanges(states, sid, |events|) <= 4 * x.maxAttempts + 1
  {
    CallsAreAttempts(states, events, sid, |events|);
    ChangesAreBounded(states, events, sid, |events|);
    assert events[..|events|] == events;
  }

  /** Once stopped, stopped at every later point, and never the target of an assignment. */
  lemma {:induction false} StoppedMeansStopped(states: seq<Sys>, events: seq<Event>, sid: nat, i: nat, j: nat)
    requires IsRun(states, events) && i <= j < |states|
    requires sid < |states[i].db.sessions| && Stopped(states[i].db.sessions[sid].status)
    ensures sid < |states[j].db.sessions| && Stopped(states[j].db.sessions[sid].status)
    ensures states[j].db.sessions[sid].attempts == states[i].db.sessions[sid].attempts
    ensures forall k :: i <= k < j ==> !(events[k].Assign? && events[k].sid == sid)
  {
    if i < j {
      var s, e := states[j - 1], events[j - 1];
      StoppedMeansStopped(states, events, sid, i, j - 1);
      assert Shape(s) by { RunInv(states, events, j - 1); }
      assert Enabled(s, e) && states[j] == Apply(s, e);
      StoppedStaysStopped(s, e, sid);
    }
  }

  /** Without timer edits, NULL in the timer column means stopped and nothing else does. */
  lemma NullTimerMeansStopped(states: seq<Sys>, events: seq<Event>, k: nat, sid: nat)
    requires IsRun(states, events) && Unedited(events) && k < |states| && sid < |states[k].db.sessions|
    ensures var x := states[k].db.sessions[sid];
      && (x.timer.None? <==> Stopped(x.status))
      && (StillContactable(x) <==> x.timer.Some? && x.attempts < x.maxAttempts && !x.status.Active?)
  {
    UneditedRunInv(states, events, k);
  }

  /** The same from any database whose timers agree to begin with, such as a migrated one. */
  lemma {:induction false} TimersStayInAgreement(states: seq<Sys>, events: seq<Event>, k: nat)
    requires IsExecution(states, events) && Unedited(events) && k < |states|
    requires Shape(states[0]) && TimersAgree(states[0].db)
    ensures Shape(states[k]) && TimersAgree(states[k].db)
  {
    if k > 0 {
      TimersStayInAgreement(states, events, k - 1);
      assert Step(states[k - 1], events[k - 1], states[k]);
      ShapeStep(states[k - 1], events[k - 1]);
      TimersAgreeStep(states[k - 1], events[k - 1]);
    }
  }

  // ---------- one settled outcome per call ----------

  /** Settled outcomes never outnumber calls, and lag behind while an outcome is still open. */
  lemma OneSettledOutcomePerCall(states: seq<Sys>, events: seq<Event>, k: nat, sid: nat)
    requires IsRun(states, events) && k < |states| && sid < |states[k].db.sessions|
    ensures var x, rows := states[k].db.sessions[sid], SettledRows(states[k].db, sid);
      && rows <= x.attempts <= x.maxAttempts
      && (x.status.Active? || x.status.Unclear? ==> rows < x.attempts)
  {
    RunInv(states, events, k);
    assert SettledBound(states[k], sid);
  }

  // ---------- every call is logged ----------

  /** No task for `sid` lost its session_assigned row to a failed write. */
  ghost predicate NoLostClaim(s: Sys, sid: nat)
  {
    forall i :: 0 <= i < |s.tasks| && !s.tasks[i].live ==> !(s.tasks[i].op.AssignClaimed? && s.tasks[i].op.sid == sid)
  }

  /**
   * What the audit log keeps of a session's calls under any interleaving: it
   * never claims more session_assigned rows than attempts, and claims all of
   * them at rest exactly when none was lost.
   */
  lemma EveryCallIsLogged(states: seq<Sys>, events: seq<Event>, k: nat, sid: nat)
    requires IsRun(states, events) && k < |states| && sid < |states[k].db.sessions|
    ensures AssignedRows(states[k].db, sid) <= states[k].db.sessions[sid].attempts
    ensures var s := states[k]; Quiescent(s) ==>
      (AssignedRows(s.db, sid) == s.db.sessions[sid].attempts <==> NoLostClaim(s, sid))
  {
    var s := states[k];
    RunInv(states, events, k);
    assert AssignBalance(s, sid);
    if Quiescent(s) {
      if NoLostClaim(s, sid) {
        SumZero(s.tasks, ClaimedTask(sid));
      } else {
        var i :| 0 <= i < |s.tasks| && !s.tasks[i].live && s.tasks[i].op.AssignClaimed? && s.tasks[i].op.sid == sid;
        SumAtLeast(s.tasks, i, ClaimedTask(sid));
      }
    }
  }

  // ---------- no call while a link lives ----------

  /** The session being called has no link, or one the provider has already expired. */
  lemma NoCallWhileLinkLives(states: seq<Sys>, events: seq<Event>, k: nat)
    requires IsRun(states, events) && Unedited(events) && k < |events| && events[k].Assign?
    ensures var s, sid := states[k], events[k].sid;
      && sid < |s.db.sessions|
      && (s.db.sessions[sid].link.Some? ==>
            s.db.sessions[sid].link.value < |s.links| && s.links[s.db.sessions[sid].link.value] <= s.now)
  {
    UneditedRunInv(states, events, k);
    assert Enabled(states[k], events[k]);
    assert LinkCovered(states[k], states[k].db.sessions[events[k].sid]);
  }

  // ---------- exactly-once recovery ----------

  /** Event k is a delivery of a payment for `sid` whose UPDATE changed the row. */
  ghost predicate WinningMark(s: Sys, e: Event, sid: nat)
  {
    e.Advance? && e.i < |s.tasks| && s.tasks[e.i].op == CaptureRead(sid) && MarkChanges(s.db, sid)
  }

  ghost function Wins(states: seq<Sys>, events: seq<Event>, sid: nat, n: nat): nat
    requires n <= |events| < |states|
  {
    if n == 0 then 0
    else Wins(states, events, sid, n - 1) + (if WinningMark(states[n - 1], events[n - 1], sid) then 1 else 0)
  }

  lemma {:induction false} WinsAreRecoveries(states: seq<Sys>, events: seq<Event>, sid: nat, n: nat)
    requires IsRun(states, events) && n < |states|
    ensures Wins(states, events, sid, n) == IsRecovered(states[n].db, sid)
  {
    if n > 0 {
      var s, e := states[n - 1], events[n - 1];
      WinsAreRecoveries(states, events, sid, n - 1);
      RunInv(states, events, n - 1);
      if sid < |s.db.sessions| { SessionStep(s, e, sid); }
      else {
        if e.Advance? { assert OpShape(s.tasks[e.i].op, s.db); }
        if sid < |states[n].db.sessions| { NewRowStep(s, e, sid); }
      }
    }
  }

  /** No task for `sid` lost its payment_captured row to a failed write. */
  ghost predicate NoLostCapture(s: Sys, sid: nat)
  {
    forall i :: 0 <= i < |s.tasks| && !s.tasks[i].live ==> s.tasks[i].op != CaptureMarked(sid)
  }

  /**
   * However many deliveries interleave, exactly one UPDATE wins for a
   * recovered session and none for any other; the audit log never claims
   * more recoveries than happened, and claims all of them at rest exactly
   * when no row was lost.
   */
  lemma ExactlyOnceRecovery(states: seq<Sys>, events: seq<Event>, sid: nat, k: nat)
    requires IsRun(states, events) && k < |states|
    ensures Wins(states, events, sid, k) == IsRecovered(states[k].db, sid) <= 1
    ensures CapturedRows(states[k].db, sid) <= IsRecovered(states[k].db, sid)
    ensures var s := states[k]; Quiescent(s) ==>
      (CapturedRows(s.db, sid) == IsRecovered(s.db, sid) <==> NoLostCapture(s, sid))
  {
    var s := states[k];
    WinsAreRecoveries(states, events, sid, k);
    RunInv(states, events, k);
    assert CaptureBalance(s, sid);
    if Quiescent(s) {
      if NoLostCapture(s, sid) {
        SumZero(s.tasks, MarkedTask(sid));
      } else {
        var i :| 0 <= i < |s.tasks| && !s.tasks[i].live && s.tasks[i].op == CaptureMarked(sid);
        SumAtLeast(s.tasks, i, MarkedTask(sid));
      }
    }
  }

  /** A delivery that ran its UPDATE leaves the session recovered, whoever won. */
  lemma DeliveredMeansRecovered(states: seq<Sys>, events: seq<Event>, k: nat, j: nat, sid: nat)
    requires IsRun(states, events) && k < j < |states|
    requires events[k].Advance? && events[k].i < |states[k].tasks|
    requires states[k].tasks[events[k].i].op == CaptureRead(sid)
    ensures IsRecovered(states[j].db, sid) == Wins(states, events, sid, j) == 1
  {
    RunInv(states, events, k);
    assert OpShape(states[k].tasks[events[k].i].op, states[k].db);
    assert IsRecovered(states[k + 1].db, sid) == 1;
    RecoveredStays(states, events, sid, k + 1, j);
    WinsAreRecoveries(states, events, sid, j);
  }

  lemma {:induction false} RecoveredStays(states: seq<Sys>, events: seq<Event>, sid: nat, i: nat, j: nat)
    requires IsRun(states, events) && i <= j < |states| && IsRecovered(states[i].db, sid) == 1
    ensures IsRecovered(states[j].db, sid) == 1
  {
    if i < j {
      RecoveredStays(states, events, sid, i, j - 1);
      RunInv(states, events, j - 1);
      SessionStep(states[j - 1], events[j - 1], sid);
    }
  }

  // ---------- campaign metrics ----------

  ghost function RecoveredIn(c: nat): Session -> nat
  {
    (x: Session) => if x.campaign == c && x.status.Recovered? then 1 else 0
  }

  ghost function PendingIn(c: nat): Session -> nat
  {
    (x: Session) => if x.campaign == c && x.status.Pending? then 1 else 0
  }

  ghost function ContactedIn(c: nat): Session -> nat
  {
    (x: Session) => if x.campaign == c && !x.status.Pending? then 1 else 0
  }

  /** payment_captured rows joined to the first n sessions, restricted to one campaign. */
  ghost function CapturedRowIn(sessions: seq<Session>, n: nat, c: nat): Row -> nat
  {
    (r: Row) =>
      if r.event.PaymentCaptured? && r.sid < n && r.sid < |sessions| && sessions[r.sid].campaign == c then 1 else 0
  }

  /** The razorpay_captured metric. */
  ghost function CapturedMetric(db: Db, c: nat): nat
  {
    Sum(db.audit, CapturedRowIn(db.sessions, |db.sessions|, c))
  }

  lemma {:induction false} CapturedSplit(audit: seq<Row>, sessions: seq<Session>, n: nat, c: nat)
    requires n < |sessions|
    ensures Sum(audit, CapturedRowIn(sessions, n + 1, c)) == Sum(audit, CapturedRowIn(sessions, n, c))
      + (if sessions[n].campaign == c then Sum(audit, CapturedRow(n)) else 0)
  {
    if audit != [] {
      CapturedSplit(audit[..|audit| - 1], sessions, n, c);
    }
  }

  /** Deliveries that won for one of the first n sessions of a campaign and have not logged it. */
  ghost function MarkedIn(sessions: seq<Session>, n: nat, c: nat): Task -> nat
  {
    (t: Task) =>
      if t.op.CaptureMarked? && t.op.sid < n && t.op.sid < |sessions| && sessions[t.op.sid].campaign == c then 1 else 0
  }

  lemma {:induction false} MarkedSplit(tasks: seq<Task>, sessions: seq<Session>, n: nat, c: nat)
    requires n < |sessions|
    ensures Sum(tasks, MarkedIn(sessions, n + 1, c)) == Sum(tasks, MarkedIn(sessions, n, c))
      + (if sessions[n].campaign == c then Sum(tasks, MarkedTask(n)) else 0)
  {
    if tasks != [] {
      MarkedSplit(tasks[..|tasks| - 1], sessions, n, c);
    }
  }

  /** The balance of captures, added up over the first n sessions. */
  lemma {:induction false} MetricBalance(s: Sys, n: nat, c: nat)
    requires Inv(s) && n <= |s.db.sessions|
    ensures Sum(s.db.audit, CapturedRowIn(s.db.sessions, n, c)) + Sum(s.tasks, MarkedIn(s.db.sessions, n, c))
      == Sum(s.db.sessions[..n], RecoveredIn(c))
  {
    if n == 0 {
      SumZero(s.db.audit, CapturedRowIn(s.db.sessions, 0, c));
      SumZero(s.tasks, MarkedIn(s.db.sessions, 0, c));
    } else {
      MetricBalance(s, n - 1, c);
      CapturedSplit(s.db.audit, s.db.sessions, n - 1, c);
      MarkedSplit(s.tasks, s.db.sessions, n - 1, c);
      assert s.db.sessions[..n] == s.db.sessions[..n - 1] + [s.db.sessions[n - 1]];
      SumAppend(s.db.sessions[..n - 1], s.db.sessions[n - 1], RecoveredIn(c));
      assert CaptureBalance(s, n - 1);
    }
  }

  lemma {:induction false} ContactedPlusPending(sessions: seq<Session>, c: nat)
    ensures Sum(sessions, ContactedIn(c)) + Sum(sessions, PendingIn(c)) == Sum(sessions, InCampaign(c))
  {
    if sessions != [] {
      ContactedPlusPending(sessions[..|sessions| - 1], c);
    }
  }

  /** No session of campaign c lost its payment_captured row to a failed write. */
  ghost predicate NoLostCaptureIn(s: Sys, c: nat)
  {
    forall sid: nat :: sid < |s.db.sessions| && s.db.sessions[sid].campaign == c ==> NoLostCapture(s, sid)
  }

  /**
   * What a campaign's metrics claim: what is captured and what winning
   * deliveries still hold add up to what is recovered at every point, so at
   * rest the two agree exactly when no row was lost.
   */
  lemma MetricsReconcile(states: seq<Sys>, events: seq<Event>, k: nat, c: nat)
    requires IsRun(states, events) && k < |states|
    ensures var s := states[k]; var db := s.db;
      && CapturedMetric(db, c) + Sum(s.tasks, MarkedIn(db.sessions, |db.sessions|, c))
           == Sum(db.sessions, RecoveredIn(c))
      && Sum(db.sessions, ContactedIn(c)) + Sum(db.sessions, PendingIn(c)) == Sum(db.sessions, InCampaign(c))
    ensures var s := states[k]; Quiescent(s) ==>
      (CapturedMetric(s.db, c) == Sum(s.db.sessions, RecoveredIn(c)) <==> NoLostCaptureIn(s, c))
  {
    var s := states[k];
    var n := |s.db.sessions|;
    RunInv(states, events, k);
    MetricBalance(s, n, c);
    assert s.db.sessions[..n] == s.db.sessions;
    ContactedPlusPending(s.db.sessions, c);
    if Quiescent(s) { LostCaptureShows(s, c); }
  }

  lemma LostCaptureShows(s: Sys, c: nat)
    requires Shape(s) && Quiescent(s)
    ensures Sum(s.tasks, MarkedIn(s.db.sessions, |s.db.sessions|, c)) == 0 <==> NoLostCaptureIn(s, c)
  {
    var f := MarkedIn(s.db.sessions, |s.db.sessions|, c);
    if NoLostCaptureIn(s, c) {
      forall sid: nat, i | sid < |s.db.sessions| && s.db.sessions[sid].campaign == c && 0 <= i < |s.tasks|
        ensures s.tasks[i].op != CaptureMarked(sid)
      {
        assert NoLostCapture(s, sid);
      }
      SumZero(s.tasks, f);
    } else {
      var sid: nat :| sid < |s.db.sessions| && s.db.sessions[sid].campaign == c && !NoLostCapture(s, sid);
      var i :| 0 <= i < |s.tasks| && !s.tasks[i].live && s.tasks[i].op == CaptureMarked(sid);
      SumAtLeast(s.tasks, i, f);
    }
  }

  // ---------- inbound dedupe and totals ----------

  /** Any two rows with the same payment id are the same row. */
  lemma OneSessionPerPayment(states: seq<Sys>, events: seq<Event>, k: nat, i: nat, j: nat)
    requires IsRun(states, events) && k < |states|
    requires i < |states[k].db.sessions| && j < |states[k].db.sessions|
    requires states[k].db.sessions[i].payment.Some?
    requires states[k].db.sessions[i].payment == states[k].db.sessions[j].payment
    ensures i == j
  {
    RunInv(states, events, k);
  }

  /** An increment of c's total was lost to a failed write. */
  ghost predicate LostIncrement(s: Sys, c: nat)
  {
    exists i :: 0 <= i < |s.tasks| && !s.tasks[i].live && s.tasks[i].op.FailedInserted? && s.tasks[i].op.campaign == c
  }

  /** A load of campaign c died with accounts still to insert. */
  ghost predicate AbortedLoad(s: Sys, c: nat)
  {
    exists i :: 0 <= i < |s.tasks| && !s.tasks[i].live
      && (s.tasks[i].op.Loading? || s.tasks[i].op.LoadInserted?)
      && s.tasks[i].op.campaign == c && s.tasks[i].op.rest != []
  }

  /**
   * At rest and with no increment lost, a campaign's total is its number of
   * sessions exactly when no load of it was aborted part-way.
   */
  lemma TotalsAtRest(states: seq<Sys>, events: seq<Event>, k: nat, c: nat)
    requires IsRun(states, events) && k < |states|
    requires Quiescent(states[k]) && c < |states[k].db.campaigns| && !LostIncrement(states[k], c)
    ensures states[k].db.campaigns[c].total >= Sum(states[k].db.sessions, InCampaign(c))
    ensures states[k].db.campaigns[c].total == Sum(states[k].db.sessions, InCampaign(c))
      <==> !AbortedLoad(states[k], c)
  {
    var s := states[k];
    RunInv(states, events, k);
    assert TotalBalance(s, c);
    SumZero(s.tasks, Uncounted(c));
    if AbortedLoad(s, c) {
      var i :| 0 <= i < |s.tasks| && !s.tasks[i].live
        && (s.tasks[i].op.Loading? || s.tasks[i].op.LoadInserted?)
        && s.tasks[i].op.campaign == c && s.tasks[i].op.rest != [];
      SumAtLeast(s.tasks, i, Unloaded(c));
    } else {
      SumZero(s.tasks, Unloaded(c));
    }
  }

  // ---------- the latest row of a kind ----------

  /** What `pick` makes of the session's latest row that it picks. */
  function Latest<T>(audit: seq<Row>, sid: nat, pick: AuditEvent -> Option<T>): Option<T>
  {
    if audit == [] then None
    else
      var row := audit[|audit| - 1];
      if row.sid == sid && pick(row.event).Some? then pick(row.event)
      else Latest(audit[..|audit| - 1], sid, pick)
  }

  lemma LatestAppend<T>(audit: seq<Row>, row: Row, sid: nat, pick: AuditEvent -> Option<T>)
    ensures Latest(audit + [row], sid, pick) ==
      if row.sid == sid && pick(row.event).Some? then pick(row.event) else Latest(audit, sid, pick)
  {
    assert (audit + [row])[..|audit|] == audit;
  }

  /** `pick` looks only at rows that an outcome writes. */
  ghost predicate OfOutcome<T>(pick: AuditEvent -> Option<T>)
  {
    forall e :: pick(e).Some? ==> Settles(e) || e.OutcomeClassified?
  }

  /** What is latest after an outcome's events. */
  function Newest<T>(w: OutcomeWrite, pick: AuditEvent -> Option<T>, before: Option<T>): Option<T>
    requires WriteShape(w)
  {
    if |w.events| > 2 && pick(w.events[2]).Some? then pick(w.events[2])
    else if pick(w.events[1]).Some? then pick(w.events[1])
    else before
  }

  lemma LatestWrite<T>(audit: seq<Row>, w: OutcomeWrite, sid: nat, pick: AuditEvent -> Option<T>)
    requires WriteShape(w) && OfOutcome(pick)
    ensures Latest(audit + Rows(w.sid, w.events), sid, pick) ==
      if w.sid == sid then Newest(w, pick, Latest(audit, sid, pick)) else Latest(audit, sid, pick)
  {
    var rows := Rows(w.sid, w.events);
    LatestAppend(audit, rows[0], sid, pick);
    LatestAppend(audit + [rows[0]], rows[1], sid, pick);
    var two := audit + [rows[0]] + [rows[1]];
    if |rows| == 2 {
      assert audit + rows == two;
    } else {
      LatestAppend(two, rows[2], sid, pick);
      assert audit + rows == two + [rows[2]];
    }
  }

  /** The event commits an outcome for this session. */
  ghost predicate Commits(s: Sys, e: Event, sid: nat)
    requires Enabled(s, e)
  {
    && e.Advance? && s.tasks[e.i].op.EndBuilt? && s.tasks[e.i].op.write.sid == sid
    && RecordCommits(s.db, s.tasks[e.i].op.write)
  }

  lemma LatestStep<T>(s: Sys, e: Event, sid: nat, pick: AuditEvent -> Option<T>)
    requires Shape(s) && Enabled(s, e) && OfOutcome(pick)
    ensures Commits(s, e, sid) ==> WriteShape(s.tasks[e.i].op.write)
    ensures Latest(Apply(s, e).db.audit, sid, pick) ==
      if Commits(s, e, sid) then Newest(s.tasks[e.i].op.write, pick, Latest(s.db.audit, sid, pick))
      else Latest(s.db.audit, sid, pick)
  {
    if e.Advance? {
      assert OpShape(s.tasks[e.i].op, s.db);
      if s.tasks[e.i].op.EndBuilt? {
        LatestWrite(s.db.audit, s.tasks[e.i].op.write, sid, pick);
      } else {
        var row := StatementLog(s, e.i, e.ok);
        LatestAppend(s.db.audit, row, sid, pick);
      }
    }
  }

  // ---------- promised days ----------

  function PromiseOf(e: AuditEvent): Option<DateText>
  {
    if e.PromiseLogged? then Some(e.date) else None
  }

  /** The date in the latest promise_logged row of a session. */
  function LastPromise(audit: seq<Row>, sid: nat): Option<DateText>
  {
    Latest(audit, sid, PromiseOf)
  }

  lemma LastPromiseWrite(audit: seq<Row>, w: OutcomeWrite, sid: nat)
    requires WriteShape(w)
    ensures LastPromise(audit + Rows(w.sid, w.events), sid) ==
      if w.sid == sid && w.status.Promised? then Some(w.promise) else LastPromise(audit, sid)
  {
    LatestWrite(audit, w, sid, PromiseOf);
  }

  /** The promised day that the session's timer was set from, if any. */
  ghost predicate WaitsForPromise(db: Db, sid: nat, day: Time)
    requires sid < |db.sessions|
  {
    db.sessions[sid].status.Promised? && LastPromise(db.audit, sid) == Some(IsoDay(day))
  }

  // ---------- what the log shows ----------

  function LinkOf(e: AuditEvent): Option<nat>
  {
    if e.PaymentLinkSent? then Some(e.link) else None
  }

  function DateOf(e: AuditEvent): Option<DateText>
  {
    if e.PromiseLogged? && !e.date.Blank? then Some(e.date) else None
  }

  function VerdictOf(e: AuditEvent): Option<Status>
  {
    match e
    case PaymentLinkSent(_) => Some(LinkSent)
    case PromiseLogged(_, _) => Some(Promised)
    case StoppedRefused => Some(Refused)
    case StoppedMaxAttempts => Some(Failed)
    case OutcomeClassified(Unclassified(_)) => Some(Unclear)
    case _ => None
  }

  /** A status that an outcome leaves is the log's latest verdict; nobody on a call has a verdict that stops calls. */
  predicate VerdictFits(status: Status, verdict: Option<Status>)
  {
    match status
    case Pending => verdict.None?
    case Active => verdict.Some? ==> !Stopped(verdict.value)
    case Recovered => true
    case _ => verdict == Some(status)
  }

  predicate LinkShows(db: Db, sid: nat)
  {
    Latest(db.audit, sid, LinkOf) == if sid < |db.sessions| then db.sessions[sid].link else None
  }

  predicate DateShows(db: Db, sid: nat)
  {
    var date := Latest(db.audit, sid, DateOf);
    if sid < |db.sessions| then db.sessions[sid].promise == (if date.Some? then date.value else Blank) else date.None?
  }

  predicate VerdictShows(db: Db, sid: nat)
  {
    var verdict := Latest(db.audit, sid, VerdictOf);
    if sid < |db.sessions| then VerdictFits(db.sessions[sid].status, verdict) else verdict.None?
  }

  lemma LinkShowsStep(s: Sys, e: Event, sid: nat)
    requires Shape(s) && Enabled(s, e) && LinkShows(s.db, sid)
    ensures LinkShows(Apply(s, e).db, sid)
  {
    LatestStep(s, e, sid, LinkOf);
    if sid < |s.db.sessions| { SessionStep(s, e, sid); }
    else if sid < |Apply(s, e).db.sessions| { NewRowStep(s, e, sid); }
  }

  lemma DateShowsStep(s: Sys, e: Event, sid: nat)
    requires Shape(s) && Enabled(s, e) && DateShows(s.db, sid)
    ensures DateShows(Apply(s, e).db, sid)
  {
    LatestStep(s, e, sid, DateOf);
    if sid < |s.db.sessions| { SessionStep(s, e, sid); }
  }

  lemma VerdictShowsStep(s: Sys, e: Event, sid: nat)
    requires Shape(s) && Enabled(s, e) && VerdictShows(s.db, sid)
    ensures VerdictShows(Apply(s, e).db, sid)
  {
    LatestStep(s, e, sid, VerdictOf);
    if sid < |s.db.sessions| { SessionStep(s, e, sid); }
    else if sid < |Apply(s, e).db.sessions| { NewRowStep(s, e, sid); }
  }

  /**
   * At every point of every interleaving, whatever writes fail, the latest
   * payment_link_sent row names the session's link, the latest dated
   * promise_logged row its promised date, and the latest verdict its status
   * when that is link_sent, promised, refused, unclear or failed.
   */
  lemma {:induction false} LogShowsOutcome(states: seq<Sys>, events: seq<Event>, k: nat, sid: nat)
    requires IsRun(states, events) && k < |states|
    ensures LinkShows(states[k].db, sid) && DateShows(states[k].db, sid) && VerdictShows(states[k].db, sid)
  {
    if k > 0 {
      LogShowsOutcome(states, events, k - 1, sid);
      RunInv(states, events, k - 1);
      assert Step(states[k - 1], events[k - 1], states[k]);
      LinkShowsStep(states[k - 1], events[k - 1], sid);
      DateShowsStep(states[k - 1], events[k - 1], sid);
      VerdictShowsStep(states[k - 1], events[k - 1], sid);
    }
  }
}
