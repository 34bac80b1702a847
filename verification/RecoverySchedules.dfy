/**
 * How the two levels of the orchestrator model meet: a request served alone
 * is one schedule of its statements; and schedules that show which serial
 * guarantees interleaving breaks.
 */
module RecoverySchedules {
  import opened Basics
  import opened RecoveryModel
  import opened RecoverySteps
  import opened RecoverySerial
  import opened RecoveryTheorems

  // ---------- running one task alone ----------

  /** An upper bound on the statements a task still has to run. */
  function Remaining(op: Op): nat
  {
    match op
    case AssignClaimed(_, _) => 1
    case EndRead(_, _, _, _, _) => 3
    case EndLinked(_, _, _, _, _) => 2
    case EndLinkRefused(_) => 1
    case EndBuilt(_) => 1
    case CaptureRead(_) => 2
    case CaptureMarked(_) => 1
    case FailedRead(_, _) => 5
    case FailedChecked(_, _) => 4
    case FailedInserted(_, _) => 3
    case FailedCounted(_) => 2
    case FailedLogged(_) => 1
    case Loading(_, rest) => 2 * |rest| + 1
    case LoadInserted(_, _, rest) => 2 * |rest| + 2
    case Done => 0
  }

  predicate HasWork(s: Sys, i: nat)
  {
    i < |s.tasks| && s.tasks[i].live && !s.tasks[i].op.Done?
  }

  /** Task i's statements with nothing between them; `ok` is the provider's answer. */
  function Finish(s: Sys, i: nat, ok: bool): Sys
    decreases HasWork(s, i), if i < |s.tasks| then Remaining(s.tasks[i].op) else 0
  {
    if HasWork(s, i) then Finish(Statement(s, i, ok), i, ok) else s
  }

  lemma {:induction false} FinishIsExecution(s: Sys, i: nat, ok: bool) returns (states: seq<Sys>, events: seq<Event>)
    ensures IsExecution(states, events) && states[0] == s && states[|events|] == Finish(s, i, ok)
    ensures Finish(s, i, ok).now == s.now && forall k :: 0 <= k < |events| ==> events[k].Advance?
    decreases HasWork(s, i), if i < |s.tasks| then Remaining(s.tasks[i].op) else 0
  {
    if HasWork(s, i) {
      var e, s' := Advance(i, ok), Statement(s, i, ok);
      assert Step(s, e, s');
      var states', events' := FinishIsExecution(s', i, ok);
      states, events := [s] + states', [e] + events';
    } else {
      states, events := [s], [];
    }
  }

  lemma {:induction false} FinishLoad(s: Sys, i: nat, c: nat, accounts: seq<Account>, ok: bool)
    requires i < |s.tasks| && s.tasks[i] == Task(Loading(c, accounts), true)
    ensures Finish(s, i, ok).db == LoadAll(s.db, c, accounts, s.now)
    ensures Finish(s, i, ok).now == s.now
    decreases |accounts|
  {
    var s1 := Statement(s, i, ok);
    assert Finish(s, i, ok) == Finish(s1, i, ok);
    if accounts != [] && PaymentFree(s.db, accounts[0].payment) {
      var s2 := Statement(s1, i, ok);
      assert Finish(s1, i, ok) == Finish(s2, i, ok);
      assert s2.db == LoadOne(s.db, c, accounts[0], s.now);
      FinishLoad(s2, i, c, accounts[1..], ok);
    }
  }

  lemma FinishFailedPayment(s: Sys, i: nat, c: nat, account: Account, ok: bool)
    requires i < |s.tasks| && s.tasks[i] == Task(FailedRead(c, account), true)
    ensures Finish(s, i, ok).db == AddFailedPayment(s.db, c, account, s.now)
  {
    var s1 := Statement(s, i, ok);
    assert Finish(s, i, ok) == Finish(s1, i, ok);
    if PaymentFree(s.db, account.payment) {
      var s2 := Statement(s1, i, ok);
      var s3 := Statement(s2, i, ok);
      var s4 := Statement(s3, i, ok);
      var s5 := Statement(s4, i, ok);
      assert Finish(s1, i, ok) == Finish(s2, i, ok) == Finish(s3, i, ok) == Finish(s4, i, ok) == Finish(s5, i, ok);
    }
  }

  lemma FinishEnd(s: Sys, i: nat, sid: nat, outcome: Outcome, promise: DateText, ok: bool)
    requires sid < |s.db.sessions| && i < |s.tasks|
    requires var x := s.db.sessions[sid];
      OutcomeRecordableFrom(x.status)
      && s.tasks[i] == Task(EndRead(sid, x.attempts, x.maxAttempts, outcome, promise), true)
    ensures Finish(s, i, ok).db
      == EndFound(s.db, sid, outcome, promise, if ok then Some(|s.links|) else None, s.now)
  {
    var s1 := Statement(s, i, ok);
    var s2 := Statement(s1, i, ok);
    assert Finish(s, i, ok) == Finish(s1, i, ok) == Finish(s2, i, ok);
    if outcome.Agreed? && ok {
      var s3 := Statement(s2, i, ok);
      assert Finish(s2, i, ok) == Finish(s3, i, ok);
    }
  }

  lemma FinishCapture(s: Sys, i: nat, sid: nat, ok: bool)
    requires sid < |s.db.sessions| && i < |s.tasks| && s.tasks[i] == Task(CaptureRead(sid), true)
    ensures Finish(s, i, ok).db == Capture(s.db, sid)
  {
    var s1 := Statement(s, i, ok);
    assert Finish(s, i, ok) == Finish(s1, i, ok);
    if MarkChanges(s.db, sid) {
      var s2 := Statement(s1, i, ok);
      assert Finish(s1, i, ok) == Finish(s2, i, ok);
    }
  }

  // ---------- a request served alone is one schedule ----------

  /** The event that starts a request, when the request gets past its first read. */
  function Opening(db: Db, r: Request): Option<Event>
  {
    match r
    case AssignCall(call, pick) => if pick.Some? then Some(Assign(call, pick.value)) else None
    case EndCall(call, outcome, promise, _) =>
      var found := FindFirst(db.sessions, HasCall(call));
      if found.Some? && OutcomeRecordableFrom(db.sessions[found.value].status)
      then Some(BeginEnd(call, found.value, outcome, promise)) else None
    case PaymentCapturedFor(payment) =>
      var found := FindFirst(db.sessions, HasPayment(payment));
      if found.Some? then Some(BeginCapture(ByPayment(payment), found.value)) else None
    case LinkPaid(link) =>
      var found := FindFirst(db.sessions, HasLink(link));
      if found.Some? then Some(BeginCapture(ByLink(link), found.value)) else None
    case PaymentFailed(account, campaign) =>
      if campaign.Some? then Some(BeginFailed(campaign.value, account)) else None
    case LoadCampaign(accounts) => if accounts != [] then Some(BeginLoad(accounts)) else None
  }

  /** What Serve does in one go is what the interleaved machine does when nothing comes between. */
  lemma ServedAloneIsASchedule(s: Sys, r: Request) returns (states: seq<Sys>, events: seq<Event>)
    requires Possible(s.db, r, s.now)
    requires r.EndCall? && r.offered.Some? ==> r.offered.value == |s.links|
    ensures IsExecution(states, events) && states[0] == s
    ensures states[|events|].db == Serve(s.db, r, s.now) && states[|events|].now == s.now
    ensures forall k :: 0 <= k < |events| ==>
      if k > 0 then events[k].Advance? else !events[k].EditTimer? && !events[k].EditCampaign?
    ensures r.AssignCall? && r.pick.Some? ==> events != [] && events[0] == Assign(r.call, r.pick.value)
  {
    var opening := Opening(s.db, r);
    if opening.None? {
      states, events := [s], [];
    } else {
      var e, i := opening.value, |s.tasks|;
      var s1 := Apply(s, e);
      var ok := r.EndCall? && r.offered.Some?;
      match e {
        case Assign(call, sid) =>
          assert Finish(s1, i, ok) == Finish(Statement(s1, i, ok), i, ok);
        case BeginEnd(_, sid, outcome, promise) => FinishEnd(s1, i, sid, outcome, promise, ok);
        case BeginCapture(_, sid) => FinishCapture(s1, i, sid, ok);
        case BeginFailed(c, account) => FinishFailedPayment(s1, i, c, account, ok);
        case BeginLoad(accounts) => FinishLoad(s1, i, |s.db.campaigns|, accounts, ok);
      }
      var states', events' := FinishIsExecution(s1, i, ok);
      states, events := [s] + states', [e] + events';
    }
  }

  // ---------- schedules that break serial guarantees ----------

  /** Some run without timer edits ends in `s`. */
  ghost predicate Reachable(s: Sys)
  {
    exists states, events :: IsRun(states, events) && Unedited(events) && states[|events|] == s
  }

  lemma ReachableInit()
    ensures Reachable(Sys(EMPTY_DB, [], [], 0))
  {
    var states, events := [Sys(EMPTY_DB, [], [], 0)], [];
    assert IsRun(states, events) && Unedited(events) && states[|events|] == Sys(EMPTY_DB, [], [], 0);
  }

  lemma Next(s: Sys, e: Event)
    requires Reachable(s) && Enabled(s, e) && !e.EditTimer?
    ensures Reachable(Apply(s, e))
  {
    var states, events :| IsRun(states, events) && Unedited(events) && states[|events|] == s;
    var all, done := states + [Apply(s, e)], events + [e];
    assert IsRun(all, done) && Unedited(done) && all[|done|] == Apply(s, e);
  }

  const NO_PAYMENT := Account(100, None)

  /** One loaded account, at time 0, with its load finished. */
  const LOADED := Sys(
    Db([Campaign(1, Running, 0)], [NewSession(0, NO_PAYMENT, 0)], [Row(0, SessionCreated)]),
    [Task(Done, true)], [], 0)

  lemma LoadedIsReachable()
    ensures Reachable(LOADED)
  {
    ReachableInit();
    var s0 := Sys(EMPTY_DB, [], [], 0);
    var e0 := BeginLoad([NO_PAYMENT]);
    var s1 := Apply(s0, e0);
    Next(s0, e0);
    var e1 := Advance(0, true);
    var s2 := Apply(s1, e1);
    Next(s1, e1);
    var e2 := Advance(0, true);
    var s3 := Apply(s2, e2);
    Next(s2, e2);
    var e3 := Advance(0, true);
    var s4 := Apply(s3, e3);
    Next(s3, e3);
    assert s4 == LOADED;
  }

  /** An outcome read during call `calls` is still waiting; that call has since ended with a promise due now. */
  ghost predicate StaleReader(s: Sys, calls: nat)
  {
    && s.db.campaigns == LOADED.db.campaigns && s.now == 0 && |s.links| == 0
    && calls >= 1 && |s.tasks| == 2 + 2 * calls
    && s.tasks[2] == Task(EndRead(0, 1, 3, Unclassified("UNCLEAR"), Blank), true)
    && |s.db.sessions| == 1
    && var x := s.db.sessions[0];
       && x.campaign == 0 && x.status.Promised? && x.attempts == calls && x.maxAttempts == 3
       && x.timer == Some(0) && x.link.None?
  }

  lemma StaleReaderFirst() returns (s: Sys)
    ensures Reachable(s) && StaleReader(s, 1)
  {
    LoadedIsReachable();
    var s0 := LOADED;
    var e0 := Assign("a", 0);
    var s1 := Apply(s0, e0);
    Next(s0, e0);
    var e1 := BeginEnd("a", 0, Unclassified("UNCLEAR"), Blank);
    var s2 := Apply(s1, e1);
    Next(s1, e1);
    var e2 := BeginEnd("a", 0, PromisedToPay, IsoDay(0));
    var s3 := Apply(s2, e2);
    Next(s2, e2);
    var e3 := Advance(3, true);
    var s4 := Apply(s3, e3);
    Next(s3, e3);
    var e4 := Advance(3, true);
    var s5 := Apply(s4, e4);
    Next(s4, e4);
    s := s5;
  }

  lemma StaleReaderSecond() returns (s: Sys)
    ensures Reachable(s) && StaleReader(s, 2)
  {
    var s0 := StaleReaderFirst();
    var e0 := Assign("b", 0);
    var s1 := Apply(s0, e0);
    Next(s0, e0);
    var e1 := BeginEnd("b", 0, PromisedToPay, IsoDay(0));
    var s2 := Apply(s1, e1);
    Next(s1, e1);
    var e2 := Advance(5, true);
    var s3 := Apply(s2, e2);
    Next(s2, e2);
    var e3 := Advance(5, true);
    var s4 := Apply(s3, e3);
    Next(s3, e3);
    s := s4;
  }

  /**
   * RecordOutcome re-checks the status but not the attempts read earlier: an
   * outcome read during the first call and recorded during the third leaves
   * an unclear session with no call left. RecoveryOverlap has the exact
   * condition.
   */
  lemma StaleReadOverspends() returns (s: Sys)
    ensures Reachable(s)
    ensures |s.db.sessions| == 1
    ensures var x := s.db.sessions[0]; x.status.Unclear? && x.attempts == x.maxAttempts
  {
    var s0 := StaleReaderSecond();
    var e0 := Assign("c", 0);
    var s1 := Apply(s0, e0);
    Next(s0, e0);
    var e1 := Advance(2, true);
    var s2 := Apply(s1, e1);
    Next(s1, e1);
    var e2 := Advance(2, true);
    var s3 := Apply(s2, e2);
    Next(s2, e2);
    s := s3;
  }

  /** The outcome of a first call without a verdict, built at time 0. */
  const STALE_WRITE: OutcomeWrite := BuildWrite(0, 1, 3, Unclassified("UNCLEAR"), Blank, None, 0)

  lemma StaleWriteLands(db: Db)
    requires |db.sessions| == 1 && OutcomeRecordableFrom(db.sessions[0].status) && LastPromise(db.audit, 0).None?
    ensures var db' := RecordOutcome(db, STALE_WRITE);
      && db'.campaigns == db.campaigns && LastPromise(db'.audit, 0).None?
      && db'.sessions == [db.sessions[0].(status := Unclear, timer := Some(DAY))]
  {
    LastPromiseWrite(db.audit, STALE_WRITE, 0);
  }

  /** The first call ended unclear; a second outcome for it was built at time 0 and never recorded. */
  ghost predicate StaleWriter(s: Sys)
  {
    && s.db.campaigns == LOADED.db.campaigns && s.now == 0 && |s.tasks| == 4
    && s.tasks[2] == Task(EndBuilt(STALE_WRITE), true)
    && |s.db.sessions| == 1 && LastPromise(s.db.audit, 0).None?
    && var x := s.db.sessions[0];
       && x.campaign == 0 && x.status.Unclear? && x.attempts == 1 && x.maxAttempts == 3
       && x.timer == Some(DAY) && x.link.None?
  }

  lemma StaleWriterBuilt() returns (s: Sys)
    ensures Reachable(s) && s.db.campaigns == LOADED.db.campaigns && s.now == 0 && |s.tasks| == 3
    ensures s.tasks[2] == Task(EndBuilt(STALE_WRITE), true)
    ensures s.db.sessions == [Bind(LOADED.db.sessions[0], "a", 0)] && LastPromise(s.db.audit, 0).None?
  {
    LoadedIsReachable();
    var s0 := LOADED;
    var e0 := Assign("a", 0);
    var s1 := Apply(s0, e0);
    Next(s0, e0);
    var e1 := BeginEnd("a", 0, Unclassified("UNCLEAR"), Blank);
    var s2 := Apply(s1, e1);
    Next(s1, e1);
    var e2 := Advance(2, true);
    var s3 := Apply(s2, e2);
    Next(s2, e2);
    s := s3;
  }

  lemma StaleWriterWaits() returns (s: Sys)
    ensures Reachable(s) && StaleWriter(s)
  {
    var s0 := StaleWriterBuilt();
    var e0 := BeginEnd("a", 0, Unclassified("UNCLEAR"), Blank);
    var s1 := Apply(s0, e0);
    Next(s0, e0);
    var e1 := Advance(3, true);
    var s2 := Apply(s1, e1);
    Next(s1, e1);
    var s3 := Apply(s2, e1);
    Next(s2, e1);
    assert s2.tasks[3].op == EndBuilt(STALE_WRITE) && s2.db == s0.db;
    StaleWriteLands(s0.db);
    s := s3;
  }

  /** A day later the customer is being called again, and the old write is still waiting. */
  lemma StaleWriterOnNextCall() returns (s: Sys)
    ensures Reachable(s) && s.db.campaigns == LOADED.db.campaigns && s.now == DAY && |s.tasks| == 5
    ensures s.tasks[2] == Task(EndBuilt(STALE_WRITE), true)
    ensures |s.db.sessions| == 1 && LastPromise(s.db.audit, 0).None?
    ensures var x := s.db.sessions[0];
      x.campaign == 0 && x.status.Active? && x.attempts == 2 && x.maxAttempts == 3 && x.callStarted == Some(DAY)
  {
    var s0 := StaleWriterWaits();
    var e0 := Tick(DAY);
    var s1 := Apply(s0, e0);
    Next(s0, e0);
    var e1 := Assign("b", 0);
    var s2 := Apply(s1, e1);
    Next(s1, e1);
    s := s2;
  }

  /**
   * Nor does it check the call id or the age of the follow-up time: a write
   * built a day ago lands on the next call, and the customer can be called
   * again in the same second, with no promise made. RecoveryOverlap has the
   * exact condition.
   */
  lemma StaleWriteCallsBackAtOnce() returns (s: Sys)
    ensures Reachable(s)
    ensures Enabled(s, Assign("c", 0))
    ensures s.db.sessions[0].callStarted == Some(s.now) && s.db.sessions[0].status.Unclear?
    ensures LastPromise(s.db.audit, 0).None?
  {
    var s0 := StaleWriterOnNextCall();
    var e0 := Advance(2, true);
    var s1 := Apply(s0, e0);
    Next(s0, e0);
    StaleWriteLands(s0.db);
    assert Assignable(s1.db, 0, s1.now);
    s := s1;
  }

  /** A load whose second account repeats the first one's payment id announces two sessions and has one. */
  lemma DuplicateLoadOvercounts() returns (s: Sys)
    ensures Reachable(s) && Quiescent(s)
    ensures |s.db.campaigns| == 1 && s.db.campaigns[0].total == 2 && |s.db.sessions| == 1
  {
    ReachableInit();
    var account := Account(100, Some("pay"));
    var s0 := Sys(EMPTY_DB, [], [], 0);
    var e0 := BeginLoad([account, account]);
    var s1 := Apply(s0, e0);
    Next(s0, e0);
    var e1 := Advance(0, true);
    var s2 := Apply(s1, e1);
    Next(s1, e1);
    var e2 := Advance(0, true);
    var s3 := Apply(s2, e2);
    Next(s2, e2);
    var e3 := Advance(0, true);
    var s4 := Apply(s3, e3);
    Next(s3, e3);
    assert s3.db.sessions[0].payment == account.payment;
    s := s4;
  }
}
