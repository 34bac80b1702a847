/**
 * What every interleaving of the orchestrator's statements keeps.
 *
 * All lemmas here are about the interleaved machine of RecoverySteps: any
 * number of tasks in flight, any failed writes, any timer edits unless a
 * lemma says otherwise.
 */
module RecoveryInvariants {
  import opened Basics
  import opened RecoveryModel
  import opened RecoverySteps

  // ---------- shape of in-flight work ----------

  predicate OpShape(op: Op, db: Db)
  {
    match op
    case AssignClaimed(sid, _) => sid < |db.sessions|
    case EndRead(sid, _, _, _, _) => sid < |db.sessions|
    case EndLinked(sid, _, _, _, _) => sid < |db.sessions|
    case EndLinkRefused(sid) => sid < |db.sessions|
    case EndBuilt(w) => w.sid < |db.sessions| && WriteShape(w)
    case CaptureRead(sid) => sid < |db.sessions|
    case CaptureMarked(sid) => sid < |db.sessions|
    case FailedRead(c, _) => c < |db.campaigns|
    case FailedChecked(c, _) => c < |db.campaigns|
    case FailedInserted(c, sid) => c < |db.campaigns| && sid < |db.sessions|
    case FailedCounted(sid) => sid < |db.sessions|
    case FailedLogged(sid) => sid < |db.sessions|
    case Loading(c, _) => c < |db.campaigns|
    case LoadInserted(c, sid, _) => c < |db.campaigns| && sid < |db.sessions|
    case Done => true
  }

  ghost predicate Shape(s: Sys)
  {
    && (forall i :: 0 <= i < |s.tasks| ==> OpShape(s.tasks[i].op, s.db))
    && (forall i :: 0 <= i < |s.db.sessions| ==> s.db.sessions[i].campaign < |s.db.campaigns|)
  }

  lemma OpShapeGrows(op: Op, db: Db, db': Db)
    requires OpShape(op, db) && |db.sessions| <= |db'.sessions| && |db.campaigns| <= |db'.campaigns|
    ensures OpShape(op, db')
  {
  }

  lemma StatementGrows(s: Sys, i: nat, ok: bool)
    requires i < |s.tasks| && !s.tasks[i].op.Done?
    ensures var s' := Statement(s, i, ok);
      && |s.db.sessions| <= |s'.db.sessions| && |s.db.campaigns| <= |s'.db.campaigns|
      && |s'.tasks| == |s.tasks|
      && (forall k :: 0 <= k < |s.tasks| && k != i ==> s'.tasks[k] == s.tasks[k])
  {
  }

  lemma BuiltShape(sid: nat, attempts: nat, maxAttempts: nat, outcome: Outcome, promise: DateText,
                   link: Option<nat>, now: Time)
    requires outcome.Agreed? ==> link.Some?
    ensures var w := BuildWrite(sid, attempts, maxAttempts, outcome, promise, link, now);
      w.sid == sid && (outcome.Agreed? || link.None? ==> WriteShape(w))
  {
  }

  lemma StatementShape(s: Sys, i: nat, ok: bool)
    requires i < |s.tasks| && !s.tasks[i].op.Done? && OpShape(s.tasks[i].op, s.db)
    ensures |Statement(s, i, ok).tasks| == |s.tasks|
    ensures OpShape(Statement(s, i, ok).tasks[i].op, Statement(s, i, ok).db)
  {
    match s.tasks[i].op
    case EndRead(sid, attempts, maxAttempts, outcome, promise) =>
      if !outcome.Agreed? { BuiltShape(sid, attempts, maxAttempts, outcome, promise, None, s.now); }
    case EndLinked(sid, attempts, maxAttempts, promise, link) =>
      BuiltShape(sid, attempts, maxAttempts, Agreed, promise, Some(link), s.now);
    case _ =>
  }

  lemma ShapeStep(s: Sys, e: Event)
    requires Shape(s) && Enabled(s, e)
    ensures Shape(Apply(s, e))
  {
    var s' := Apply(s, e);
    if e.Advance? {
      assert OpShape(s.tasks[e.i].op, s.db);
      StatementShape(s, e.i, e.ok);
      StatementGrows(s, e.i, e.ok);
      forall i | 0 <= i < |s'.tasks| ensures OpShape(s'.tasks[i].op, s'.db) {
        if i != e.i { OpShapeGrows(s.tasks[i].op, s.db, s'.db); }
      }
      forall k | 0 <= k < |s'.db.sessions| ensures s'.db.sessions[k].campaign < |s'.db.campaigns| {
      }
    } else {
      forall i | 0 <= i < |s.tasks| ensures OpShape(s.tasks[i].op, s'.db) {
        OpShapeGrows(s.tasks[i].op, s.db, s'.db);
      }
    }
  }

  // ---------- counting rows ----------

  predicate Settles(e: AuditEvent)
  {
    e.PaymentLinkSent? || e.PromiseLogged? || e.StoppedRefused? || e.StoppedMaxAttempts?
  }

  ghost function SettledRow(sid: nat): Row -> nat
  {
    (r: Row) => if r.sid == sid && Settles(r.event) then 1 else 0
  }

  ghost function CapturedRow(sid: nat): Row -> nat
  {
    (r: Row) => if r.sid == sid && r.event.PaymentCaptured? then 1 else 0
  }

  ghost function AssignedRow(sid: nat): Row -> nat
  {
    (r: Row) => if r.sid == sid && r.event.SessionAssigned? then 1 else 0
  }

  ghost function AssignedRows(db: Db, sid: nat): nat { Sum(db.audit, AssignedRow(sid)) }

  ghost function SettledRows(db: Db, sid: nat): nat { Sum(db.audit, SettledRow(sid)) }

  ghost function CapturedRows(db: Db, sid: nat): nat { Sum(db.audit, CapturedRow(sid)) }

  /** What one row adds to the three counts. */
  lemma RowCounts(audit: seq<Row>, row: Row, sid: nat)
    ensures Sum(audit + [row], CapturedRow(sid)) == Sum(audit, CapturedRow(sid)) + CapturedRow(sid)(row)
    ensures Sum(audit + [row], SettledRow(sid)) == Sum(audit, SettledRow(sid)) + SettledRow(sid)(row)
    ensures Sum(audit + [row], AssignedRow(sid)) == Sum(audit, AssignedRow(sid)) + AssignedRow(sid)(row)
  {
    SumAppend(audit, row, CapturedRow(sid));
    SumAppend(audit, row, SettledRow(sid));
    SumAppend(audit, row, AssignedRow(sid));
  }

  /** What a whole outcome adds to a count. */
  lemma WriteSum(audit: seq<Row>, w: OutcomeWrite, f: Row -> nat)
    requires WriteShape(w)
    ensures Sum(audit + Rows(w.sid, w.events), f)
      == Sum(audit, f) + f(Row(w.sid, w.events[0])) + f(Row(w.sid, w.events[1]))
         + (if |w.events| > 2 then f(Row(w.sid, w.events[2])) else 0)
  {
    var rows := Rows(w.sid, w.events);
    var two := audit + [rows[0]] + [rows[1]];
    SumAppend(audit, rows[0], f);
    SumAppend(audit + [rows[0]], rows[1], f);
    if |rows| == 2 {
      assert audit + rows == two;
    } else {
      SumAppend(two, rows[2], f);
      assert audit + rows == two + [rows[2]];
    }
  }

  lemma WriteRows(audit: seq<Row>, w: OutcomeWrite, sid: nat)
    requires WriteShape(w)
    ensures Sum(audit + Rows(w.sid, w.events), CapturedRow(sid)) == Sum(audit, CapturedRow(sid))
    ensures Sum(audit + Rows(w.sid, w.events), AssignedRow(sid)) == Sum(audit, AssignedRow(sid))
    ensures Sum(audit + Rows(w.sid, w.events), SettledRow(sid))
         == Sum(audit, SettledRow(sid)) + (if sid == w.sid && !w.status.Unclear? then 1 else 0)
  {
    WriteSum(audit, w, CapturedRow(sid));
    WriteSum(audit, w, AssignedRow(sid));
    WriteSum(audit, w, SettledRow(sid));
  }

  // ---------- exactly-once recovery ----------

  ghost function MarkedTask(sid: nat): Task -> nat
  {
    (t: Task) => if t.op.CaptureMarked? && t.op.sid == sid then 1 else 0
  }

  ghost function IsRecovered(db: Db, sid: nat): nat
  {
    if sid < |db.sessions| && db.sessions[sid].status.Recovered? then 1 else 0
  }

  /** Every recovery is either already logged or held by exactly one delivery that won the UPDATE. */
  ghost predicate CaptureBalance(s: Sys, sid: nat)
  {
    CapturedRows(s.db, sid) + Sum(s.tasks, MarkedTask(sid)) == IsRecovered(s.db, sid)
  }

  /** How one event moves a sum over the tasks. */
  lemma TaskSum(s: Sys, e: Event, f: Task -> nat)
    requires Enabled(s, e)
    ensures var s' := Apply(s, e);
      if e.Advance? || e.Abandon? then
        && |s'.tasks| == |s.tasks|
        && Sum(s'.tasks, f) + f(s.tasks[e.i]) == Sum(s.tasks, f) + f(s'.tasks[e.i])
      else if |s'.tasks| == |s.tasks| then s'.tasks == s.tasks
      else |s'.tasks| == |s.tasks| + 1 && Sum(s'.tasks, f) == Sum(s.tasks, f) + f(s'.tasks[|s.tasks|])
  {
    var s' := Apply(s, e);
    if e.Advance? || e.Abandon? {
      assert s'.tasks == s.tasks[e.i := s'.tasks[e.i]];
      SumUpdate(s.tasks, e.i, s'.tasks[e.i], f);
    } else if |s'.tasks| == |s.tasks| + 1 {
      assert s'.tasks == s.tasks + [s'.tasks[|s.tasks|]];
      SumAppend(s.tasks, s'.tasks[|s.tasks|], f);
    }
  }

  /** A statement leaves the log alone, appends one row, or records a whole outcome. */
  lemma StatementLog(s: Sys, i: nat, ok: bool) returns (row: Row)
    requires i < |s.tasks| && !s.tasks[i].op.Done? && OpShape(s.tasks[i].op, s.db) && !s.tasks[i].op.EndBuilt?
    ensures var s' := Statement(s, i, ok);
      || (s'.db.audit == s.db.audit + [row] && !Settles(row.event) && !row.event.OutcomeClassified?
          && (row.event.PaymentCaptured? ==> s.tasks[i].op == CaptureMarked(row.sid))
          && (row.event.SessionAssigned? ==> s.tasks[i].op == AssignClaimed(row.sid, row.event.call)))
      || (s'.db.audit == s.db.audit && !s.tasks[i].op.CaptureMarked? && !s.tasks[i].op.AssignClaimed?)
    ensures s.tasks[i].op.CaptureMarked? ==> row == Row(s.tasks[i].op.sid, PaymentCaptured)
    ensures s.tasks[i].op.AssignClaimed? ==> row == Row(s.tasks[i].op.sid, SessionAssigned(s.tasks[i].op.call))
  {
    var s' := Statement(s, i, ok);
    row := if |s'.db.audit| > |s.db.audit| then s'.db.audit[|s.db.audit|] else Row(0, SessionCreated);
  }

  /** How one event moves a count over the audit log. */
  lemma AuditStep(s: Sys, e: Event, sid: nat)
    requires Shape(s) && Enabled(s, e)
    ensures var s' := Apply(s, e);
      && CapturedRows(s'.db, sid) == CapturedRows(s.db, sid)
           + (if e.Advance? && s.tasks[e.i].op == CaptureMarked(sid) then 1 else 0)
      && AssignedRows(s'.db, sid) == AssignedRows(s.db, sid)
           + (if e.Advance? && s.tasks[e.i].op.AssignClaimed? && s.tasks[e.i].op.sid == sid then 1 else 0)
      && SettledRows(s'.db, sid) == SettledRows(s.db, sid)
           + (if e.Advance? && s.tasks[e.i].op.EndBuilt? && s.tasks[e.i].op.write.sid == sid
                 && RecordCommits(s.db, s.tasks[e.i].op.write) && !s.tasks[e.i].op.write.status.Unclear?
              then 1 else 0)
  {
    if e.Advance? {
      assert OpShape(s.tasks[e.i].op, s.db);
      if s.tasks[e.i].op.EndBuilt? {
        WriteRows(s.db.audit, s.tasks[e.i].op.write, sid);
      } else {
        var row := StatementLog(s, e.i, e.ok);
        RowCounts(s.db.audit, row, sid);
      }
    }
  }

  /** How one event may change one session's row. */
  lemma SessionStep(s: Sys, e: Event, sid: nat)
    requires Shape(s) && Enabled(s, e) && sid < |s.db.sessions|
    ensures var s' := Apply(s, e); var x := s.db.sessions[sid];
      && sid < |s'.db.sessions|
      && var x' := s'.db.sessions[sid];
         || x' == x
         || (e.Assign? && e.sid == sid && x' == Bind(x, e.call, s.now))
         || (e.EditTimer? && e.sid == sid && x' == x.(timer := Some(e.at)))
         || (e.Advance? && s.tasks[e.i].op == CaptureRead(sid) && !x.status.Recovered?
             && x' == x.(status := Recovered, timer := None))
         || (e.Advance? && s.tasks[e.i].op.EndBuilt? && s.tasks[e.i].op.write.sid == sid
             && RecordCommits(s.db, s.tasks[e.i].op.write) && WriteShape(s.tasks[e.i].op.write)
             && x' == ApplyWrite(x, s.tasks[e.i].op.write))
  {
    if e.Advance? {
      assert OpShape(s.tasks[e.i].op, s.db);
    }
  }

  /** A row that appears in one event appears pending and uncalled. */
  lemma NewRowStep(s: Sys, e: Event, sid: nat)
    requires Enabled(s, e) && |s.db.sessions| <= sid < |Apply(s, e).db.sessions|
    ensures sid == |s.db.sessions|
    ensures var x := Apply(s, e).db.sessions[sid];
      x.status.Pending? && x.attempts == 0 && x.maxAttempts == DEFAULT_MAX_ATTEMPTS
      && x.link.None? && x.timer == Some(s.now) && x.callStarted.None? && x.created == s.now
    ensures e.Advance? && (s.tasks[e.i].op.FailedChecked? || s.tasks[e.i].op.Loading?)
  {
  }

  /** Winning the UPDATE is the only way to become recovered, and it leaves that delivery holding the row to write. */
  lemma RecoveredStep(s: Sys, e: Event, sid: nat)
    requires Shape(s) && Enabled(s, e)
    ensures IsRecovered(Apply(s, e).db, sid) == IsRecovered(s.db, sid)
      + (if e.Advance? && s.tasks[e.i].op == CaptureRead(sid) && MarkChanges(s.db, sid) then 1 else 0)
  {
    if sid < |s.db.sessions| {
      SessionStep(s, e, sid);
    } else {
      if e.Advance? { assert OpShape(s.tasks[e.i].op, s.db); }
      if sid < |Apply(s, e).db.sessions| { NewRowStep(s, e, sid); }
    }
  }

  lemma CaptureBalanceStep(s: Sys, e: Event, sid: nat)
    requires Shape(s) && Enabled(s, e) && CaptureBalance(s, sid)
    ensures CaptureBalance(Apply(s, e), sid)
  {
    RecoveredStep(s, e, sid);
    TaskSum(s, e, MarkedTask(sid));
    AuditStep(s, e, sid);
  }

  // ---------- every call is logged ----------

  ghost function ClaimedTask(sid: nat): Task -> nat
  {
    (t: Task) => if t.op.AssignClaimed? && t.op.sid == sid then 1 else 0
  }

  /** Every call is either in the log or held by the one request that has claimed it and not logged it. */
  ghost predicate AssignBalance(s: Sys, sid: nat)
  {
    AssignedRows(s.db, sid) + Sum(s.tasks, ClaimedTask(sid))
    == if sid < |s.db.sessions| then s.db.sessions[sid].attempts else 0
  }

  lemma AttemptsStep(s: Sys, e: Event, sid: nat)
    requires Shape(s) && Enabled(s, e)
    ensures var s' := Apply(s, e);
      (if sid < |s'.db.sessions| then s'.db.sessions[sid].attempts else 0)
      == (if sid < |s.db.sessions| then s.db.sessions[sid].attempts else 0)
         + (if e.Assign? && e.sid == sid then 1 else 0)
  {
    if sid < |s.db.sessions| {
      SessionStep(s, e, sid);
    } else if sid < |Apply(s, e).db.sessions| {
      NewRowStep(s, e, sid);
    }
  }

  lemma AssignBalanceStep(s: Sys, e: Event, sid: nat)
    requires Shape(s) && Enabled(s, e) && AssignBalance(s, sid)
    ensures AssignBalance(Apply(s, e), sid)
  {
    AttemptsStep(s, e, sid);
    TaskSum(s, e, ClaimedTask(sid));
    AuditStep(s, e, sid);
  }

  // ---------- attempts and settled outcomes ----------

  ghost predicate SettledBound(s: Sys, sid: nat)
  {
    if sid < |s.db.sessions| then
      var x := s.db.sessions[sid];
      && x.attempts <= x.maxAttempts
      && SettledRows(s.db, sid) + (if OutcomeRecordableFrom(x.status) then 1 else 0) <= x.attempts
    else
      SettledRows(s.db, sid) == 0
  }

  lemma SettledBoundStep(s: Sys, e: Event, sid: nat)
    requires Shape(s) && Enabled(s, e) && SettledBound(s, sid)
    ensures SettledBound(Apply(s, e), sid)
  {
    var s' := Apply(s, e);
    AuditStep(s, e, sid);
    if sid < |s.db.sessions| {
      SessionStep(s, e, sid);
    } else {
      if e.Advance? { assert OpShape(s.tasks[e.i].op, s.db); }
      if sid < |s'.db.sessions| { NewRowStep(s, e, sid); }
    }
  }

  // ---------- termination measure ----------

  function Rank(st: Status): nat
  {
    match st
    case Active => 3
    case Unclear => 2
    case Recovered => 0
    case _ => 1
  }

  function Measure(x: Session): nat
    requires x.attempts <= x.maxAttempts
  {
    4 * (x.maxAttempts - x.attempts) + Rank(x.status)
  }

  /** A step either keeps the status, the attempts and the budget, or strictly lowers the measure. */
  lemma StatusChangeLowersMeasure(s: Sys, e: Event, sid: nat)
    requires Shape(s) && Enabled(s, e) && sid < |s.db.sessions| && SettledBound(s, sid)
    ensures var x, s' := s.db.sessions[sid], Apply(s, e);
      && SettledBound(s', sid)
      && sid < |s'.db.sessions|
      && var x' := s'.db.sessions[sid];
         && x'.maxAttempts == x.maxAttempts
         && x'.attempts == x.attempts + (if e.Assign? && e.sid == sid then 1 else 0)
         && Measure(x') <= Measure(x)
         && (x'.status != x.status ==> Measure(x') < Measure(x))
  {
    SettledBoundStep(s, e, sid);
    SessionStep(s, e, sid);
  }

  // ---------- stopped means stopped ----------

  /** Whatever the timers say: no step leaves the stopped statuses, and no assignment takes one. */
  lemma StoppedStaysStopped(s: Sys, e: Event, sid: nat)
    requires Shape(s) && Enabled(s, e) && sid < |s.db.sessions| && Stopped(s.db.sessions[sid].status)
    ensures sid < |Apply(s, e).db.sessions| && Stopped(Apply(s, e).db.sessions[sid].status)
    ensures Apply(s, e).db.sessions[sid].attempts == s.db.sessions[sid].attempts
    ensures !(e.Assign? && e.sid == sid)
  {
    SessionStep(s, e, sid);
  }

  lemma TimersAgreeStep(s: Sys, e: Event)
    requires Shape(s) && Enabled(s, e) && TimersAgree(s.db) && !e.EditTimer?
    ensures TimersAgree(Apply(s, e).db)
  {
    var s' := Apply(s, e);
    forall i | 0 <= i < |s'.db.sessions|
      ensures s'.db.sessions[i].timer.None? <==> Stopped(s'.db.sessions[i].status)
    {
      if i < |s.db.sessions| { SessionStep(s, e, i); } else { NewRowStep(s, e, i); }
    }
  }

  // ---------- link lifetime ----------

  ghost predicate LinkCovered(s: Sys, x: Session)
  {
    x.link.Some? ==>
      && x.link.value < |s.links|
      && (OutcomeRecordableFrom(x.status) ==> s.links[x.link.value] <= s.now)
      && (!OutcomeRecordableFrom(x.status) && !Stopped(x.status) ==>
            s.links[x.link.value] <= s.now || (x.timer.Some? && s.links[x.link.value] <= x.timer.value))
  }

  predicate LinkTaskCovered(op: Op, links: seq<Time>, now: Time)
  {
    && (op.EndLinked? ==> op.link < |links| && links[op.link] <= now + FOLLOW_UP_COOLDOWN)
    && (op.EndBuilt? && op.write.link.Some? ==>
          && op.write.link.value < |links| && op.write.timer.Some?
          && links[op.write.link.value] <= op.write.timer.value)
  }

  ghost predicate LinksCovered(s: Sys)
  {
    && (forall i :: 0 <= i < |s.db.sessions| ==> LinkCovered(s, s.db.sessions[i]))
    && (forall i :: 0 <= i < |s.tasks| ==> LinkTaskCovered(s.tasks[i].op, s.links, s.now))
  }

  lemma LinksOnlyGrow(s: Sys, e: Event)
    requires Enabled(s, e)
    ensures s.links <= Apply(s, e).links && s.now <= Apply(s, e).now
  {
  }

  lemma LinkStatement(s: Sys, i: nat, ok: bool)
    requires i < |s.tasks| && !s.tasks[i].op.Done? && LinkTaskCovered(s.tasks[i].op, s.links, s.now)
    ensures LinkTaskCovered(Statement(s, i, ok).tasks[i].op, Statement(s, i, ok).links, s.now)
  {
  }

  lemma LinkTaskStep(s: Sys, e: Event, i: nat)
    requires Shape(s) && Enabled(s, e) && LinksCovered(s) && i < |Apply(s, e).tasks|
    ensures LinkTaskCovered(Apply(s, e).tasks[i].op, Apply(s, e).links, Apply(s, e).now)
  {
    LinksOnlyGrow(s, e);
    if i < |s.tasks| {
      assert LinkTaskCovered(s.tasks[i].op, s.links, s.now);
      if e.Advance? && e.i == i { LinkStatement(s, i, e.ok); }
    }
  }

  lemma LinkRowStep(s: Sys, e: Event, i: nat)
    requires Shape(s) && Enabled(s, e) && LinksCovered(s) && !e.EditTimer? && i < |Apply(s, e).db.sessions|
    ensures LinkCovered(Apply(s, e), Apply(s, e).db.sessions[i])
  {
    LinksOnlyGrow(s, e);
    if i < |s.db.sessions| {
      assert LinkCovered(s, s.db.sessions[i]);
      SessionStep(s, e, i);
      if e.Advance? { assert LinkTaskCovered(s.tasks[e.i].op, s.links, s.now); }
    } else {
      NewRowStep(s, e, i);
    }
  }

  lemma LinksCoveredStep(s: Sys, e: Event)
    requires Shape(s) && Enabled(s, e) && LinksCovered(s) && !e.EditTimer?
    ensures LinksCovered(Apply(s, e))
  {
    var s' := Apply(s, e);
    forall i | 0 <= i < |s'.db.sessions| ensures LinkCovered(s', s'.db.sessions[i]) {
      LinkRowStep(s, e, i);
    }
    forall i | 0 <= i < |s'.tasks| ensures LinkTaskCovered(s'.tasks[i].op, s'.links, s'.now) {
      LinkTaskStep(s, e, i);
    }
  }

  // ---------- unique indexes and campaign totals ----------

  /** Two rows share no payment id, call id or link. */
  predicate Apart(x: Session, y: Session)
  {
    && (x.payment.Some? ==> x.payment != y.payment)
    && (x.call.Some? ==> x.call != y.call)
    && (x.link.Some? ==> x.link != y.link)
  }

  ghost predicate Unique(db: Db)
  {
    forall i, j :: 0 <= i < j < |db.sessions| ==> Apart(db.sessions[i], db.sessions[j])
  }

  lemma ApartStep(s: Sys, e: Event, i: nat, j: nat)
    requires Shape(s) && Enabled(s, e) && Unique(s.db) && i < j < |Apply(s, e).db.sessions|
    ensures Apart(Apply(s, e).db.sessions[i], Apply(s, e).db.sessions[j])
  {
    if e.Advance? { assert OpShape(s.tasks[e.i].op, s.db); }
    if j < |s.db.sessions| {
      SessionStep(s, e, j);
    } else {
      NewRowStep(s, e, j);
    }
    SessionStep(s, e, i);
  }

  lemma UniqueStep(s: Sys, e: Event)
    requires Shape(s) && Enabled(s, e) && Unique(s.db)
    ensures Unique(Apply(s, e).db)
  {
    forall i, j | 0 <= i < j < |Apply(s, e).db.sessions|
      ensures Apart(Apply(s, e).db.sessions[i], Apply(s, e).db.sessions[j])
    {
      ApartStep(s, e, i, j);
    }
  }

  /** A session inserted by a webhook whose campaign total has not been incremented. */
  ghost function Uncounted(c: nat): Task -> nat
  {
    (t: Task) => if t.op.FailedInserted? && t.op.campaign == c then 1 else 0
  }

  /** Accounts a load has announced in the total but not inserted. */
  ghost function Unloaded(c: nat): Task -> nat
  {
    (t: Task) =>
      if (t.op.Loading? || t.op.LoadInserted?) && t.op.campaign == c then |t.op.rest| else 0
  }

  ghost predicate TotalBalance(s: Sys, c: nat)
  {
    c < |s.db.campaigns| ==>
      s.db.campaigns[c].total + Sum(s.tasks, Uncounted(c))
      == Sum(s.db.sessions, InCampaign(c)) + Sum(s.tasks, Unloaded(c))
  }

  lemma SessionSum(s: Sys, e: Event, c: nat)
    requires Shape(s) && Enabled(s, e)
    ensures var s' := Apply(s, e);
      Sum(s'.db.sessions, InCampaign(c)) == Sum(s.db.sessions, InCampaign(c))
        + (if |s'.db.sessions| > |s.db.sessions| && s'.db.sessions[|s.db.sessions|].campaign == c then 1 else 0)
  {
    var s' := Apply(s, e);
    if |s'.db.sessions| > |s.db.sessions| {
      var n := |s.db.sessions|;
      NewRowStep(s, e, n);
      assert s'.db.sessions == s.db.sessions + [s'.db.sessions[n]];
      SumAppend(s.db.sessions, s'.db.sessions[n], InCampaign(c));
    } else {
      forall i | 0 <= i < |s.db.sessions|
        ensures i < |s'.db.sessions| && s'.db.sessions[i].campaign == s.db.sessions[i].campaign
      {
        SessionStep(s, e, i);
      }
      SumSame(s.db.sessions, s'.db.sessions, InCampaign(c));
    }
  }

  lemma NothingInUnknownCampaign(s: Sys, c: nat)
    requires Shape(s) && c >= |s.db.campaigns|
    ensures Sum(s.db.sessions, InCampaign(c)) == Sum(s.tasks, Uncounted(c)) == Sum(s.tasks, Unloaded(c)) == 0
  {
    forall i | 0 <= i < |s.tasks| ensures Uncounted(c)(s.tasks[i]) == Unloaded(c)(s.tasks[i]) == 0 {
      assert OpShape(s.tasks[i].op, s.db);
    }
    SumZero(s.tasks, Uncounted(c));
    SumZero(s.tasks, Unloaded(c));
    SumZero(s.db.sessions, InCampaign(c));
  }

  /** How one event moves a campaign's total column. */
  lemma TotalColumnStep(s: Sys, e: Event, c: nat)
    requires Enabled(s, e) && c < |s.db.campaigns|
    ensures var s' := Apply(s, e);
      c < |s'.db.campaigns| && s'.db.campaigns[c].total == s.db.campaigns[c].total
        + (if e.Advance? then Uncounted(c)(s.tasks[e.i]) else 0)
  {
  }

  /** One statement moves exactly as much between a task and the table as it inserts. */
  lemma StatementBalance(s: Sys, i: nat, ok: bool, c: nat)
    requires Enabled(s, Advance(i, ok))
    ensures var s' := Apply(s, Advance(i, ok)); var t, t' := s.tasks[i], s'.tasks[i];
      Uncounted(c)(t') + Unloaded(c)(t)
      == Unloaded(c)(t') + (if |s'.db.sessions| > |s.db.sessions|
                              && s'.db.sessions[|s.db.sessions|].campaign == c then 1 else 0)
  {
  }

  /** A new load announces in the total exactly what it has yet to insert. */
  lemma NewLoadBalance(s: Sys, accounts: seq<Account>)
    requires Shape(s) && accounts != []
    ensures TotalBalance(Apply(s, BeginLoad(accounts)), |s.db.campaigns|)
  {
    var c, e := |s.db.campaigns|, BeginLoad(accounts);
    NothingInUnknownCampaign(s, c);
    TaskSum(s, e, Uncounted(c));
    TaskSum(s, e, Unloaded(c));
  }

  /** Outside a task's own statement nothing else moves the balance. */
  lemma OtherBalance(s: Sys, e: Event, c: nat)
    requires Shape(s) && Enabled(s, e) && !e.Advance? && TotalBalance(s, c) && c < |s.db.campaigns|
    ensures TotalBalance(Apply(s, e), c)
  {
    TotalColumnStep(s, e, c);
    SessionSum(s, e, c);
    TaskSum(s, e, Uncounted(c));
    TaskSum(s, e, Unloaded(c));
  }

  lemma TotalBalanceStep(s: Sys, e: Event, c: nat)
    requires Shape(s) && Enabled(s, e) && TotalBalance(s, c)
    ensures TotalBalance(Apply(s, e), c)
  {
    if !e.Advance? {
      if c < |s.db.campaigns| { OtherBalance(s, e, c); }
      else if e.BeginLoad? { NewLoadBalance(s, e.accounts); }
    } else {
      assert |Apply(s, e).db.campaigns| == |s.db.campaigns|;
      if c < |s.db.campaigns| {
        TotalColumnStep(s, e, c);
        SessionSum(s, e, c);
        TaskSum(s, e, Uncounted(c));
        TaskSum(s, e, Unloaded(c));
        StatementBalance(s, e.i, e.ok, c);
      }
    }
  }
}
