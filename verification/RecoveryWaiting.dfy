/**
 * How long an overdue session can wait, over every interleaving: what moves
 * it in the assignment queue, and how many calls can come before its own.
 */
module RecoveryWaiting {
  import opened Basics
  import opened RecoveryModel
  import opened RecoverySteps
  import opened RecoveryInvariants
  import opened RecoveryTheorems

  /** Sessions that the queue orders at or before `x`, in active campaigns, due or not. */
  ghost function AtOrBefore(campaigns: seq<Campaign>, x: Session): Session -> nat
  {
    (y: Session) =>
      if y.campaign < |campaigns| && campaigns[y.campaign].status.Running?
         && StillContactable(y) && x.timer.Some? && NotAfter(y, x)
      then 1 else 0
  }

  ghost function QueuePosition(db: Db, sid: nat): nat
    requires sid < |db.sessions|
  {
    Sum(db.sessions, AtOrBefore(db.campaigns, db.sessions[sid]))
  }

  /** Due strictly before now, in an active campaign. */
  ghost predicate Overdue(db: Db, sid: nat, now: Time)
  {
    Assignable(db, sid, now) && db.sessions[sid].timer.value < now
  }

  /** A waiting session counts itself. */
  lemma CountsItself(db: Db, sid: nat, now: Time)
    requires Assignable(db, sid, now)
    ensures QueuePosition(db, sid) >= 1
  {
    assert AtOrBefore(db.campaigns, db.sessions[sid])(db.sessions[sid]) == 1;
    SumAtLeast(db.sessions, sid, AtOrBefore(db.campaigns, db.sessions[sid]));
  }

  /** No hand edit of a timer or of a campaign. */
  predicate NoEdit(e: Event)
  {
    !e.EditTimer? && !e.EditCampaign?
  }

  // ---------- one event ----------

  /** The session whose row an event may rewrite. */
  function Target(s: Sys, e: Event): Option<nat>
    requires e.Advance? ==> e.i < |s.tasks|
  {
    match e
    case Assign(_, k) => Some(k)
    case Advance(i, _) =>
      (match s.tasks[i].op
       case CaptureRead(k) => Some(k)
       case EndBuilt(w) => Some(w.sid)
       case _ => None)
    case _ => None
  }

  /** What row k counts for under `f`, if it is there. */
  ghost function CountAt(rows: seq<Session>, k: Option<nat>, f: Session -> nat): nat
  {
    if k.Some? && k.value < |rows| then f(rows[k.value]) else 0
  }

  lemma CampaignsStay(s: Sys, e: Event)
    requires Enabled(s, e) && NoEdit(e)
    ensures |s.db.campaigns| <= |Apply(s, e).db.campaigns|
    ensures forall c :: 0 <= c < |s.db.campaigns| ==>
      Apply(s, e).db.campaigns[c].status == s.db.campaigns[c].status
  {
  }

  lemma RowStays(s: Sys, e: Event, i: nat)
    requires Shape(s) && Enabled(s, e) && NoEdit(e) && i < |s.db.sessions| && Target(s, e) != Some(i)
    ensures i < |Apply(s, e).db.sessions| && Apply(s, e).db.sessions[i] == s.db.sessions[i]
  {
    SessionStep(s, e, i);
  }

  /** An event adds one row due now, or rewrites its target's row, or leaves the table alone. */
  lemma OnlyTargetChanges(s: Sys, e: Event)
    requires Shape(s) && Enabled(s, e) && NoEdit(e)
    ensures var rows, rows', k := s.db.sessions, Apply(s, e).db.sessions, Target(s, e);
      if |rows'| > |rows| then k.None? && rows' == rows + [rows'[|rows|]] && rows'[|rows|].timer == Some(s.now)
      else if k.Some? && k.value < |rows| then k.value < |rows'| && rows' == rows[k.value := rows'[k.value]]
      else rows' == rows
  {
    var rows, rows', k := s.db.sessions, Apply(s, e).db.sessions, Target(s, e);
    forall i | 0 <= i < |rows| && k != Some(i) ensures i < |rows'| && rows'[i] == rows[i] { RowStays(s, e, i); }
    if |rows'| > |rows| {
      NewRowStep(s, e, |rows|);
    } else if k.Some? && k.value < |rows| {
      SessionStep(s, e, k.value);
    }
  }

  lemma OneRowSum(rows: seq<Session>, rows': seq<Session>, k: Option<nat>, f: Session -> nat)
    requires
      if |rows'| > |rows| then k.None? && rows' == rows + [rows'[|rows|]] && f(rows'[|rows|]) == 0
      else if k.Some? && k.value < |rows| then k.value < |rows'| && rows' == rows[k.value := rows'[k.value]]
      else rows' == rows
    ensures Sum(rows', f) + CountAt(rows, k, f) == Sum(rows, f) + CountAt(rows', k, f)
  {
    if |rows'| > |rows| {
      SumAppend(rows, rows'[|rows|], f);
    } else if k.Some? && k.value < |rows| {
      SumUpdate(rows, k.value, rows'[k.value], f);
    }
  }

  /** The rows after an event, as a sum: only the target's row counts differently, and a new row does not count. */
  lemma RowsSum(s: Sys, e: Event, x: Session)
    requires Shape(s) && Enabled(s, e) && NoEdit(e) && x.timer.Some? && x.timer.value < s.now
    ensures var s' := Apply(s, e); var f, k := AtOrBefore(s.db.campaigns, x), Target(s, e);
      Sum(s'.db.sessions, f) + CountAt(s.db.sessions, k, f) == Sum(s.db.sessions, f) + CountAt(s'.db.sessions, k, f)
  {
    OnlyTargetChanges(s, e);
    OneRowSum(s.db.sessions, Apply(s, e).db.sessions, Target(s, e), AtOrBefore(s.db.campaigns, x));
  }

  /** How one event moves an overdue session in the queue. */
  lemma PositionStep(s: Sys, e: Event, sid: nat, since: Time)
    requires Shape(s) && Enabled(s, e) && NoEdit(e) && Overdue(s.db, sid, since) && since <= s.now
    requires Unmoved(s, e, sid)
    ensures var s' := Apply(s, e); var f, k := AtOrBefore(s.db.campaigns, s.db.sessions[sid]), Target(s, e);
      && QueuePosition(s'.db, sid) + CountAt(s.db.sessions, k, f)
           == QueuePosition(s.db, sid) + CountAt(s'.db.sessions, k, f)
      && Overdue(s'.db, sid, since)
  {
    var s', x := Apply(s, e), s.db.sessions[sid];
    var f, f' := AtOrBefore(s.db.campaigns, x), AtOrBefore(s'.db.campaigns, x);
    CampaignsStay(s, e);
    RowsSum(s, e, x);
    forall i | 0 <= i < |s'.db.sessions| ensures f(s'.db.sessions[i]) == f'(s'.db.sessions[i]) {
      if i < |s.db.sessions| { SessionStep(s, e, i); } else { NewRowStep(s, e, i); }
    }
    SumAgree(s'.db.sessions, f, f');
  }

  /** The event leaves the session's row as it was. */
  ghost predicate Unmoved(s: Sys, e: Event, sid: nat)
    requires Enabled(s, e)
  {
    sid < |s.db.sessions| && sid < |Apply(s, e).db.sessions| && Apply(s, e).db.sessions[sid] == s.db.sessions[sid]
  }

  /** The event commits an outcome that puts a session not counted before at or before `x`. */
  ghost predicate Overtakes(s: Sys, e: Event, x: Session)
    requires Enabled(s, e)
  {
    && e.Advance? && s.tasks[e.i].op.EndBuilt?
    && var w := s.tasks[e.i].op.write;
       && RecordCommits(s.db, w)
       && var y := s.db.sessions[w.sid];
          && InActiveCampaign(s.db, y) && y.attempts < y.maxAttempts
          && w.timer.Some? && x.timer.Some? && NotAfter(ApplyWrite(y, w), x)
          && (StillContactable(y) ==> !NotAfter(y, x))
  }

  /** A waiting session moves back in the queue exactly when an outcome commits a follow-up that sorts before it. */
  lemma OvertakenExactly(s: Sys, e: Event, sid: nat, since: Time)
    requires Shape(s) && Enabled(s, e) && NoEdit(e) && Overdue(s.db, sid, since) && since <= s.now
    requires Unmoved(s, e, sid)
    ensures QueuePosition(Apply(s, e).db, sid) > QueuePosition(s.db, sid)
      <==> Overtakes(s, e, s.db.sessions[sid])
  {
    PositionStep(s, e, sid, since);
    if e.Advance? { assert OpShape(s.tasks[e.i].op, s.db); }
  }

  // ---------- old writes ----------

  /** A write in flight that would set a follow-up at or before `t`. */
  ghost function OldWrite(t: Time): Task -> nat
  {
    (task: Task) =>
      if task.live && task.op.EndBuilt? && task.op.write.timer.Some? && task.op.write.timer.value <= t then 1 else 0
  }

  ghost function OldWrites(s: Sys, t: Time): nat
  {
    Sum(s.tasks, OldWrite(t))
  }

  /** A write built now is not old; an old one is spent when it is committed or fails. */
  lemma OldWritesStep(s: Sys, e: Event, t: Time)
    requires Enabled(s, e) && t < s.now
    ensures OldWrites(Apply(s, e), t) + (if e.Advance? then OldWrite(t)(s.tasks[e.i]) else 0) <= OldWrites(s, t)
  {
    TaskSum(s, e, OldWrite(t));
  }

  /** A claim moves the session forward; only the commit of an old write can move it back. */
  lemma WaitingStep(s: Sys, e: Event, sid: nat, since: Time)
    requires Shape(s) && Enabled(s, e) && NoEdit(e) && Overdue(s.db, sid, since) && since <= s.now
    requires Unmoved(s, e, sid)
    ensures var s', t := Apply(s, e), s.db.sessions[sid].timer.value;
      && QueuePosition(s'.db, sid) + OldWrites(s', t) + (if e.Assign? then 1 else 0)
           <= QueuePosition(s.db, sid) + OldWrites(s, t)
      && Overdue(s'.db, sid, since)
  {
    var t := s.db.sessions[sid].timer.value;
    PositionStep(s, e, sid, since);
    OldWritesStep(s, e, t);
    TargetStep(s, e, sid, since);
  }

  lemma TargetStep(s: Sys, e: Event, sid: nat, since: Time)
    requires Shape(s) && Enabled(s, e) && NoEdit(e) && Overdue(s.db, sid, since) && since <= s.now
    requires Unmoved(s, e, sid)
    ensures var s', x := Apply(s, e), s.db.sessions[sid]; var f, k := AtOrBefore(s.db.campaigns, x), Target(s, e);
      CountAt(s'.db.sessions, k, f) + (if e.Assign? then 1 else 0)
      <= CountAt(s.db.sessions, k, f) + (if e.Advance? then OldWrite(x.timer.value)(s.tasks[e.i]) else 0)
  {
    if e.Assign? {
      assert NotAfter(s.db.sessions[e.sid], s.db.sessions[sid]);
    }
    if e.Advance? { assert OpShape(s.tasks[e.i].op, s.db); }
  }

  // ---------- whole runs ----------

  /** Claims among events[i..j]. */
  ghost function Claims(events: seq<Event>, i: nat, j: nat): nat
    requires i <= j <= |events|
    decreases j
  {
    if i == j then 0 else Claims(events, i, j - 1) + (if events[j - 1].Assign? then 1 else 0)
  }

  /** Between states i and j no hand edit is made, and the session's row stays as it is. */
  ghost predicate LeftAlone(states: seq<Sys>, events: seq<Event>, i: nat, j: nat, sid: nat)
    requires i <= j <= |events| < |states|
  {
    && (forall k :: i <= k < j ==> NoEdit(events[k]))
    && (forall k :: i <= k <= j ==>
          sid < |states[i].db.sessions| && sid < |states[k].db.sessions|
          && states[k].db.sessions[sid] == states[i].db.sessions[sid])
  }

  lemma {:induction false} WaitingRun(states: seq<Sys>, events: seq<Event>, i: nat, j: nat, sid: nat)
    requires IsExecution(states, events) && i <= j <= |events| && Shape(states[i])
    requires Overdue(states[i].db, sid, states[i].now) && LeftAlone(states, events, i, j, sid)
    ensures var t := states[i].db.sessions[sid].timer.value;
      Claims(events, i, j) + QueuePosition(states[j].db, sid) + OldWrites(states[j], t)
      <= QueuePosition(states[i].db, sid) + OldWrites(states[i], t)
    ensures Overdue(states[j].db, sid, states[i].now) && Shape(states[j]) && states[i].now <= states[j].now
    decreases j
  {
    if i < j {
      WaitingRun(states, events, i, j - 1, sid);
      var s, e := states[j - 1], events[j - 1];
      assert Step(s, e, states[j]) && NoEdit(e);
      ShapeStep(s, e);
      LinksOnlyGrow(s, e);
      WaitingStep(s, e, sid, states[i].now);
    }
  }

  /**
   * Under any interleaving and failed writes, while an overdue session at
   * position p is left alone and q outcomes with an earlier follow-up are in
   * flight, fewer than p + q calls can be claimed before its own.
   */
  lemma NoStarvationOverlapping(states: seq<Sys>, events: seq<Event>, i: nat, j: nat, sid: nat)
    requires IsRun(states, events) && i <= j <= |events|
    requires Overdue(states[i].db, sid, states[i].now) && LeftAlone(states, events, i, j, sid)
    ensures var t := states[i].db.sessions[sid].timer.value;
      Claims(events, i, j) < QueuePosition(states[i].db, sid) + OldWrites(states[i], t)
    ensures Overdue(states[j].db, sid, states[i].now)
  {
    RunInv(states, events, i);
    WaitingRun(states, events, i, j, sid);
    CountsItself(states[j].db, sid, states[i].now);
  }
}
