/**
 * The two serial guarantees that overlapping requests can break, over every
 * interleaving: when they hold, and that the condition is exact.
 *
 * Both conditions are about what is in flight for a session at the moment it
 * is claimed for a call, so whoever claims it can check them beforehand.
 */
module RecoveryOverlap {
  import opened Basics
  import opened RecoveryModel
  import opened RecoverySteps
  import opened RecoveryInvariants
  import opened RecoverySerial
  import opened RecoveryTheorems
  import opened RecoverySchedules

  // ---------- an unclear session has a call left ----------

  /**
   * A commit leaves an unclear session with no call left exactly when it has
   * no verdict and a call was claimed between its read and its commit, the
   * session's last.
   */
  lemma CommitOverspends(db: Db, sid: nat, attempts: nat, maxAttempts: nat, outcome: Outcome, promise: DateText,
                         link: Option<nat>, at: Time)
    requires outcome.Agreed? ==> link.Some?
    requires RecordCommits(db, BuildWrite(sid, attempts, maxAttempts, outcome, promise, link, at))
    requires attempts <= db.sessions[sid].attempts <= maxAttempts == db.sessions[sid].maxAttempts
    ensures var w := BuildWrite(sid, attempts, maxAttempts, outcome, promise, link, at);
      var x := RecordOutcome(db, w).sessions[sid];
      x.status.Unclear? && x.attempts == x.maxAttempts
      <==> outcome.Unclassified? && attempts < db.sessions[sid].attempts == maxAttempts
  {
  }

  /** An end of call that will be, or has been, built as unclear. */
  predicate UnclearBound(op: Op, sid: nat)
  {
    match op
    case EndRead(k, attempts, maxAttempts, outcome, _) =>
      k == sid && outcome.Unclassified? && attempts < maxAttempts
    case EndBuilt(w) => w.sid == sid && w.status.Unclear?
    case _ => false
  }

  ghost predicate UnclearInFlight(s: Sys, sid: nat)
  {
    exists i :: 0 <= i < |s.tasks| && s.tasks[i].live && UnclearBound(s.tasks[i].op, sid)
  }

  predicate TakesLastCall(s: Sys, sid: nat)
  {
    sid < |s.db.sessions| && s.db.sessions[sid].attempts + 1 == s.db.sessions[sid].maxAttempts
  }

  /** An unclear session that can never be called again. */
  predicate Overspent(s: Sys, sid: nat)
  {
    && sid < |s.db.sessions| && s.db.sessions[sid].status.Unclear?
    && s.db.sessions[sid].attempts == s.db.sessions[sid].maxAttempts
  }

  /** The last call is taken, and nothing in flight or recorded says unclear. */
  ghost predicate LastCallClean(s: Sys, sid: nat)
  {
    && sid < |s.db.sessions| && s.db.sessions[sid].attempts == s.db.sessions[sid].maxAttempts
    && !s.db.sessions[sid].status.Unclear? && !UnclearInFlight(s, sid)
  }

  lemma LastCallCleanStep(s: Sys, e: Event, sid: nat)
    requires Shape(s) && Enabled(s, e) && LastCallClean(s, sid)
    ensures LastCallClean(Apply(s, e), sid)
  {
    var s' := Apply(s, e);
    SessionStep(s, e, sid);
    forall i | 0 <= i < |s'.tasks| && s'.tasks[i].live ensures !UnclearBound(s'.tasks[i].op, sid) {
      if i < |s.tasks| { assert s'.tasks[i].live ==> s.tasks[i].live; }
    }
    if e.Advance? { assert !UnclearBound(s.tasks[e.i].op, sid); }
  }

  lemma LastClaimIsClean(s: Sys, call: string, sid: nat)
    requires Enabled(s, Assign(call, sid)) && TakesLastCall(s, sid) && !UnclearInFlight(s, sid)
    ensures LastCallClean(Apply(s, Assign(call, sid)), sid)
  {
    var s' := Apply(s, Assign(call, sid));
    forall i | 0 <= i < |s'.tasks| && s'.tasks[i].live ensures !UnclearBound(s'.tasks[i].op, sid) {
      if i < |s.tasks| { assert s'.tasks[i] == s.tasks[i]; }
    }
  }

  /** Among the first n events, no claim of the session's last call finds an unclear end of call in flight. */
  ghost predicate LastClaimsClear(states: seq<Sys>, events: seq<Event>, sid: nat, n: nat)
    requires n <= |events| < |states|
  {
    forall k {:trigger events[k]} :: 0 <= k < n && events[k].Assign? && events[k].sid == sid ==>
      TakesLastCall(states[k], sid) ==> !UnclearInFlight(states[k], sid)
  }

  ghost predicate BudgetKept(s: Sys, sid: nat)
  {
    sid < |s.db.sessions| ==>
      || s.db.sessions[sid].attempts < s.db.sessions[sid].maxAttempts
      || LastCallClean(s, sid)
  }

  lemma BudgetStep(s: Sys, e: Event, sid: nat)
    requires Shape(s) && Enabled(s, e) && BudgetKept(s, sid)
    requires e.Assign? && e.sid == sid && TakesLastCall(s, sid) ==> !UnclearInFlight(s, sid)
    ensures BudgetKept(Apply(s, e), sid)
  {
    if sid >= |s.db.sessions| {
      if sid < |Apply(s, e).db.sessions| { NewRowStep(s, e, sid); }
    } else if LastCallClean(s, sid) {
      LastCallCleanStep(s, e, sid);
    } else if e.Assign? && e.sid == sid && TakesLastCall(s, sid) {
      LastClaimIsClean(s, e.call, sid);
    } else {
      SessionStep(s, e, sid);
    }
  }

  lemma {:induction false} BudgetRun(states: seq<Sys>, events: seq<Event>, n: nat, sid: nat)
    requires IsExecution(states, events) && n < |states| && LastClaimsClear(states, events, sid, n)
    requires Shape(states[0]) && BudgetKept(states[0], sid)
    ensures Shape(states[n]) && BudgetKept(states[n], sid)
  {
    if n > 0 {
      BudgetRun(states, events, n - 1, sid);
      assert Step(states[n - 1], events[n - 1], states[n]);
      ShapeStep(states[n - 1], events[n - 1]);
      BudgetStep(states[n - 1], events[n - 1], sid);
    }
  }

  /**
   * Under any interleaving, failed writes and timer edits, an unclear session
   * has a call left, as long as nobody claimed its last call over an unclear
   * end of call in flight.
   */
  lemma UnclearHasBudgetOverlapping(states: seq<Sys>, events: seq<Event>, n: nat, sid: nat)
    requires IsRun(states, events) && n < |states| && LastClaimsClear(states, events, sid, n)
    ensures !Overspent(states[n], sid)
  {
    BudgetRun(states, events, n, sid);
  }

  lemma {:induction false} CleanRun(states: seq<Sys>, events: seq<Event>, n: nat, sid: nat)
    requires IsExecution(states, events) && n < |states| && Shape(states[0]) && LastCallClean(states[0], sid)
    ensures Shape(states[n]) && LastCallClean(states[n], sid)
  {
    if n > 0 {
      CleanRun(states, events, n - 1, sid);
      assert Step(states[n - 1], events[n - 1], states[n]);
      ShapeStep(states[n - 1], events[n - 1]);
      LastCallCleanStep(states[n - 1], events[n - 1], sid);
    }
  }

  /** Some continuation of `s` leaves the session unclear with no call left. */
  ghost predicate CanOverspend(s: Sys, sid: nat)
  {
    exists states, events :: IsExecution(states, events) && states[0] == s && Overspent(states[|events|], sid)
  }

  /** The condition is exact: claiming the last call can end overspent exactly when an unclear end is in flight. */
  lemma LastClaimIsSafeExactly(s: Sys, call: string, sid: nat)
    requires Shape(s) && Enabled(s, Assign(call, sid)) && TakesLastCall(s, sid)
    ensures CanOverspend(Apply(s, Assign(call, sid)), sid) <==> UnclearInFlight(s, sid)
  {
    var s1 := Apply(s, Assign(call, sid));
    if UnclearInFlight(s, sid) {
      var i :| 0 <= i < |s.tasks| && s.tasks[i].live && UnclearBound(s.tasks[i].op, sid);
      UnclearLands(s1, i, sid);
    } else {
      ShapeStep(s, Assign(call, sid));
      LastClaimIsClean(s, call, sid);
      forall states, events | IsExecution(states, events) && states[0] == s1
        ensures !Overspent(states[|events|], sid)
      {
        CleanRun(states, events, |events|, sid);
      }
    }
  }

  /** Running the unclear end of call on an active session with no call left. */
  lemma UnclearLands(s: Sys, i: nat, sid: nat)
    requires i < |s.tasks| && s.tasks[i].live && UnclearBound(s.tasks[i].op, sid) && OpShape(s.tasks[i].op, s.db)
    requires sid < |s.db.sessions| && s.db.sessions[sid].status.Active?
    requires s.db.sessions[sid].attempts == s.db.sessions[sid].maxAttempts
    ensures CanOverspend(s, sid)
  {
    var e := Advance(i, true);
    var s1 := Apply(s, e);
    if s.tasks[i].op.EndBuilt? {
      var states, events := [s, s1], [e];
      assert IsExecution(states, events) && states[0] == s && Overspent(states[|events|], sid);
    } else {
      var s2 := Apply(s1, e);
      var states, events := [s, s1, s2], [e, e];
      assert IsExecution(states, events) && states[0] == s && Overspent(states[|events|], sid);
    }
  }

  // ---------- links never collide ----------

  function HeldLink(op: Op): Option<nat>
  {
    match op
    case EndLinked(_, _, _, _, link) => Some(link)
    case EndBuilt(w) => w.link
    case _ => None
  }

  predicate Issued(link: Option<nat>, links: seq<Time>)
  {
    link.Some? ==> link.value < |links|
  }

  /** A link is in at most one place, a task or a row. */
  ghost predicate LinksApart(s: Sys)
  {
    && (forall i :: 0 <= i < |s.tasks| ==> Issued(HeldLink(s.tasks[i].op), s.links))
    && (forall j :: 0 <= j < |s.db.sessions| ==> Issued(s.db.sessions[j].link, s.links))
    && (forall i, j :: 0 <= i < |s.tasks| && 0 <= j < |s.db.sessions| && HeldLink(s.tasks[i].op).Some? ==>
          s.db.sessions[j].link != HeldLink(s.tasks[i].op))
    && (forall i, j :: 0 <= i < j < |s.tasks| && HeldLink(s.tasks[i].op).Some? ==>
          HeldLink(s.tasks[i].op) != HeldLink(s.tasks[j].op))
  }

  /** Where a task's link comes from: it was held before, or the provider has just made it. */
  lemma HeldLinkStep(s: Sys, e: Event, i: nat)
    requires Enabled(s, e) && i < |Apply(s, e).tasks|
    ensures var s' := Apply(s, e); var after := HeldLink(s'.tasks[i].op);
      || after.None?
      || (i < |s.tasks| && after == HeldLink(s.tasks[i].op))
      || (after == Some(|s.links|) && e.Advance? && e.i == i && |s'.links| == |s.links| + 1
          && s'.db == s.db)
  {
  }

  /** Where a row's link comes from: it was there before, or a commit has just moved it out of its task. */
  lemma RowLinkStep(s: Sys, e: Event, j: nat)
    requires Shape(s) && Enabled(s, e) && j < |Apply(s, e).db.sessions|
    ensures var s' := Apply(s, e); var after := s'.db.sessions[j].link;
      || after.None?
      || (j < |s.db.sessions| && after == s.db.sessions[j].link)
      || (e.Advance? && after == HeldLink(s.tasks[e.i].op) && HeldLink(s'.tasks[e.i].op).None?)
  {
    if j < |s.db.sessions| { SessionStep(s, e, j); } else { NewRowStep(s, e, j); }
  }

  lemma LinksApartStep(s: Sys, e: Event)
    requires Shape(s) && Enabled(s, e) && LinksApart(s)
    ensures LinksApart(Apply(s, e))
  {
    var s' := Apply(s, e);
    LinksOnlyGrow(s, e);
    forall i | 0 <= i < |s'.tasks| ensures Issued(HeldLink(s'.tasks[i].op), s'.links) { HeldLinkStep(s, e, i); }
    forall j | 0 <= j < |s'.db.sessions| ensures Issued(s'.db.sessions[j].link, s'.links) { RowLinkStep(s, e, j); }
    forall i, j | 0 <= i < |s'.tasks| && 0 <= j < |s'.db.sessions| && HeldLink(s'.tasks[i].op).Some?
      ensures s'.db.sessions[j].link != HeldLink(s'.tasks[i].op)
    {
      HeldLinkStep(s, e, i);
      RowLinkStep(s, e, j);
    }
    forall i, j | 0 <= i < j < |s'.tasks| && HeldLink(s'.tasks[i].op).Some?
      ensures HeldLink(s'.tasks[i].op) != HeldLink(s'.tasks[j].op)
    {
      HeldLinkStep(s, e, i);
      HeldLinkStep(s, e, j);
    }
  }

  lemma {:induction false} LinksApartRun(states: seq<Sys>, events: seq<Event>, k: nat)
    requires IsRun(states, events) && k < |states|
    ensures LinksApart(states[k])
  {
    if k > 0 {
      LinksApartRun(states, events, k - 1);
      RunInv(states, events, k - 1);
      assert Step(states[k - 1], events[k - 1], states[k]);
      LinksApartStep(states[k - 1], events[k - 1]);
    }
  }

  /**
   * In no run does the unique index on links reject an outcome: it commits
   * exactly when the status still allows it, and is without effect otherwise.
   */
  lemma OnlyStatusRejectsOutcomes(states: seq<Sys>, events: seq<Event>, k: nat, i: nat, ok: bool)
    requires IsRun(states, events) && k < |states|
    requires Enabled(states[k], Advance(i, ok)) && states[k].tasks[i].op.EndBuilt?
    ensures var db, w, db' := states[k].db, states[k].tasks[i].op.write, Apply(states[k], Advance(i, ok)).db;
      && w.sid < |db.sessions|
      && if OutcomeRecordableFrom(db.sessions[w.sid].status)
         then db'.sessions[w.sid] == ApplyWrite(db.sessions[w.sid], w) && db'.audit == db.audit + Rows(w.sid, w.events)
         else db' == db
  {
    RunInv(states, events, k);
    assert OpShape(states[k].tasks[i].op, states[k].db);
    LinksApartRun(states, events, k);
    var w := states[k].tasks[i].op.write;
    assert HeldLink(states[k].tasks[i].op) == w.link;
  }

  // ---------- calls are spaced ----------

  /**
   * A commit sets a follow-up less than a day after the current call began
   * exactly when its cooldown was computed before that call, or when it
   * carries a day the customer named and both are less than a day after it.
   */
  lemma CommitTooEarly(db: Db, sid: nat, attempts: nat, maxAttempts: nat, outcome: Outcome, promise: DateText,
                       link: Option<nat>, at: Time)
    requires outcome.Agreed? ==> link.Some?
    requires RecordCommits(db, BuildWrite(sid, attempts, maxAttempts, outcome, promise, link, at))
    requires db.sessions[sid].callStarted.Some?
    ensures var w := BuildWrite(sid, attempts, maxAttempts, outcome, promise, link, at);
      var timer, began := RecordOutcome(db, w).sessions[sid].timer, db.sessions[sid].callStarted.value;
      timer.Some? && timer.value < began + FOLLOW_UP_COOLDOWN
      <==> if outcome.PromisedToPay? && promise.IsoDay?
           then at < began + DAY && promise.midnight < began + DAY
           else at < began && (outcome.Unclassified? ==> attempts < maxAttempts) && !outcome.RefusedToPay?
  {
  }

  /** A built end of call whose cooldown runs out less than a day after `began`. */
  predicate StaleFor(op: Op, sid: nat, began: Time)
  {
    && op.EndBuilt? && op.write.sid == sid && op.write.timer.Some?
    && op.write.timer.value < began + FOLLOW_UP_COOLDOWN && !op.write.promise.IsoDay?
  }

  ghost predicate StaleInFlight(s: Sys, sid: nat, began: Time)
  {
    exists i :: 0 <= i < |s.tasks| && s.tasks[i].live && StaleFor(s.tasks[i].op, sid, began)
  }

  /** The customer named a day that has come. */
  ghost predicate PromisedDayCame(db: Db, sid: nat, now: Time)
    requires sid < |db.sessions|
  {
    exists day :: WaitsForPromise(db, sid, day) && day <= now
  }

  lemma LastPromiseStep(s: Sys, e: Event, sid: nat)
    requires Shape(s) && Enabled(s, e)
    ensures LastPromise(Apply(s, e).db.audit, sid) ==
      if Commits(s, e, sid) && s.tasks[e.i].op.write.status.Promised? then Some(s.tasks[e.i].op.write.promise)
      else LastPromise(s.db.audit, sid)
  {
    LatestStep(s, e, sid, PromiseOf);
  }

  /** Off a call, the timer is a day after the last call began or at a promised day; nothing stale is in flight. */
  ghost predicate SpacingKept(s: Sys, sid: nat)
  {
    sid < |s.db.sessions| && s.db.sessions[sid].callStarted.Some? ==>
      var x := s.db.sessions[sid];
      && x.callStarted.value <= s.now
      && !StaleInFlight(s, sid, x.callStarted.value)
      && (x.timer.Some? && !x.status.Active? ==>
            || x.timer.value >= x.callStarted.value + FOLLOW_UP_COOLDOWN
            || PromisedDayCame(s.db, sid, x.timer.value))
  }

  /** A write built after the call began is not stale, and no other is new. */
  lemma StaleStep(s: Sys, e: Event, sid: nat, began: Time)
    requires Enabled(s, e) && began <= s.now && !StaleInFlight(s, sid, began)
    ensures !StaleInFlight(Apply(s, e), sid, began)
  {
    var s' := Apply(s, e);
    forall i | 0 <= i < |s'.tasks| && s'.tasks[i].live ensures !StaleFor(s'.tasks[i].op, sid, began) {
      if i < |s.tasks| && s.tasks[i].live { assert !StaleFor(s.tasks[i].op, sid, began); }
    }
  }

  lemma SpacingStep(s: Sys, e: Event, sid: nat)
    requires Shape(s) && Enabled(s, e) && !e.EditTimer? && SpacingKept(s, sid)
    requires e.Assign? && e.sid == sid ==> !StaleInFlight(s, sid, s.now)
    ensures SpacingKept(Apply(s, e), sid)
  {
    var s' := Apply(s, e);
    if sid >= |s.db.sessions| {
      if sid < |s'.db.sessions| { NewRowStep(s, e, sid); }
    } else {
      var x := s.db.sessions[sid];
      SessionStep(s, e, sid);
      LastPromiseStep(s, e, sid);
      if e.Assign? && e.sid == sid {
        StaleStep(s, e, sid, s.now);
      } else if x.callStarted.Some? {
        StaleStep(s, e, sid, x.callStarted.value);
        SpacingRow(s, e, sid);
      }
    }
  }

  lemma SpacingRow(s: Sys, e: Event, sid: nat)
    requires Shape(s) && Enabled(s, e) && !e.EditTimer? && !(e.Assign? && e.sid == sid) && SpacingKept(s, sid)
    requires sid < |s.db.sessions| && s.db.sessions[sid].callStarted.Some?
    ensures var s' := Apply(s, e);
      && sid < |s'.db.sessions|
      && var x, x' := s.db.sessions[sid], s'.db.sessions[sid];
         && x'.callStarted == x.callStarted
         && (x'.timer.Some? && !x'.status.Active? ==>
               || x'.timer.value >= x'.callStarted.value + FOLLOW_UP_COOLDOWN
               || PromisedDayCame(s'.db, sid, x'.timer.value))
  {
    var s' := Apply(s, e);
    var x := s.db.sessions[sid];
    SessionStep(s, e, sid);
    LastPromiseStep(s, e, sid);
    if Commits(s, e, sid) {
      var w := s.tasks[e.i].op.write;
      assert OpShape(s.tasks[e.i].op, s.db);
      assert !StaleFor(s.tasks[e.i].op, sid, x.callStarted.value);
      if w.promise.IsoDay? { assert WaitsForPromise(s'.db, sid, w.promise.midnight); }
    } else if x.timer.Some? && !x.status.Active? && PromisedDayCame(s.db, sid, x.timer.value) {
      var day :| WaitsForPromise(s.db, sid, day) && day <= x.timer.value;
      if s'.db.sessions[sid] == x { assert WaitsForPromise(s'.db, sid, day); }
    }
  }

  /** Among the first n events, no claim of the session finds a stale end of call in flight. */
  ghost predicate ClaimsFresh(states: seq<Sys>, events: seq<Event>, sid: nat, n: nat)
    requires n <= |events| < |states|
  {
    forall k {:trigger events[k]} :: 0 <= k < n && events[k].Assign? && events[k].sid == sid ==>
      !StaleInFlight(states[k], sid, states[k].now)
  }

  lemma {:induction false} SpacingRun(states: seq<Sys>, events: seq<Event>, n: nat, sid: nat)
    requires IsExecution(states, events) && Unedited(events) && n < |states| && ClaimsFresh(states, events, sid, n)
    requires Shape(states[0]) && SpacingKept(states[0], sid)
    ensures Shape(states[n]) && SpacingKept(states[n], sid)
  {
    if n > 0 {
      SpacingRun(states, events, n - 1, sid);
      assert Step(states[n - 1], events[n - 1], states[n]);
      ShapeStep(states[n - 1], events[n - 1]);
      SpacingStep(states[n - 1], events[n - 1], sid);
    }
  }

  /**
   * Under any interleaving and failed writes, two calls to one customer start
   * at least 24 hours apart, unless a day the customer named has come, as
   * long as no earlier claim was made over a stale end of call in flight.
   */
  lemma CallsAreSpacedOverlapping(states: seq<Sys>, events: seq<Event>, k: nat, sid: nat)
    requires IsRun(states, events) && Unedited(events) && k < |events|
    requires events[k].Assign? && events[k].sid == sid && ClaimsFresh(states, events, sid, k)
    ensures sid < |states[k].db.sessions|
    ensures var s, x := states[k], states[k].db.sessions[sid];
      x.callStarted.Some? ==>
        || s.now >= x.callStarted.value + 86400
        || PromisedDayCame(s.db, sid, s.now)
    ensures states[k + 1].db.sessions[sid].callStarted == Some(states[k].now)
  {
    SpacingRun(states, events, k, sid);
    assert Enabled(states[k], events[k]);
    var x := states[k].db.sessions[sid];
    if x.callStarted.Some? && PromisedDayCame(states[k].db, sid, x.timer.value) {
      var day :| WaitsForPromise(states[k].db, sid, day) && day <= x.timer.value;
    }
  }

  /** The session may be called again less than a day after `began`, with no promised day come. */
  ghost predicate CallableEarly(s: Sys, sid: nat, began: Time)
  {
    && sid < |s.db.sessions| && s.db.sessions[sid].callStarted == Some(began)
    && EligibleNow(s.db.sessions[sid], s.now) && s.now < began + FOLLOW_UP_COOLDOWN
    && !PromisedDayCame(s.db, sid, s.now)
  }

  /** Some continuation of `s` without timer edits makes the session callable early. */
  ghost predicate CanCallEarly(s: Sys, sid: nat, began: Time)
  {
    exists states, events :: IsExecution(states, events) && Unedited(events) && states[0] == s
      && CallableEarly(states[|events|], sid, began)
  }

  /** No earlier call than `began`; if none later either, its spacing is kept. */
  ghost predicate KeptSince(s: Sys, sid: nat, began: Time)
  {
    && sid < |s.db.sessions| && s.db.sessions[sid].callStarted.Some?
    && began <= s.db.sessions[sid].callStarted.value <= s.now
    && (s.db.sessions[sid].callStarted.value == began ==> SpacingKept(s, sid))
  }

  lemma KeptSinceStep(s: Sys, e: Event, sid: nat, began: Time)
    requires Shape(s) && Enabled(s, e) && !e.EditTimer? && KeptSince(s, sid, began)
    ensures KeptSince(Apply(s, e), sid, began)
  {
    SessionStep(s, e, sid);
    LinksOnlyGrow(s, e);
    if s.db.sessions[sid].callStarted.value == began && !(e.Assign? && e.sid == sid && began < s.now) {
      SpacingStep(s, e, sid);
    }
  }

  lemma {:induction false} KeptSinceRun(states: seq<Sys>, events: seq<Event>, n: nat, sid: nat, began: Time)
    requires IsExecution(states, events) && Unedited(events) && n < |states|
    requires Shape(states[0]) && KeptSince(states[0], sid, began)
    ensures Shape(states[n]) && KeptSince(states[n], sid, began)
  {
    if n > 0 {
      KeptSinceRun(states, events, n - 1, sid, began);
      assert Step(states[n - 1], events[n - 1], states[n]);
      ShapeStep(states[n - 1], events[n - 1]);
      KeptSinceStep(states[n - 1], events[n - 1], sid, began);
    }
  }

  /** Committing a stale write during the call that began at `s.now`, then waiting for its timer. */
  lemma StaleLands(s: Sys, i: nat, sid: nat)
    requires Shape(s) && LinksApart(s) && i < |s.tasks| && s.tasks[i].live && StaleFor(s.tasks[i].op, sid, s.now)
    requires sid < |s.db.sessions| && s.db.sessions[sid].status.Active?
    requires s.db.sessions[sid].attempts < s.db.sessions[sid].maxAttempts
    requires s.db.sessions[sid].callStarted == Some(s.now)
    ensures CanCallEarly(s, sid, s.now)
  {
    var w := s.tasks[i].op.write;
    assert OpShape(s.tasks[i].op, s.db);
    assert HeldLink(s.tasks[i].op) == w.link;
    var e := Advance(i, true);
    var s1 := Apply(s, e);
    LastPromiseStep(s, e, sid);
    var wait := Tick(if w.timer.value < s.now then s.now else w.timer.value);
    var s2 := Apply(s1, wait);
    var states, events := [s, s1, s2], [e, wait];
    assert IsExecution(states, events) && Unedited(events) && states[0] == s;
    assert CallableEarly(states[|events|], sid, s.now);
  }

  /** A session with no call left never has one again. */
  lemma {:induction false} NoCallReturns(states: seq<Sys>, events: seq<Event>, n: nat, sid: nat)
    requires IsExecution(states, events) && n < |states| && Shape(states[0]) && sid < |states[0].db.sessions|
    requires states[0].db.sessions[sid].attempts >= states[0].db.sessions[sid].maxAttempts
    ensures Shape(states[n]) && sid < |states[n].db.sessions|
    ensures states[n].db.sessions[sid].attempts >= states[n].db.sessions[sid].maxAttempts
  {
    if n > 0 {
      NoCallReturns(states, events, n - 1, sid);
      assert Step(states[n - 1], events[n - 1], states[n]);
      ShapeStep(states[n - 1], events[n - 1]);
      SessionStep(states[n - 1], events[n - 1], sid);
    }
  }

  /**
   * The condition is exact, in any state a run can reach: after a claim the
   * session can be callable again too early exactly when the claim was made
   * over a stale end of call in flight and did not take the last call.
   */
  lemma ClaimIsSpacedExactly(s: Sys, call: string, sid: nat)
    requires Shape(s) && LinksApart(s) && Enabled(s, Assign(call, sid))
    ensures CanCallEarly(Apply(s, Assign(call, sid)), sid, s.now)
      <==> StaleInFlight(s, sid, s.now) && !TakesLastCall(s, sid)
  {
    var e := Assign(call, sid);
    var s1 := Apply(s, e);
    ShapeStep(s, e);
    if TakesLastCall(s, sid) {
      forall states, events | IsExecution(states, events) && Unedited(events) && states[0] == s1
        ensures !CallableEarly(states[|events|], sid, s.now)
      {
        NoCallReturns(states, events, |events|, sid);
      }
    } else if StaleInFlight(s, sid, s.now) {
      var i :| 0 <= i < |s.tasks| && s.tasks[i].live && StaleFor(s.tasks[i].op, sid, s.now);
      LinksApartStep(s, e);
      StaleLands(s1, i, sid);
    } else {
      StaleStep(s, e, sid, s.now);
      forall states, events | IsExecution(states, events) && Unedited(events) && states[0] == s1
        ensures !CallableEarly(states[|events|], sid, s.now)
      {
        KeptSinceRun(states, events, |events|, sid, s.now);
      }
    }
  }

  // ---------- requests that do not overlap ----------

  /** What the serial guarantees need of the tables between two requests. */
  ghost predicate Between(db: Db, now: Time, sid: nat)
  {
    var s := Sys(db, [], [], now);
    Shape(s) && TimersAgree(db) && BudgetKept(s, sid) && SpacingKept(s, sid)
  }

  /** A request served alone is an execution that claims nothing over a request in flight. */
  lemma BetweenStep(db: Db, r: Request, now: Time, sid: nat)
    requires Possible(db, r, now) && Between(db, now, sid)
    ensures Between(Serve(db, r, now), now, sid)
  {
    var issued := if r.EndCall? && r.offered.Some? then r.offered.value else 0;
    var s := Sys(db, [], seq(issued, _ => now), now);
    var states, events := ServedAloneIsASchedule(s, r);
    assert Unedited(events);
    BudgetRun(states, events, |events|, sid);
    SpacingRun(states, events, |events|, sid);
    TimersStayInAgreement(states, events, |events|);
  }

  lemma {:induction false} SerialRunKeeps(dbs: seq<Db>, requests: seq<Request>, times: seq<Time>, k: nat, now: Time,
                                          sid: nat)
    requires IsSerialRun(dbs, requests, times) && k < |dbs| && (k > 0 ==> times[k - 1] <= now)
    ensures Between(dbs[k], now, sid)
  {
    if k > 0 {
      SerialRunKeeps(dbs, requests, times, k - 1, times[k - 1], sid);
      assert Possible(dbs[k - 1], requests[k - 1], times[k - 1]);
      BetweenStep(dbs[k - 1], requests[k - 1], times[k - 1], sid);
    }
  }

  /** In every serial run two calls to one customer are spaced, with no further condition. */
  lemma CallsAreSpaced(dbs: seq<Db>, requests: seq<Request>, times: seq<Time>, k: nat, sid: nat)
    requires IsSerialRun(dbs, requests, times) && k < |requests|
    requires requests[k].AssignCall? && requests[k].pick == Some(sid)
    ensures sid < |dbs[k].sessions|
    ensures var x := dbs[k].sessions[sid];
      x.callStarted.Some? ==>
        times[k] >= x.callStarted.value + 86400 || PromisedDayCame(dbs[k], sid, times[k])
    ensures dbs[k + 1].sessions[sid].callStarted == Some(times[k])
  {
    SerialRunKeeps(dbs, requests, times, k, times[k], sid);
    assert Possible(dbs[k], requests[k], times[k]);
  }

  /** In every serial run an unclear session has a call left and will be called, with no further condition. */
  lemma UnclearHasBudget(dbs: seq<Db>, requests: seq<Request>, times: seq<Time>, k: nat, sid: nat)
    requires IsSerialRun(dbs, requests, times) && k < |dbs| && sid < |dbs[k].sessions|
    requires dbs[k].sessions[sid].status.Unclear?
    ensures dbs[k].sessions[sid].attempts < dbs[k].sessions[sid].maxAttempts
    ensures StillContactable(dbs[k].sessions[sid])
  {
    SerialRunKeeps(dbs, requests, times, k, if k > 0 then times[k - 1] else 0, sid);
  }
}
