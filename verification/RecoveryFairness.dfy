/**
 * Nobody starves in the assignment queue: the bound of RecoveryWaiting for
 * requests one at a time, and a schedule that shows what overlap adds to it.
 */
module RecoveryFairness {
  import opened Basics
  import opened RecoveryModel
  import opened RecoverySteps
  import opened RecoveryInvariants
  import opened RecoverySerial
  import opened RecoverySchedules
  import opened RecoveryWaiting

  /** `db'` keeps campaign statuses, and every row it changes or adds has no timer before `now`. */
  ghost predicate Reschedules(db: Db, db': Db, now: Time)
  {
    && |db.campaigns| <= |db'.campaigns| && |db.sessions| <= |db'.sessions|
    && (forall c :: 0 <= c < |db.campaigns| ==> db'.campaigns[c].status == db.campaigns[c].status)
    && (forall i :: 0 <= i < |db'.sessions| ==>
          || (i < |db.sessions| && db'.sessions[i] == db.sessions[i])
          || !StillContactable(db'.sessions[i])
          || db'.sessions[i].timer.value >= now)
  }

  lemma {:induction false} LoadReschedules(db: Db, campaign: nat, accounts: seq<Account>, now: Time)
    ensures Reschedules(db, LoadAll(db, campaign, accounts, now), now)
    decreases |accounts|
  {
    if accounts != [] && PaymentFree(db, accounts[0].payment) {
      LoadReschedules(LoadOne(db, campaign, accounts[0], now), campaign, accounts[1..], now);
    }
  }

  /** Every later insert or reschedule lands at or after now, so nobody overtakes from behind. */
  lemma ServeReschedules(db: Db, r: Request, now: Time)
    requires Possible(db, r, now)
    ensures Reschedules(db, Serve(db, r, now), now)
  {
    if r.LoadCampaign? && r.accounts != [] {
      LoadReschedules(InsertCampaign(db, |r.accounts|, now), |db.campaigns|, r.accounts, now);
    }
  }

  // ---------- a request served alone ----------

  /** The row has left its place in the queue: on a call, or its timer is another. */
  predicate Moved(x: Session, t: Time)
  {
    x.status.Active? || x.timer != Some(t)
  }

  /** While no old write is in flight, a statement brings no row back to an old place. */
  lemma MovedStays(s: Sys, e: Event, sid: nat, t: Time)
    requires Shape(s) && Enabled(s, e) && e.Advance? && t < s.now && OldWrites(s, t) == 0
    requires sid < |s.db.sessions| && Moved(s.db.sessions[sid], t)
    ensures Moved(Apply(s, e).db.sessions[sid], t)
  {
    SessionStep(s, e, sid);
    SumAtLeast(s.tasks, e.i, OldWrite(t));
  }

  lemma {:induction false} NoOldWrites(states: seq<Sys>, events: seq<Event>, n: nat, t: Time)
    requires IsExecution(states, events) && n < |states| && Shape(states[0])
    requires t < states[0].now && OldWrites(states[0], t) == 0
    ensures Shape(states[n]) && states[0].now <= states[n].now && OldWrites(states[n], t) == 0
    ensures |states[0].db.sessions| <= |states[n].db.sessions|
  {
    if n > 0 {
      NoOldWrites(states, events, n - 1, t);
      var s, e := states[n - 1], events[n - 1];
      assert Step(s, e, states[n]);
      ShapeStep(s, e);
      LinksOnlyGrow(s, e);
      OldWritesStep(s, e, t);
      if e.Advance? { assert OpShape(s.tasks[e.i].op, s.db); StatementGrows(s, e.i, e.ok); }
    }
  }

  /** A waiting row that is in place after a request was in place all along. */
  lemma {:induction false} StayedPut(states: seq<Sys>, events: seq<Event>, n: nat, sid: nat)
    requires IsExecution(states, events) && n < |states| && Shape(states[0]) && OneRequest(events)
    requires Overdue(states[0].db, sid, states[0].now)
    requires OldWrites(states[0], states[0].db.sessions[sid].timer.value) == 0
    requires sid < |states[n].db.sessions|
    requires !Moved(states[n].db.sessions[sid], states[0].db.sessions[sid].timer.value)
    ensures forall k :: 0 <= k <= n ==>
      sid < |states[k].db.sessions| && states[k].db.sessions[sid] == states[0].db.sessions[sid]
  {
    if n > 0 {
      var t, s, e := states[0].db.sessions[sid].timer.value, states[n - 1], events[n - 1];
      assert Step(s, e, states[n]);
      NoOldWrites(states, events, n - 1, t);
      if Moved(s.db.sessions[sid], t) { MovedStays(s, e, sid, t); }
      StayedPut(states, events, n - 1, sid);
      SessionStep(s, e, sid);
      if e.Advance? { SumAtLeast(s.tasks, e.i, OldWrite(t)); }
    }
  }

  /** An opening and then statements only. */
  ghost predicate OneRequest(events: seq<Event>)
  {
    forall k :: 0 <= k < |events| ==> NoEdit(events[k]) && (k > 0 ==> events[k].Advance?)
  }

  lemma {:induction false} OneClaim(events: seq<Event>, n: nat)
    requires OneRequest(events) && n <= |events|
    ensures Claims(events, 0, n) == if n > 0 && events[0].Assign? then 1 else 0
  {
    if n > 1 { OneClaim(events, n - 1); }
  }

  /**
   * While an overdue session is left as it is, no request moves it back, and
   * every assignment request is served and moves it strictly forward.
   */
  lemma WaitingMovesForward(db: Db, r: Request, sid: nat, now: Time)
    requires Owned(db) && Possible(db, r, now) && Overdue(db, sid, now)
    requires sid < |Serve(db, r, now).sessions| && Serve(db, r, now).sessions[sid] == db.sessions[sid]
    ensures QueuePosition(Serve(db, r, now), sid) + (if r.AssignCall? then 1 else 0) <= QueuePosition(db, sid)
    ensures r.AssignCall? ==> r.pick.Some? && r.pick.value != sid
  {
    var issued := if r.EndCall? && r.offered.Some? then r.offered.value else 0;
    var s := Sys(db, [], seq(issued, _ => now), now);
    var states, events := ServedAloneIsASchedule(s, r);
    StayedPut(states, events, |events|, sid);
    WaitingRun(states, events, 0, |events|, sid);
    OneClaim(events, |events|);
    if r.AssignCall? {
      var k := r.pick.value;
      assert Serve(db, r, now).sessions[k].attempts == db.sessions[k].attempts + 1;
    }
  }

  /** Assignment requests among requests[i..j]. */
  ghost function Assignments(requests: seq<Request>, i: nat, j: nat): nat
    requires i <= j <= |requests|
    decreases j
  {
    if i == j then 0 else Assignments(requests, i, j - 1) + (if requests[j - 1].AssignCall? then 1 else 0)
  }

  lemma StillOverdue(db: Db, r: Request, sid: nat, since: Time, now: Time)
    requires Possible(db, r, now) && Overdue(db, sid, since) && since <= now
    requires sid < |Serve(db, r, now).sessions| && Serve(db, r, now).sessions[sid] == db.sessions[sid]
    ensures Overdue(Serve(db, r, now), sid, since)
  {
    ServeReschedules(db, r, now);
  }

  /**
   * From the moment a session is overdue at position p, and for as long as
   * its row does not change, fewer than p assignment requests can be served:
   * the p-th at the latest goes to it.
   */
  lemma {:induction false} NoStarvation(dbs: seq<Db>, requests: seq<Request>, times: seq<Time>, i: nat, j: nat,
                                        sid: nat)
    requires IsSerialRun(dbs, requests, times) && i <= j <= |requests| && i < |requests|
    requires Overdue(dbs[i], sid, times[i])
    requires forall k :: i <= k <= j ==> sid < |dbs[k].sessions| && dbs[k].sessions[sid] == dbs[i].sessions[sid]
    ensures Assignments(requests, i, j) + QueuePosition(dbs[j], sid) <= QueuePosition(dbs[i], sid)
    ensures Assignments(requests, i, j) < QueuePosition(dbs[i], sid)
    ensures Overdue(dbs[j], sid, times[i])
    decreases j
  {
    if i < j {
      NoStarvation(dbs, requests, times, i, j - 1, sid);
      RunOwned(dbs, requests, times, j - 1);
      var db, r, now := dbs[j - 1], requests[j - 1], times[j - 1];
      assert Possible(db, r, now) && dbs[j] == Serve(db, r, now) && times[i] <= now;
      StillOverdue(db, r, sid, times[i], now);
      WaitingMovesForward(db, r, sid, now);
    }
    CountsItself(dbs[j], sid, times[i]);
  }

  // ---------- a schedule that needs the old writes in the bound ----------

  /** A customer loaded a day later is overdue, alone in the queue; an old write for the other one is in flight. */
  ghost predicate FirstWaits(s: Sys)
  {
    && s.now == DAY + 1 && |s.db.sessions| == 2 && |s.tasks| == 4 && |s.db.campaigns| == 2
    && s.db.campaigns[0].status.Running? && s.db.campaigns[1].status.Running?
    && s.db.sessions[0] == Bind(LOADED.db.sessions[0], "a", 0)
    && s.db.sessions[1] == NewSession(1, NO_PAYMENT, DAY)
    && s.tasks[2] == Task(EndBuilt(STALE_WRITE), true)
  }

  lemma FirstWaitsReachable() returns (s: Sys)
    ensures Reachable(s) && FirstWaits(s)
  {
    var s0 := StaleWriterBuilt();
    var e0 := Tick(DAY);
    var s1 := Apply(s0, e0);
    Next(s0, e0);
    var e1 := BeginLoad([NO_PAYMENT]);
    var s2 := Apply(s1, e1);
    Next(s1, e1);
    var e2 := Advance(3, true);
    var s3 := Apply(s2, e2);
    Next(s2, e2);
    var e3 := Tick(DAY + 1);
    var s4 := Apply(s3, e3);
    Next(s3, e3);
    s := s4;
  }

  lemma PairSum(a: Session, b: Session, f: Session -> nat)
    ensures Sum([a, b], f) == f(a) + f(b)
  {
    assert [a, b] == [a] + [b] && [a] == [] + [a];
    SumAppend([a], b, f);
    SumAppend([], a, f);
  }

  lemma FirstIsFirst(s: Sys)
    requires FirstWaits(s)
    ensures Overdue(s.db, 1, s.now) && QueuePosition(s.db, 1) == 1
  {
    var x := s.db.sessions[1];
    assert s.db.sessions == [s.db.sessions[0], x];
    PairSum(s.db.sessions[0], x, AtOrBefore(s.db.campaigns, x));
  }

  /** The old write lands, and its customer sorts first. */
  lemma OtherIsCalled(s: Sys) returns (s1: Sys, s2: Sys)
    requires FirstWaits(s)
    ensures Step(s, Advance(2, true), s1) && Step(s1, Assign("b", 0), s2)
    ensures |s1.db.sessions| == |s2.db.sessions| == 2
    ensures s1.db.sessions[1] == s2.db.sessions[1] == s.db.sessions[1]
  {
    s1 := Apply(s, Advance(2, true));
    assert Assignable(s1.db, 0, s1.now);
    s2 := Apply(s1, Assign("b", 0));
  }

  /** Position alone is no bound when requests overlap: the first in the queue, and another is called before it. */
  lemma ClaimedPastTheFirst() returns (states: seq<Sys>, events: seq<Event>)
    ensures IsExecution(states, events) && Reachable(states[0]) && |events| == 2
    ensures Overdue(states[0].db, 1, states[0].now) && LeftAlone(states, events, 0, 2, 1)
    ensures Claims(events, 0, 2) == 1 == QueuePosition(states[0].db, 1)
  {
    var s0 := FirstWaitsReachable();
    FirstIsFirst(s0);
    var s1, s2 := OtherIsCalled(s0);
    states, events := [s0, s1, s2], [Advance(2, true), Assign("b", 0)];
    assert Claims(events, 0, 1) == 0;
  }
}
