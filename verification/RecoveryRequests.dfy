/**
 * Over every interleaving: which session a request reaches, and that what it
 * was asked is what it finally writes.
 */
module RecoveryRequests {
  import opened Basics
  import opened RecoveryMeaning
  import opened RecoveryModel
  import opened RecoverySteps
  import opened RecoveryInvariants
  import opened RecoveryTheorems
  import opened RecoveryOverlap

  // ---------- call ids ----------

  /** The call id of the latest claim of a session. */
  ghost function LatestClaim(events: seq<Event>, sid: nat): Option<string>
  {
    if events == [] then None
    else
      var e := events[|events| - 1];
      if e.Assign? && e.sid == sid then Some(e.call) else LatestClaim(events[..|events| - 1], sid)
  }

  lemma LatestClaimStep(events: seq<Event>, n: nat, sid: nat)
    requires n < |events|
    ensures LatestClaim(events[..n + 1], sid)
      == if events[n].Assign? && events[n].sid == sid then Some(events[n].call) else LatestClaim(events[..n], sid)
  {
    assert events[..n + 1][..n] == events[..n];
  }

  /** A session is bound to the call of its latest claim. */
  lemma {:induction false} CallIsLatestClaim(states: seq<Sys>, events: seq<Event>, n: nat, sid: nat)
    requires IsRun(states, events) && n < |states|
    ensures LatestClaim(events[..n], sid)
      == if sid < |states[n].db.sessions| then states[n].db.sessions[sid].call else None
  {
    if n > 0 {
      CallIsLatestClaim(states, events, n - 1, sid);
      LatestClaimStep(events, n - 1, sid);
      RunInv(states, events, n - 1);
      CallStep(states[n - 1], events[n - 1], sid);
    }
  }

  lemma CallStep(s: Sys, e: Event, sid: nat)
    requires Shape(s) && Enabled(s, e)
    ensures var s' := Apply(s, e);
      (if sid < |s'.db.sessions| then s'.db.sessions[sid].call else None)
      == if e.Assign? && e.sid == sid then Some(e.call)
         else if sid < |s.db.sessions| then s.db.sessions[sid].call else None
  {
    if sid < |s.db.sessions| { SessionStep(s, e, sid); }
    else if sid < |Apply(s, e).db.sessions| { NewRowStep(s, e, sid); }
  }

  /** The session claimed for a call, and not for another since, is the one and only that the call id finds. */
  lemma CallFindsItsSession(states: seq<Sys>, events: seq<Event>, n: nat, sid: nat, call: string)
    requires IsRun(states, events) && n < |states| && LatestClaim(events[..n], sid) == Some(call)
    ensures sid < |states[n].db.sessions|
    ensures forall i :: 0 <= i < |states[n].db.sessions| ==>
      (states[n].db.sessions[i].call == Some(call) <==> i == sid)
  {
    CallIsLatestClaim(states, events, n, sid);
    RunInv(states, events, n);
  }

  /** An end of call reaches the session last claimed for that very call. */
  lemma EndReachesItsCall(states: seq<Sys>, events: seq<Event>, k: nat)
    requires IsRun(states, events) && k < |events| && events[k].BeginEnd?
    ensures LatestClaim(events[..k], events[k].sid) == Some(events[k].call)
    ensures forall i :: 0 <= i < |states[k].db.sessions| ==>
      (states[k].db.sessions[i].call == Some(events[k].call) <==> i == events[k].sid)
  {
    assert Enabled(states[k], events[k]);
    CallIsLatestClaim(states, events, k, events[k].sid);
    RunInv(states, events, k);
  }

  /** A payment webhook reaches the only session that it can be about. */
  lemma PaymentReachesItsSession(states: seq<Sys>, events: seq<Event>, k: nat)
    requires IsRun(states, events) && k < |events| && events[k].BeginCapture?
    ensures var rows, sid := states[k].db.sessions, events[k].sid;
      && sid < |rows|
      && (forall i :: 0 <= i < |rows| ==>
            match events[k].notice
            case ByPayment(payment) => rows[i].payment == Some(payment) <==> i == sid
            case ByLink(link) => rows[i].link == Some(link) <==> i == sid)
  {
    assert Enabled(states[k], events[k]);
    RunInv(states, events, k);
  }

  // ---------- an end of call writes what it was told ----------

  /** What the task of an end of call may be holding, given what it was told and what it read. */
  ghost predicate Carries(op: Op, x: Session, sid: nat, outcome: Outcome, promise: DateText, since: Time, now: Time)
  {
    match op
    case EndRead(k, attempts, maxAttempts, o, p) =>
      k == sid && attempts == x.attempts && maxAttempts == x.maxAttempts && o == outcome && p == promise
    case EndLinked(k, attempts, maxAttempts, p, _) =>
      k == sid && attempts == x.attempts && maxAttempts == x.maxAttempts && outcome.Agreed? && p == promise
    case EndLinkRefused(k) => k == sid && outcome.Agreed?
    case EndBuilt(w) => BuiltFor(w, x, sid, outcome, promise, since, now)
    case Done => true
    case _ => false
  }

  ghost predicate BuiltFor(w: OutcomeWrite, x: Session, sid: nat, outcome: Outcome, promise: DateText,
                           since: Time, now: Time)
  {
    exists link, at :: since <= at <= now && Builds(w, x, sid, outcome, promise, link, at)
  }

  ghost predicate Builds(w: OutcomeWrite, x: Session, sid: nat, outcome: Outcome, promise: DateText,
                         link: Option<nat>, at: Time)
  {
    (outcome.Agreed? <==> link.Some?) && w == BuildWrite(sid, x.attempts, x.maxAttempts, outcome, promise, link, at)
  }

  lemma CarriesStep(s: Sys, e: Event, i: nat, x: Session, sid: nat, outcome: Outcome, promise: DateText, since: Time)
    requires Enabled(s, e) && i < |s.tasks| && since <= s.now
    requires Carries(s.tasks[i].op, x, sid, outcome, promise, since, s.now)
    ensures var s' := Apply(s, e);
      i < |s'.tasks| && Carries(s'.tasks[i].op, x, sid, outcome, promise, since, s'.now)
  {
    var op, s' := s.tasks[i].op, Apply(s, e);
    LinksOnlyGrow(s, e);
    if e.Advance? && e.i == i {
      match op
      case EndRead(_, _, _, _, _) =>
        if !outcome.Agreed? { assert Builds(s'.tasks[i].op.write, x, sid, outcome, promise, None, s.now); }
      case EndLinked(_, _, _, _, link) =>
        assert Builds(s'.tasks[i].op.write, x, sid, outcome, promise, Some(link), s.now);
      case _ =>
    } else {
      assert s'.tasks[i].op == op;
      if op.EndBuilt? {
        var link, at :| since <= at <= s.now && Builds(op.write, x, sid, outcome, promise, link, at);
        assert since <= at <= s'.now && Builds(op.write, x, sid, outcome, promise, link, at);
      }
    }
  }

  lemma {:induction false} TaskCarries(states: seq<Sys>, events: seq<Event>, k: nat, j: nat)
    requires IsExecution(states, events) && k < j < |states| && events[k].BeginEnd?
    ensures events[k].sid < |states[k].db.sessions| && |states[k].tasks| < |states[j].tasks|
    ensures states[k].now <= states[j].now
    ensures Carries(states[j].tasks[|states[k].tasks|].op, states[k].db.sessions[events[k].sid],
                    events[k].sid, events[k].outcome, events[k].promise, states[k].now, states[j].now)
  {
    var e := events[k];
    assert Step(states[k], e, states[k + 1]);
    if j > k + 1 {
      TaskCarries(states, events, k, j - 1);
      assert Step(states[j - 1], events[j - 1], states[j]);
      LinksOnlyGrow(states[j - 1], events[j - 1]);
      CarriesStep(states[j - 1], events[j - 1], |states[k].tasks|, states[k].db.sessions[e.sid], e.sid, e.outcome,
                  e.promise, states[k].now);
    }
  }

  /** The outcome was computed at some time since the end of call began, with the link the provider then gave. */
  ghost predicate RecordedSince(before: Db, after: Db, sid: nat, outcome: Outcome, promise: DateText,
                                exhausted: bool, since: Time, now: Time)
  {
    exists link, at ::
      since <= at <= now && OutcomeRecorded(before, after, sid, outcome, promise, link, exhausted, at)
  }

  /**
   * The transaction of an end of call: it records for the session of that
   * call the outcome and the promise it was told, by the attempts it read, or
   * the session was settled meanwhile and nothing changes.
   */
  lemma EndRecordsWhatItWasTold(states: seq<Sys>, events: seq<Event>, k: nat, j: nat)
    requires IsRun(states, events) && k < j < |events| && events[k].BeginEnd?
    requires events[j].Advance? && events[j].i == |states[k].tasks| < |states[j].tasks|
    requires states[j].tasks[events[j].i].op.EndBuilt?
    ensures var s, s', e, x := states[j], states[j + 1], events[k], states[k].db.sessions[events[k].sid];
      && e.sid < |s.db.sessions|
      && var st := s.db.sessions[e.sid].status;
         if st == Active || st == Unclear
         then RecordedSince(s.db, s'.db, e.sid, e.outcome, e.promise, x.attempts >= x.maxAttempts,
                            states[k].now, s.now)
         else s'.db == s.db
  {
    var s, e, x := states[j], events[k], states[k].db.sessions[events[k].sid];
    TaskCarries(states, events, k, j);
    assert Step(s, events[j], states[j + 1]);
    OnlyStatusRejectsOutcomes(states, events, j, events[j].i, events[j].ok);
    LinksApartRun(states, events, j);
    var w := s.tasks[events[j].i].op.write;
    var link, at :| states[k].now <= at <= s.now && Builds(w, x, e.sid, e.outcome, e.promise, link, at);
    assert HeldLink(s.tasks[events[j].i].op) == w.link;
    if OutcomeRecordableFrom(s.db.sessions[e.sid].status) {
      BuiltWriteMeans(s.db, e.sid, x.attempts, x.maxAttempts, e.outcome, e.promise, link, at);
    }
  }

  // ---------- an inbound failure joins the latest load ----------

  /** When the campaigns were loaded, in order. */
  ghost function LoadTimes(states: seq<Sys>, events: seq<Event>, n: nat): seq<Time>
    requires n <= |events| < |states|
  {
    if n == 0 then []
    else LoadTimes(states, events, n - 1) + (if events[n - 1].BeginLoad? then [states[n - 1].now] else [])
  }

  lemma {:induction false} CampaignsAreLoads(states: seq<Sys>, events: seq<Event>, n: nat)
    requires IsRun(states, events) && n < |states|
    ensures var times, campaigns := LoadTimes(states, events, n), states[n].db.campaigns;
      && |campaigns| == |times|
      && (forall c :: 0 <= c < |times| ==> campaigns[c].created == times[c] <= states[n].now)
      && (forall c, d :: 0 <= c <= d < |times| ==> times[c] <= times[d])
  {
    if n > 0 {
      CampaignsAreLoads(states, events, n - 1);
      var s, e := states[n - 1], events[n - 1];
      assert Step(s, e, states[n]);
      LinksOnlyGrow(s, e);
      CreatedStays(s, e);
    }
  }

  lemma CreatedStays(s: Sys, e: Event)
    requires Enabled(s, e)
    ensures var before, after := s.db.campaigns, Apply(s, e).db.campaigns;
      && |after| == |before| + (if e.BeginLoad? then 1 else 0)
      && (forall c :: 0 <= c < |before| ==> after[c].created == before[c].created)
      && (e.BeginLoad? ==> after[|before|].created == s.now)
  {
  }

  /** The campaign that an inbound failure joins is active, and no active one was loaded at a later time. */
  lemma FailureJoinsLatestLoad(states: seq<Sys>, events: seq<Event>, k: nat)
    requires IsRun(states, events) && k < |events| && events[k].BeginFailed?
    ensures var times, campaigns, c := LoadTimes(states, events, k), states[k].db.campaigns, events[k].campaign;
      && c < |campaigns| == |times| && campaigns[c].status == Running
      && forall d :: 0 <= d < |times| && campaigns[d].status == Running ==> times[d] <= times[c]
  {
    CampaignsAreLoads(states, events, k);
    assert Enabled(states[k], events[k]);
  }

  /** What the task of an inbound failure may be holding. */
  predicate CarriesFailure(op: Op, campaign: nat, account: Account)
  {
    match op
    case FailedRead(c, a) => c == campaign && a == account
    case FailedChecked(c, a) => c == campaign && a == account
    case FailedInserted(c, _) => c == campaign
    case FailedCounted(_) => true
    case FailedLogged(_) => true
    case Done => true
    case _ => false
  }

  lemma {:induction false} TaskCarriesFailure(states: seq<Sys>, events: seq<Event>, k: nat, j: nat)
    requires IsExecution(states, events) && k < j < |states| && events[k].BeginFailed?
    ensures |states[k].tasks| < |states[j].tasks|
    ensures CarriesFailure(states[j].tasks[|states[k].tasks|].op, events[k].campaign, events[k].account)
  {
    assert Step(states[k], events[k], states[k + 1]);
    if j > k + 1 {
      TaskCarriesFailure(states, events, k, j - 1);
      assert Step(states[j - 1], events[j - 1], states[j]);
    }
  }

  /** A session that the task of an inbound failure adds is of that campaign and that account, and never called. */
  lemma FailureAddsItsSession(states: seq<Sys>, events: seq<Event>, k: nat, j: nat)
    requires IsRun(states, events) && k < j < |events| && events[k].BeginFailed?
    requires events[j].Advance? && events[j].i == |states[k].tasks|
    requires |states[j + 1].db.sessions| > |states[j].db.sessions|
    ensures states[j + 1].db.sessions
      == states[j].db.sessions + [FreshRow(events[k].campaign, events[k].account, states[j].now)]
  {
    TaskCarriesFailure(states, events, k, j);
    assert Step(states[j], events[j], states[j + 1]);
  }

  // ---------- links live a day ----------

  /** When the links were issued, in order. */
  ghost function IssueTimes(states: seq<Sys>, events: seq<Event>, n: nat): seq<Time>
    requires n <= |events| < |states|
  {
    if n == 0 then []
    else
      IssueTimes(states, events, n - 1) +
      (if |states[n].links| > |states[n - 1].links| then [states[n - 1].now] else [])
  }

  lemma {:induction false} LinksLastADay(states: seq<Sys>, events: seq<Event>, n: nat)
    requires IsRun(states, events) && n < |states|
    ensures var times := IssueTimes(states, events, n);
      && |states[n].links| == |times|
      && forall l :: 0 <= l < |times| ==> states[n].links[l] == times[l] + 86400
  {
    if n > 0 {
      LinksLastADay(states, events, n - 1);
      assert Step(states[n - 1], events[n - 1], states[n]);
    }
  }

  /** A session is called only when a day has gone since its recorded link was issued. */
  lemma NoCallWithinADayOfLink(states: seq<Sys>, events: seq<Event>, k: nat)
    requires IsRun(states, events) && Unedited(events) && k < |events| && events[k].Assign?
    ensures var s, times, sid := states[k], IssueTimes(states, events, k), events[k].sid;
      && sid < |s.db.sessions|
      && (s.db.sessions[sid].link.Some? ==>
            s.db.sessions[sid].link.value < |times| && s.now >= times[s.db.sessions[sid].link.value] + 86400)
  {
    NoCallWhileLinkLives(states, events, k);
    LinksLastADay(states, events, k);
  }
}
