/**
 * The orchestrator one request at a time: each request runs to completion,
 * and every write succeeds except a rejected duplicate insert, before the next
 * one starts.
 */
module RecoverySerial {
  import opened Basics
  import opened RecoveryModel

  /** A request, with the choices that the database and the payment provider make for it. */
  datatype Request =
    | AssignCall(call: string, pick: Option<nat>)
    | EndCall(call: string, outcome: Outcome, promise: DateText, offered: Option<nat>)
    | PaymentCapturedFor(payment: string)
    | LinkPaid(link: nat)
    | PaymentFailed(account: Account, campaign: Option<nat>)
    | LoadCampaign(accounts: seq<Account>)

  // ---------- lookups ----------

  function HasCall(call: string): Session -> bool { (x: Session) => x.call == Some(call) }

  function HasPayment(payment: string): Session -> bool { (x: Session) => x.payment == Some(payment) }

  function HasLink(link: nat): Session -> bool { (x: Session) => x.link == Some(link) }

  // ---------- requests as database functions ----------

  /**
   * The choices in the request are ones the database and the provider can
   * make; no write fails but a rejected duplicate.
   */
  ghost predicate Possible(db: Db, r: Request, now: Time)
  {
    match r
    case AssignCall(call, None) => forall i: nat :: !Assignable(db, i, now)
    case AssignCall(call, Some(i)) => IsNext(db, i, now) && CallFree(db, i, call)
    case EndCall(_, _, _, offered) =>
      offered.Some? ==> forall i :: 0 <= i < |db.sessions| ==> db.sessions[i].link != offered
    case PaymentFailed(_, None) => forall c :: 0 <= c < |db.campaigns| ==> !db.campaigns[c].status.Running?
    case PaymentFailed(_, Some(c)) => IsNewestActive(db, c)
    case _ => true
  }

  function LoadOne(db: Db, campaign: nat, account: Account, now: Time): Db
  {
    Log(InsertSession(db, campaign, account, now), |db.sessions|, SessionCreated)
  }

  function LoadAll(db: Db, campaign: nat, accounts: seq<Account>, now: Time): Db
    decreases |accounts|
  {
    if accounts == [] then db
    else if !PaymentFree(db, accounts[0].payment) then db
    else LoadAll(LoadOne(db, campaign, accounts[0], now), campaign, accounts[1..], now)
  }

  function EndFound(db: Db, sid: nat, outcome: Outcome, promise: DateText, offered: Option<nat>, now: Time): Db
    requires sid < |db.sessions|
  {
    var x := db.sessions[sid];
    if !OutcomeRecordableFrom(x.status) then db
    else if outcome.Agreed? && offered.None? then Log(db, sid, PaymentLinkFailed)
    else
      RecordOutcome(db, BuildWrite(sid, x.attempts, x.maxAttempts, outcome, promise,
                                   if outcome.Agreed? then offered else None, now))
  }

  function Capture(db: Db, sid: nat): Db
  {
    if MarkChanges(db, sid) then Log(MarkRecovered(db, sid), sid, PaymentCaptured) else db
  }

  function AddFailedPayment(db: Db, campaign: nat, account: Account, now: Time): Db
  {
    if !PaymentFree(db, account.payment) then db
    else
      var sid := |db.sessions|;
      Log(Log(IncrementTotal(InsertSession(db, campaign, account, now), campaign), sid, WebhookReceived),
          sid, SessionCreated)
  }

  function Serve(db: Db, r: Request, now: Time): Db
  {
    match r
    case AssignCall(call, pick) =>
      if pick.Some? && pick.value < |db.sessions|
      then Log(AssignTx(db, pick.value, call, now), pick.value, SessionAssigned(call))
      else db
    case EndCall(call, outcome, promise, offered) =>
      (match FindFirst(db.sessions, HasCall(call))
       case None => db
       case Some(sid) => EndFound(db, sid, outcome, promise, offered, now))
    case PaymentCapturedFor(payment) =>
      (match FindFirst(db.sessions, HasPayment(payment))
       case None => db
       case Some(sid) => Capture(db, sid))
    case LinkPaid(link) =>
      (match FindFirst(db.sessions, HasLink(link))
       case None => db
       case Some(sid) => Capture(db, sid))
    case PaymentFailed(account, campaign) =>
      if campaign.Some? then AddFailedPayment(db, campaign.value, account, now) else db
    case LoadCampaign(accounts) =>
      if accounts == [] then db
      else LoadAll(InsertCampaign(db, |accounts|, now), |db.campaigns|, accounts, now)
  }

  /** Request k finds dbs[k] at times[k] and leaves dbs[k+1]; the clock never runs backwards. */
  ghost predicate IsSerialRun(dbs: seq<Db>, requests: seq<Request>, times: seq<Time>)
  {
    && |dbs| == |requests| + 1 && |times| == |requests|
    && dbs[0] == EMPTY_DB
    && (forall i, j :: 0 <= i <= j < |times| ==> times[i] <= times[j])
    && forall k {:trigger requests[k]} :: 0 <= k < |requests| ==>
         Possible(dbs[k], requests[k], times[k]) && dbs[k + 1] == Serve(dbs[k], requests[k], times[k])
  }

  // ---------- audit replay ----------

  /** What the audit trail claims about a session. */
  datatype View = View(status: Status, attempts: nat, link: Option<nat>, promise: DateText)

  function ViewOf(x: Session): View
  {
    View(x.status, x.attempts, x.link, x.promise)
  }

  function ReplayEvent(v: Option<View>, e: AuditEvent): Option<View>
  {
    if e.SessionCreated? then Some(View(Pending, 0, None, Blank))
    else if v.None? then None
    else
      var w := v.value;
      match e
      case SessionAssigned(_) => Some(w.(status := Active, attempts := w.attempts + 1))
      case OutcomeClassified(o) => if o.Unclassified? then Some(w.(status := Unclear)) else v
      case PaymentLinkSent(l) => Some(w.(status := LinkSent, link := Some(l)))
      case PromiseLogged(d, _) => Some(w.(status := Promised, promise := if d.Blank? then w.promise else d))
      case StoppedRefused => Some(w.(status := Refused))
      case StoppedMaxAttempts => Some(w.(status := Failed))
      case PaymentCaptured => Some(w.(status := Recovered))
      case _ => v
  }

  /** Folding one session's rows in id order. */
  function Replay(audit: seq<Row>, sid: nat): Option<View>
  {
    if audit == [] then None
    else
      var before := Replay(audit[..|audit| - 1], sid);
      var row := audit[|audit| - 1];
      if row.sid == sid then ReplayEvent(before, row.event) else before
  }

  lemma ReplayAppend(audit: seq<Row>, row: Row, sid: nat)
    ensures Replay(audit + [row], sid) ==
      if row.sid == sid then ReplayEvent(Replay(audit, sid), row.event) else Replay(audit, sid)
  {
    assert (audit + [row])[..|audit|] == audit;
  }

  lemma ReplayWrite(audit: seq<Row>, w: OutcomeWrite, sid: nat)
    requires WriteShape(w)
    ensures var before, after := Replay(audit, sid), Replay(audit + Rows(w.sid, w.events), sid);
      if sid != w.sid then after == before
      else if before.None? then after.None?
      else after == Some(View(w.status, before.value.attempts,
                              if w.link.None? then before.value.link else w.link,
                              if w.promise.Blank? then before.value.promise else w.promise))
  {
    var rows := Rows(w.sid, w.events);
    ReplayAppend(audit, rows[0], sid);
    ReplayAppend(audit + [rows[0]], rows[1], sid);
    var two := audit + [rows[0]] + [rows[1]];
    if |rows| == 2 {
      assert audit + rows == two;
    } else {
      ReplayAppend(two, rows[2], sid);
      assert audit + rows == two + [rows[2]];
    }
  }

  ghost predicate Faithful(db: Db)
  {
    forall sid: nat :: Replay(db.audit, sid) ==
      if sid < |db.sessions| then Some(ViewOf(db.sessions[sid])) else None
  }

  lemma FaithfulLog(db: Db, sid: nat, event: AuditEvent, db': Db)
    requires db'.audit == db.audit + [Row(sid, event)]
    requires |db.sessions| <= |db'.sessions|
    requires forall k: nat :: Replay(db.audit, k) == if k < |db.sessions| then Some(ViewOf(db.sessions[k])) else None
    requires forall k :: 0 <= k < |db'.sessions| && k != sid ==>
      k < |db.sessions| && ViewOf(db'.sessions[k]) == ViewOf(db.sessions[k])
    requires sid < |db'.sessions|
    requires ReplayEvent(Replay(db.audit, sid), event) == Some(ViewOf(db'.sessions[sid]))
    ensures Faithful(db')
  {
    forall k: nat ensures Replay(db'.audit, k) ==
      if k < |db'.sessions| then Some(ViewOf(db'.sessions[k])) else None
    {
      ReplayAppend(db.audit, Row(sid, event), k);
    }
  }

  lemma FaithfulRecord(db: Db, w: OutcomeWrite)
    requires Faithful(db) && WriteShape(w)
    ensures Faithful(RecordOutcome(db, w))
  {
    var db' := RecordOutcome(db, w);
    if RecordCommits(db, w) {
      forall k: nat ensures Replay(db'.audit, k) ==
        if k < |db'.sessions| then Some(ViewOf(db'.sessions[k])) else None
      {
        ReplayWrite(db.audit, w, k);
      }
    }
  }

  lemma {:induction false} FaithfulLoad(db: Db, campaign: nat, accounts: seq<Account>, now: Time)
    requires Faithful(db)
    ensures Faithful(LoadAll(db, campaign, accounts, now))
    decreases |accounts|
  {
    if accounts != [] && PaymentFree(db, accounts[0].payment) {
      var next := LoadOne(db, campaign, accounts[0], now);
      FaithfulLog(db, |db.sessions|, SessionCreated, next);
      FaithfulLoad(next, campaign, accounts[1..], now);
    }
  }

  lemma FaithfulFailedPayment(db: Db, campaign: nat, account: Account, now: Time)
    requires Faithful(db)
    ensures Faithful(AddFailedPayment(db, campaign, account, now))
  {
    if PaymentFree(db, account.payment) {
      var sid := |db.sessions|;
      var db' := AddFailedPayment(db, campaign, account, now);
      var mid := db.audit + [Row(sid, WebhookReceived)];
      assert db'.audit == mid + [Row(sid, SessionCreated)];
      forall k: nat ensures Replay(db'.audit, k) ==
        if k < |db'.sessions| then Some(ViewOf(db'.sessions[k])) else None
      {
        ReplayAppend(db.audit, Row(sid, WebhookReceived), k);
        ReplayAppend(mid, Row(sid, SessionCreated), k);
      }
    }
  }

  lemma FaithfulEnd(db: Db, sid: nat, outcome: Outcome, promise: DateText, offered: Option<nat>, now: Time)
    requires Faithful(db) && sid < |db.sessions|
    ensures Faithful(EndFound(db, sid, outcome, promise, offered, now))
  {
    var x := db.sessions[sid];
    if OutcomeRecordableFrom(x.status) {
      if outcome.Agreed? && offered.None? {
        FaithfulLog(db, sid, PaymentLinkFailed, Log(db, sid, PaymentLinkFailed));
      } else {
        FaithfulRecord(db, BuildWrite(sid, x.attempts, x.maxAttempts, outcome, promise,
                                      if outcome.Agreed? then offered else None, now));
      }
    }
  }

  lemma FaithfulCapture(db: Db, sid: nat)
    requires Faithful(db) && sid < |db.sessions|
    ensures Faithful(Capture(db, sid))
  {
    if MarkChanges(db, sid) { FaithfulLog(db, sid, PaymentCaptured, Capture(db, sid)); }
  }

  lemma FaithfulStep(db: Db, r: Request, now: Time)
    requires Faithful(db) && Possible(db, r, now)
    ensures Faithful(Serve(db, r, now))
  {
    match r
    case AssignCall(call, pick) =>
      if pick.Some? { FaithfulLog(db, pick.value, SessionAssigned(call), Serve(db, r, now)); }
    case EndCall(call, outcome, promise, offered) =>
      var found := FindFirst(db.sessions, HasCall(call));
      if found.Some? { FaithfulEnd(db, found.value, outcome, promise, offered, now); }
    case PaymentCapturedFor(payment) =>
      var found := FindFirst(db.sessions, HasPayment(payment));
      if found.Some? { FaithfulCapture(db, found.value); }
    case LinkPaid(link) =>
      var found := FindFirst(db.sessions, HasLink(link));
      if found.Some? { FaithfulCapture(db, found.value); }
    case PaymentFailed(account, campaign) =>
      if campaign.Some? { FaithfulFailedPayment(db, campaign.value, account, now); }
    case LoadCampaign(accounts) =>
      FaithfulLoad(InsertCampaign(db, |accounts|, now), |db.campaigns|, accounts, now);
  }

  /** Replaying the audit log reproduces every session's status, attempts, link and promise. */
  lemma {:induction false} AuditReplay(dbs: seq<Db>, requests: seq<Request>, times: seq<Time>, k: nat)
    requires IsSerialRun(dbs, requests, times) && k < |dbs|
    ensures Faithful(dbs[k])
  {
    if k > 0 {
      AuditReplay(dbs, requests, times, k - 1);
      FaithfulStep(dbs[k - 1], requests[k - 1], times[k - 1]);
    }
  }

  // ---------- loads ----------

  /** No account repeats a payment id of a session or of an earlier account. */
  predicate FreshPayments(sessions: seq<Session>, accounts: seq<Account>)
  {
    forall i :: 0 <= i < |accounts| && accounts[i].payment.Some? ==>
      && (forall j :: 0 <= j < |sessions| ==> sessions[j].payment != accounts[i].payment)
      && (forall j :: 0 <= j < i ==> accounts[j].payment != accounts[i].payment)
  }

  /** A load inserts every account exactly when no payment id is repeated, and a prefix of them otherwise. */
  lemma {:induction false} LoadCompletes(db: Db, campaign: nat, accounts: seq<Account>, now: Time)
    ensures var added := |LoadAll(db, campaign, accounts, now).sessions| - |db.sessions|;
      && 0 <= added <= |accounts|
      && (added == |accounts| <==> FreshPayments(db.sessions, accounts))
      && LoadAll(db, campaign, accounts, now).campaigns == db.campaigns
    decreases |accounts|
  {
    if accounts != [] {
      var head, rest := accounts[0], accounts[1..];
      if PaymentFree(db, head.payment) {
        var next := LoadOne(db, campaign, head, now);
        LoadCompletes(next, campaign, rest, now);
        FreshPaymentsCons(db, campaign, accounts, now);
      } else {
        assert accounts[0].payment == head.payment;
      }
    }
  }

  lemma FreshPaymentsCons(db: Db, campaign: nat, accounts: seq<Account>, now: Time)
    requires accounts != [] && PaymentFree(db, accounts[0].payment)
    ensures FreshPayments(db.sessions, accounts)
      <==> FreshPayments(LoadOne(db, campaign, accounts[0], now).sessions, accounts[1..])
  {
    var next, rest := LoadOne(db, campaign, accounts[0], now).sessions, accounts[1..];
    assert next == db.sessions + [NewSession(campaign, accounts[0], now)];
    if FreshPayments(db.sessions, accounts) {
      forall i | 0 <= i < |rest| && rest[i].payment.Some?
        ensures (forall j :: 0 <= j < |next| ==> next[j].payment != rest[i].payment)
             && (forall j :: 0 <= j < i ==> rest[j].payment != rest[i].payment)
      {
        assert rest[i] == accounts[i + 1];
        forall j | 0 <= j < i ensures rest[j].payment != rest[i].payment { assert rest[j] == accounts[j + 1]; }
      }
    }
    if FreshPayments(next, rest) {
      forall i | 0 <= i < |accounts| && accounts[i].payment.Some?
        ensures (forall j :: 0 <= j < |db.sessions| ==> db.sessions[j].payment != accounts[i].payment)
             && (forall j :: 0 <= j < i ==> accounts[j].payment != accounts[i].payment)
      {
        if i > 0 {
          assert accounts[i] == rest[i - 1];
          assert next[|db.sessions|].payment == accounts[0].payment;
          forall j | 0 <= j < |db.sessions| ensures db.sessions[j].payment != accounts[i].payment {
            assert next[j] == db.sessions[j];
          }
          forall j | 0 <= j < i ensures accounts[j].payment != accounts[i].payment {
            if j > 0 { assert accounts[j] == rest[j - 1]; }
          }
        }
      }
    }
  }

  // ---------- every session has its campaign ----------

  /** Every session belongs to a campaign that exists. */
  ghost predicate Owned(db: Db)
  {
    forall i :: 0 <= i < |db.sessions| ==> db.sessions[i].campaign < |db.campaigns|
  }

  lemma {:induction false} LoadOwned(db: Db, campaign: nat, accounts: seq<Account>, now: Time)
    requires Owned(db) && campaign < |db.campaigns|
    ensures Owned(LoadAll(db, campaign, accounts, now))
    decreases |accounts|
  {
    if accounts != [] && PaymentFree(db, accounts[0].payment) {
      LoadOwned(LoadOne(db, campaign, accounts[0], now), campaign, accounts[1..], now);
    }
  }

  lemma {:induction false} RunOwned(dbs: seq<Db>, requests: seq<Request>, times: seq<Time>, k: nat)
    requires IsSerialRun(dbs, requests, times) && k < |dbs|
    ensures Owned(dbs[k])
  {
    if k > 0 {
      RunOwned(dbs, requests, times, k - 1);
      var db, r, now := dbs[k - 1], requests[k - 1], times[k - 1];
      if r.LoadCampaign? && r.accounts != [] {
        LoadOwned(InsertCampaign(db, |r.accounts|, now), |db.campaigns|, r.accounts, now);
      }
    }
  }

  // ---------- repeated requests ----------

  /** The end of a call that settles nothing: no link could be made, or no verdict with calls to spare. */
  predicate LeavesOpen(x: Session, outcome: Outcome, offered: Option<nat>)
  {
    && OutcomeRecordableFrom(x.status)
    && ((outcome.Agreed? && offered.None?) || (outcome.Unclassified? && x.attempts < x.maxAttempts))
  }

  /**
   * Sending the same end-of-call again is without effect exactly when the
   * first one did not leave the session open, which the row before it
   * decides; a session left open collects the audit rows again.
   */
  lemma RepeatedEndChangesNothing(db: Db, sid: nat, outcome: Outcome, promise: DateText, offered: Option<nat>,
                                  now: Time, later: Time)
    requires sid < |db.sessions|
    requires outcome.Agreed? && offered.Some? ==> LinkFree(db, sid, offered)
    ensures var once := EndFound(db, sid, outcome, promise, offered, now);
      EndFound(once, sid, outcome, promise, offered, later) == once
      <==> !OutcomeRecordableFrom(once.sessions[sid].status)
    ensures var once := EndFound(db, sid, outcome, promise, offered, now);
      EndFound(once, sid, outcome, promise, offered, later) == once
      <==> !LeavesOpen(db.sessions[sid], outcome, offered)
  {
    var once := EndFound(db, sid, outcome, promise, offered, now);
    var twice := EndFound(once, sid, outcome, promise, offered, later);
    if OutcomeRecordableFrom(once.sessions[sid].status) {
      assert |twice.audit| > |once.audit|;
    }
  }

  /** A redelivered payment.failed finds the session of the first delivery, whatever campaign is newest by then. */
  lemma RedeliveryChangesNothing(db: Db, c: nat, c': nat, account: Account, now: Time, later: Time)
    requires account.payment.Some?
    ensures var once := AddFailedPayment(db, c, account, now);
      && AddFailedPayment(once, c', account, later) == once
      && exists sid :: 0 <= sid < |once.sessions| && once.sessions[sid].payment == account.payment
  {
    var once := AddFailedPayment(db, c, account, now);
    if PaymentFree(db, account.payment) {
      assert once.sessions[|db.sessions|].payment == account.payment;
    } else {
      var j :| 0 <= j < |db.sessions| && db.sessions[j].payment == account.payment;
      assert once.sessions[j].payment == account.payment;
    }
  }
}
