/**
 * The campaign manager: each method, run without interruption, leaves the
 * tables exactly as Serve says and answers what the handler reports.
 */
module RecoveryManager {
  import opened Basics
  import opened RecoveryMeaning
  import opened RecoveryModel
  import opened RecoverySerial
  import opened RecoveryStore

  datatype EndResult = Recorded | AlreadyRecorded | NoSession | LinkFailed

  datatype Delivery = RecoveredNow | Duplicate | UnknownSession

  datatype Inbound = Created(sid: nat) | Existing(sid: nat) | NoActiveCampaign

  /** The first session bound to the call answers for its end. */
  ghost predicate EndAnswered(before: Db, after: Db, sid: nat, call: string, outcome: Outcome, promise: DateText,
                              offered: Option<nat>, now: Time, r: EndResult)
  {
    && sid < |before.sessions| && before.sessions[sid].call == Some(call)
    && (forall i :: 0 <= i < sid ==> before.sessions[i].call != Some(call))
    && var x := before.sessions[sid];
    var open := x.status == Active || x.status == Unclear;
    match r
    case NoSession => false
    case AlreadyRecorded => !open && after == before
    case LinkFailed =>
      && open && outcome == Agreed && offered == None
      && after.campaigns == before.campaigns && after.sessions == before.sessions
      && Appended(before.audit, after.audit, sid, [PaymentLinkFailed])
    case Recorded =>
      && open && (outcome == Agreed ==> offered.Some?)
      && OutcomeRecorded(before, after, sid, outcome, promise, if outcome == Agreed then offered else None,
                         x.attempts >= x.maxAttempts, now)
  }

  /** What loading accounts one by one leaves: a prefix of them, all of them when no payment id repeats. */
  lemma {:induction false} LoadMeans(db: Db, campaign: nat, accounts: seq<Account>, now: Time) returns (n: nat)
    ensures n <= |accounts| && RowsLoaded(db, LoadAll(db, campaign, accounts, now), campaign, accounts, n, now)
    ensures LoadAll(db, campaign, accounts, now).campaigns == db.campaigns
    ensures FreshPayments(db.sessions, accounts[..n])
    ensures n < |accounts| ==> Taken(LoadAll(db, campaign, accounts, now).sessions, accounts[n].payment)
    decreases |accounts|
  {
    if accounts == [] || !PaymentFree(db, accounts[0].payment) {
      n := 0;
    } else {
      var next := LoadOne(db, campaign, accounts[0], now);
      var m := LoadMeans(next, campaign, accounts[1..], now);
      n := m + 1;
      assert accounts[..n][0] == accounts[0] && accounts[..n][1..] == accounts[1..][..m];
      FreshPaymentsCons(db, campaign, accounts[..n], now);
    }
  }

  lemma FailedPaymentMeans(db: Db, campaign: nat, account: Account, now: Time)
    requires IsNewestActive(db, campaign) && PaymentFree(db, account.payment)
    ensures FailureJoined(db, AddFailedPayment(db, campaign, account, now), campaign, account, now)
  {
  }

  class Manager {
    const db: DB

    constructor (db: DB)
      ensures this.db == db
    {
      this.db := db;
    }

    /** `accounts` becomes a campaign; a repeated payment id aborts the load where it stands. */
    method CreateCampaign(accounts: seq<Account>, now: Time) returns (campaign: Option<nat>)
      modifies db
      ensures db.State() == Serve(old(db.State()), LoadCampaign(accounts), now)
      ensures campaign.Some? <==> accounts != [] && FreshPayments(old(db.sessions), accounts)
      ensures campaign.Some? ==>
        && campaign.value == |old(db.campaigns)| && campaign.value < |db.campaigns|
        && db.campaigns[campaign.value].total == |accounts| == |db.sessions| - |old(db.sessions)|
      ensures accounts == [] ==> db.State() == old(db.State())
      ensures accounts != [] ==> exists n ::
        && 0 <= n <= |accounts| && (campaign.Some? <==> n == |accounts|)
        && CampaignLoaded(old(db.State()), db.State(), accounts, n, now)
        && FreshPayments(old(db.sessions), accounts[..n])
    {
      if accounts == [] { return None; }
      var c := db.InsertCampaign(|accounts|, now);
      ghost var start := db.State();
      LoadCompletes(start, c, accounts, now);
      ghost var n := LoadMeans(start, c, accounts, now);
      assert CampaignLoaded(old(db.State()), LoadAll(start, c, accounts, now), accounts, n, now);
      for i := 0 to |accounts|
        invariant LoadAll(db.State(), c, accounts[i..], now) == LoadAll(start, c, accounts, now)
        invariant |db.sessions| == |start.sessions| + i && db.campaigns == start.campaigns
      {
        var before := db.State();
        var sid := db.InsertRecoverySession(c, accounts[i], now);
        assert accounts[i..][0] == accounts[i] && accounts[i..][1..] == accounts[i + 1..];
        if sid.None? { return None; }
        db.InsertAuditLog(sid.value, SessionCreated);
        assert db.State() == LoadOne(before, c, accounts[i], now);
      }
      assert accounts[|accounts|..] == [];
      return Some(c);
    }

    /** Claims a session and logs the claim. */
    method AssignSession(call: string, now: Time) returns (r: Assigned)
      modifies db
      ensures r.Nobody? ==>
        && Possible(old(db.State()), AssignCall(call, None), now)
        && db.State() == Serve(old(db.State()), AssignCall(call, None), now)
      ensures r.Claimed? ==>
        && Possible(old(db.State()), AssignCall(call, Some(r.sid)), now)
        && db.State() == Serve(old(db.State()), AssignCall(call, Some(r.sid)), now)
      ensures r.Nobody? <==> forall i: nat :: !IsDue(old(db.State()), i, now)
      ensures r.Claimed? ==>
        && ClaimedFor(old(db.State()), db.State(), r.sid, call, now)
        && Appended(old(db.audit), db.audit, r.sid, [SessionAssigned(call)])
      ensures r.Nobody? || r.CallIdTaken? ==> db.State() == old(db.State())
      ensures r.CallIdTaken? ==> exists i :: 0 <= i < |db.sessions| && db.sessions[i].call == Some(call)
    {
      r := db.AssignNextPending(call, now);
      if r.Claimed? {
        db.InsertAuditLog(r.sid, SessionAssigned(call));
      }
    }

    /** `offered` is the link the provider returns, or None when it fails. */
    method EndSession(call: string, outcome: Outcome, promise: DateText, offered: Option<nat>, now: Time)
      returns (r: EndResult)
      modifies db
      requires offered.Some? ==> forall i :: 0 <= i < |db.sessions| ==> db.sessions[i].link != offered
      ensures db.State() == Serve(old(db.State()), EndCall(call, outcome, promise, offered), now)
      ensures var found := FindFirst(old(db.sessions), HasCall(call));
        && (r.NoSession? <==> found.None?)
        && (r.AlreadyRecorded? <==> found.Some? && !OutcomeRecordableFrom(old(db.sessions)[found.value].status))
        && (r.LinkFailed? <==>
              && found.Some? && OutcomeRecordableFrom(old(db.sessions)[found.value].status)
              && outcome.Agreed? && offered.None?)
      ensures r.NoSession? <==> forall i :: 0 <= i < |old(db.sessions)| ==> old(db.sessions)[i].call != Some(call)
      ensures r.NoSession? ==> db.State() == old(db.State())
      ensures !r.NoSession? ==>
        exists sid :: EndAnswered(old(db.State()), db.State(), sid, call, outcome, promise, offered, now, r)
    {
      var found := db.GetSessionByCall(call);
      if found.None? { return NoSession; }
      var x := db.sessions[found.value];
      ghost var before, sid := db.State(), found.value;
      if !OutcomeRecordableFrom(x.status) {
        assert EndAnswered(before, before, sid, call, outcome, promise, offered, now, AlreadyRecorded);
        return AlreadyRecorded;
      }
      var link: Option<nat> := None;
      if outcome.Agreed? {
        link := offered;
        if link.None? {
          db.InsertAuditLog(found.value, PaymentLinkFailed);
          assert EndAnswered(before, db.State(), sid, call, outcome, promise, offered, now, LinkFailed);
          return LinkFailed;
        }
      }
      var write := BuildWrite(found.value, x.attempts, x.maxAttempts, outcome, promise, link, now);
      var applied := db.RecordOutcome(write);
      BuiltWriteMeans(before, sid, x.attempts, x.maxAttempts, outcome, promise, link, now);
      assert EndAnswered(before, db.State(), sid, call, outcome, promise, offered, now, Recorded);
      return if applied then Recorded else AlreadyRecorded;
    }

    method HandlePaymentCaptured(payment: string) returns (r: Delivery)
      modifies db
      ensures db.State() == Serve(old(db.State()), PaymentCapturedFor(payment), 0)
      ensures r.UnknownSession? <==>
        forall i :: 0 <= i < |old(db.sessions)| ==> old(db.sessions)[i].payment != Some(payment)
      ensures r.RecoveredNow? ==> exists sid ::
        && 0 <= sid < |old(db.sessions)| && old(db.sessions)[sid].payment == Some(payment)
        && RecoveredOne(old(db.State()), db.State(), sid)
      ensures r.Duplicate? ==> exists sid ::
        && 0 <= sid < |db.sessions| && db.sessions[sid].payment == Some(payment) && db.sessions[sid].status == Recovered
      ensures !r.RecoveredNow? ==> db.State() == old(db.State())
    {
      var found := db.GetSessionByPayment(payment);
      if found.None? { return UnknownSession; }
      r := MarkRecovered(found.value);
    }

    method HandlePaymentLinkPaid(link: nat) returns (r: Delivery)
      modifies db
      ensures db.State() == Serve(old(db.State()), LinkPaid(link), 0)
      ensures r.UnknownSession? <==>
        forall i :: 0 <= i < |old(db.sessions)| ==> old(db.sessions)[i].link != Some(link)
      ensures r.RecoveredNow? ==> exists sid ::
        && 0 <= sid < |old(db.sessions)| && old(db.sessions)[sid].link == Some(link)
        && RecoveredOne(old(db.State()), db.State(), sid)
      ensures r.Duplicate? ==> exists sid ::
        && 0 <= sid < |db.sessions| && db.sessions[sid].link == Some(link) && db.sessions[sid].status == Recovered
      ensures !r.RecoveredNow? ==> db.State() == old(db.State())
    {
      var found := db.GetSessionByLink(link);
      if found.None? { return UnknownSession; }
      r := MarkRecovered(found.value);
    }

    method MarkRecovered(sid: nat) returns (r: Delivery)
      modifies db
      ensures db.State() == Capture(old(db.State()), sid)
      ensures r == if MarkChanges(old(db.State()), sid) then RecoveredNow else Duplicate
      ensures r.RecoveredNow? ==> RecoveredOne(old(db.State()), db.State(), sid)
      ensures r.Duplicate? ==>
        db.State() == old(db.State()) && (sid < |db.sessions| ==> db.sessions[sid].status == Recovered)
    {
      var changed := db.MarkRecovered(sid);
      if !changed { return Duplicate; }
      db.InsertAuditLog(sid, PaymentCaptured);
      return RecoveredNow;
    }

    /** An inbound failed payment joins the newest active campaign, once per payment id. */
    method HandlePaymentFailed(account: Account, now: Time) returns (r: Inbound)
      modifies db
      ensures r.NoActiveCampaign? <==>
        forall c :: 0 <= c < |old(db.campaigns)| ==> old(db.campaigns)[c].status != Running
      ensures r.NoActiveCampaign? ==>
        && Possible(old(db.State()), PaymentFailed(account, None), now) && db.State() == old(db.State())
      ensures r.Existing? ==>
        && r.sid < |db.sessions| && account.payment.Some? && db.sessions[r.sid].payment == account.payment
        && db.State() == old(db.State())
      ensures r.Existing? <==>
        !r.NoActiveCampaign? && Taken(old(db.sessions), account.payment)
      ensures r.Created? ==>
        && r.sid == |old(db.sessions)|
        && exists c :: FailureJoined(old(db.State()), db.State(), c, account, now)
      ensures r.Created? ==>
        exists c :: Possible(old(db.State()), PaymentFailed(account, Some(c)), now)
                    && db.State() == Serve(old(db.State()), PaymentFailed(account, Some(c)), now)
    {
      var c := db.GetMostRecentActiveCampaign();
      if c.None? { return NoActiveCampaign; }
      if account.payment.Some? {
        var existing := db.GetSessionByPayment(account.payment.value);
        if existing.Some? { return Existing(existing.value); }
      }
      var sid := db.InsertRecoverySession(c.value, account, now);
      db.IncrementCampaignTotal(c.value);
      db.InsertAuditLog(sid.value, WebhookReceived);
      db.InsertAuditLog(sid.value, SessionCreated);
      assert db.State() == AddFailedPayment(old(db.State()), c.value, account, now);
      assert Possible(old(db.State()), PaymentFailed(account, Some(c.value)), now);
      FailedPaymentMeans(old(db.State()), c.value, account, now);
      return Created(sid.value);
    }
  }
}
