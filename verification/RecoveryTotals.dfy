/** When a campaign's total is right, over whole serial runs, as its loader can tell beforehand. */
module RecoveryTotals {
  import opened Basics
  import opened RecoveryModel
  import opened RecoverySerial

  ghost function SessionCount(db: Db, c: nat): nat
  {
    Sum(db.sessions, InCampaign(c))
  }

  /** How far a campaign's total is ahead of its sessions. */
  ghost function Deficit(db: Db, c: nat): int
    requires c < |db.campaigns|
  {
    db.campaigns[c].total - SessionCount(db, c)
  }

  lemma LoadOneCounts(db: Db, campaign: nat, account: Account, now: Time, c: nat)
    ensures SessionCount(LoadOne(db, campaign, account, now), c)
      == SessionCount(db, c) + (if campaign == c then 1 else 0)
  {
    SumAppend(db.sessions, NewSession(campaign, account, now), InCampaign(c));
  }

  lemma {:induction false} LoadCounts(db: Db, campaign: nat, accounts: seq<Account>, now: Time, c: nat)
    ensures var db' := LoadAll(db, campaign, accounts, now);
      && |db.sessions| <= |db'.sessions|
      && SessionCount(db', c)
           == SessionCount(db, c) + (if campaign == c then |db'.sessions| - |db.sessions| else 0)
    decreases |accounts|
  {
    if accounts != [] && PaymentFree(db, accounts[0].payment) {
      LoadOneCounts(db, campaign, accounts[0], now, c);
      LoadCounts(LoadOne(db, campaign, accounts[0], now), campaign, accounts[1..], now, c);
    }
  }

  /** A request that only rewrites rows keeps every campaign's sessions. */
  lemma RewriteCounts(db: Db, db': Db, c: nat)
    requires |db'.sessions| == |db.sessions|
    requires forall i :: 0 <= i < |db.sessions| ==> db'.sessions[i].campaign == db.sessions[i].campaign
    ensures SessionCount(db', c) == SessionCount(db, c)
  {
    SumSame(db.sessions, db'.sessions, InCampaign(c));
  }

  /** An inbound failed payment adds its session to the total, or adds neither. */
  lemma FailedPaymentKeepsDeficit(db: Db, campaign: nat, account: Account, now: Time, c: nat)
    requires campaign < |db.campaigns| && c < |db.campaigns|
    ensures var db' := AddFailedPayment(db, campaign, account, now);
      c < |db'.campaigns| && Deficit(db', c) == Deficit(db, c)
  {
    SumAppend(db.sessions, NewSession(campaign, account, now), InCampaign(c));
  }

  /** A load is about its own, new campaign. */
  lemma LoadKeepsDeficit(db: Db, accounts: seq<Account>, now: Time, c: nat)
    requires c < |db.campaigns|
    ensures var db' := LoadAll(InsertCampaign(db, |accounts|, now), |db.campaigns|, accounts, now);
      c < |db'.campaigns| && Deficit(db', c) == Deficit(db, c)
  {
    var announced := InsertCampaign(db, |accounts|, now);
    LoadCompletes(announced, |db.campaigns|, accounts, now);
    LoadCounts(announced, |db.campaigns|, accounts, now, c);
  }

  /** No later request moves the deficit of a campaign that exists. */
  lemma ServeKeepsDeficit(db: Db, r: Request, now: Time, c: nat)
    requires Possible(db, r, now) && c < |db.campaigns|
    ensures c < |Serve(db, r, now).campaigns| && Deficit(Serve(db, r, now), c) == Deficit(db, c)
  {
    match r
    case PaymentFailed(account, campaign) =>
      if campaign.Some? { FailedPaymentKeepsDeficit(db, campaign.value, account, now, c); }
    case LoadCampaign(accounts) =>
      LoadKeepsDeficit(db, accounts, now, c);
    case _ => RewriteCounts(db, Serve(db, r, now), c);
  }

  /** Right after its load a campaign is short of exactly the accounts the load did not reach. */
  lemma LoadDeficit(db: Db, accounts: seq<Account>, now: Time)
    requires Owned(db) && accounts != []
    ensures var db', c := Serve(db, LoadCampaign(accounts), now), |db.campaigns|;
      c < |db'.campaigns| && (Deficit(db', c) == 0 <==> FreshPayments(db.sessions, accounts))
  {
    var c := |db.campaigns|;
    var announced := InsertCampaign(db, |accounts|, now);
    LoadCompletes(announced, c, accounts, now);
    LoadCounts(announced, c, accounts, now, c);
    SumZero(db.sessions, InCampaign(c));
  }

  /**
   * In every serial run a campaign's total is its number of sessions, at each
   * later point, exactly when no payment id of its load was repeated at the
   * moment the load began.
   */
  lemma {:induction false} TotalsFollowTheLoad(dbs: seq<Db>, requests: seq<Request>, times: seq<Time>, i: nat, j: nat)
    requires IsSerialRun(dbs, requests, times) && i < j < |dbs|
    requires requests[i].LoadCampaign? && requests[i].accounts != []
    ensures |dbs[i].campaigns| < |dbs[j].campaigns|
    ensures Deficit(dbs[j], |dbs[i].campaigns|) == 0 <==> FreshPayments(dbs[i].sessions, requests[i].accounts)
  {
    var k := j - 1;
    assert Possible(dbs[k], requests[k], times[k]) && dbs[j] == Serve(dbs[k], requests[k], times[k]);
    if k == i {
      RunOwned(dbs, requests, times, i);
      LoadDeficit(dbs[i], requests[i].accounts, times[i]);
    } else {
      TotalsFollowTheLoad(dbs, requests, times, i, k);
      ServeKeepsDeficit(dbs[k], requests[k], times[k], |dbs[i].campaigns|);
    }
  }
}
