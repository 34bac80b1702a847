/** The store: the tables as mutable state, one method per statement or transaction. */
module RecoveryStore {
  import opened Basics
  import opened RecoveryMeaning
  import opened RecoveryModel
  import opened RecoverySerial

  datatype Bucket = DueNow | OnHold | Closed

  /** The CASE expression of the queue view. */
  function BucketOf(x: Session, now: Time): Bucket
  {
    if EligibleNow(x, now) then DueNow else if StillContactable(x) then OnHold else Closed
  }

  /** ORDER BY next_eligible_at ASC, created_at ASC, with NULL first. */
  predicate ViewOrder(a: Session, b: Session)
  {
    match (a.timer, b.timer)
    case (None, None) => a.created <= b.created
    case (None, Some(_)) => true
    case (Some(_), None) => false
    case (Some(_), Some(_)) => NotAfter(a, b)
  }

  /** Distinct rows in view order. */
  ghost predicate InViewOrder(sessions: seq<Session>, rows: seq<nat>)
  {
    && (forall k :: 0 <= k < |rows| ==> rows[k] < |sessions|)
    && (forall j, k :: 0 <= j < k < |rows| ==>
          rows[j] != rows[k] && ViewOrder(sessions[rows[j]], sessions[rows[k]]))
  }

  /** `rows` lists every session of the campaign exactly once, in view order. */
  ghost predicate IsQueueOf(db: Db, campaign: nat, rows: seq<nat>)
  {
    && InViewOrder(db.sessions, rows)
    && (forall k :: 0 <= k < |rows| ==> db.sessions[rows[k]].campaign == campaign)
    && (forall i :: 0 <= i < |db.sessions| && db.sessions[i].campaign == campaign ==> i in rows)
  }

  /** One line of the view, without the customer and product names. */
  datatype QueueEntry = QueueEntry(
    sid: nat,
    paise: int,
    status: Status,
    bucket: Bucket,
    attempts: nat,
    maxAttempts: nat,
    timer: Option<Time>)

  function EntryOf(x: Session, sid: nat, now: Time): QueueEntry
  {
    QueueEntry(sid, x.paise, x.status, BucketOf(x, now), x.attempts, x.maxAttempts, x.timer)
  }

  function Sids(entries: seq<QueueEntry>): (rows: seq<nat>)
  {
    seq(|entries|, k requires 0 <= k < |entries| => entries[k].sid)
  }

  /** `entries` is a campaign's queue, each line computed from its own row at `now`. */
  ghost predicate IsView(db: Db, campaign: nat, now: Time, entries: seq<QueueEntry>)
  {
    && IsQueueOf(db, campaign, Sids(entries))
    && forall k :: 0 <= k < |entries| ==>
         && entries[k].sid < |db.sessions|
         && entries[k] == EntryOf(db.sessions[entries[k].sid], entries[k].sid, now)
  }

  /** A bucket is due now, on hold or closed by timer, attempts and status alone. */
  ghost predicate BucketFits(x: Session, now: Time, bucket: Bucket)
  {
    var waits := x.timer.Some? && x.attempts < x.maxAttempts
      && (x.status == Pending || x.status == Unclear || x.status == LinkSent || x.status == Promised);
    match bucket
    case DueNow => waits && x.timer.value <= now
    case OnHold => waits && x.timer.value > now
    case Closed => !waits
  }

  /** A NULL timer sorts first; equal timers sort by creation. */
  ghost predicate SortsBefore(x: Session, y: Session)
  {
    if x.timer == y.timer then x.created <= y.created
    else x.timer == None || (y.timer.Some? && x.timer.value < y.timer.value)
  }

  /** The view in terms of the table: each session of the campaign once, sorted, and each line its own row's columns. */
  ghost predicate ViewShows(db: Db, campaign: nat, now: Time, entries: seq<QueueEntry>)
  {
    && (forall k :: 0 <= k < |entries| ==>
          && entries[k].sid < |db.sessions|
          && var x := db.sessions[entries[k].sid];
          && x.campaign == campaign && BucketFits(x, now, entries[k].bucket)
          && entries[k].paise == x.paise && entries[k].status == x.status
          && entries[k].attempts == x.attempts && entries[k].maxAttempts == x.maxAttempts
          && entries[k].timer == x.timer)
    && (forall j, k :: 0 <= j < k < |entries| ==>
          && entries[j].sid != entries[k].sid
          && SortsBefore(db.sessions[entries[j].sid], db.sessions[entries[k].sid]))
    && forall i :: 0 <= i < |db.sessions| && db.sessions[i].campaign == campaign ==>
         exists k :: 0 <= k < |entries| && entries[k].sid == i
  }

  lemma ViewMeans(db: Db, campaign: nat, now: Time, entries: seq<QueueEntry>)
    requires IsView(db, campaign, now, entries)
    ensures ViewShows(db, campaign, now, entries)
  {
    var rows := Sids(entries);
    assert forall k :: 0 <= k < |entries| ==> rows[k] == entries[k].sid;
    forall j, k | 0 <= j < k < |entries|
      ensures entries[j].sid != entries[k].sid
      ensures SortsBefore(db.sessions[entries[j].sid], db.sessions[entries[k].sid])
    {
      assert ViewOrder(db.sessions[rows[j]], db.sessions[rows[k]]);
    }
    forall i | 0 <= i < |db.sessions| && db.sessions[i].campaign == campaign
      ensures exists k :: 0 <= k < |entries| && entries[k].sid == i
    {
      assert i in rows;
      var k :| 0 <= k < |rows| && rows[k] == i;
      assert entries[k].sid == i;
    }
  }

  /** Puts row `i` after every row that sorts at or before it. */
  method InsertInOrder(sessions: seq<Session>, rows: seq<nat>, i: nat) returns (r: seq<nat>)
    requires InViewOrder(sessions, rows) && i < |sessions| && i !in rows
    ensures InViewOrder(sessions, r)
    ensures forall x :: x in r <==> x == i || x in rows
  {
    var at := 0;
    while at < |rows| && ViewOrder(sessions[rows[at]], sessions[i])
      invariant at <= |rows|
      invariant forall k :: 0 <= k < at ==> ViewOrder(sessions[rows[k]], sessions[i])
    {
      at := at + 1;
    }
    r := rows[..at] + [i] + rows[at..];
    InsertKeepsOrder(sessions, rows, i, at);
  }

  lemma InsertKeepsOrder(sessions: seq<Session>, rows: seq<nat>, i: nat, at: nat)
    requires InViewOrder(sessions, rows) && i < |sessions| && i !in rows && at <= |rows|
    requires forall k :: 0 <= k < at ==> ViewOrder(sessions[rows[k]], sessions[i])
    requires at < |rows| ==> !ViewOrder(sessions[rows[at]], sessions[i])
    ensures InViewOrder(sessions, rows[..at] + [i] + rows[at..])
  {
    var r := rows[..at] + [i] + rows[at..];
    assert forall k :: 0 <= k < |r| ==> r[k] == if k < at then rows[k] else if k == at then i else rows[k - 1];
    forall k | at <= k < |rows| ensures ViewOrder(sessions[i], sessions[rows[k]]) {
      assert at < k ==> ViewOrder(sessions[rows[at]], sessions[rows[k]]);
    }
    forall j, k | 0 <= j < k < |r| ensures r[j] != r[k] && ViewOrder(sessions[r[j]], sessions[r[k]]) {
      if j != at && k != at {
        var j0, k0 := if j < at then j else j - 1, if k < at then k else k - 1;
        assert rows[j0] != rows[k0] && ViewOrder(sessions[rows[j0]], sessions[rows[k0]]);
      }
    }
  }

  /** Assigning someone closes their entry at once: an active session is in no waiting bucket. */
  lemma AssignmentClosesEntry(db: Db, i: nat, call: string, now: Time, later: Time)
    requires IsNext(db, i, now)
    ensures BucketOf(db.sessions[i], now).DueNow?
    ensures BucketOf(AssignTx(db, i, call, now).sessions[i], later).Closed?
  {
  }

  // ---------- migration ----------

  /** The backfill of a database written before timers existed. */
  function Backfill(x: Session, callEnded: Option<Time>): Session
  {
    match x.status
    case Refused => x.(timer := None)
    case Recovered => x.(timer := None)
    case Failed => x.(timer := None)
    case _ => x.(timer := Some(if callEnded.Some? then callEnded.value else x.created))
  }

  /** Rows differ in the timer alone: NULL exactly when stopped, else the call's end or the creation time. */
  ghost predicate Backfilled(before: seq<Session>, callEnded: seq<Option<Time>>, after: seq<Session>)
    requires |callEnded| == |before|
  {
    && |after| == |before|
    && forall i :: 0 <= i < |before| ==>
         && after[i].(timer := None) == before[i].(timer := None)
         && (after[i].timer.None? <==> Stopped(after[i].status))
         && (after[i].timer.Some? ==>
               after[i].timer == if callEnded[i].Some? then callEnded[i] else Some(before[i].created))
  }

  /** ALTER TABLE then one UPDATE over every row. */
  method Migrate(sessions: seq<Session>, callEnded: seq<Option<Time>>) returns (migrated: seq<Session>)
    requires |sessions| == |callEnded|
    ensures Backfilled(sessions, callEnded, migrated)
  {
    migrated := [];
    for i := 0 to |sessions|
      invariant |migrated| == i
      invariant forall k :: 0 <= k < i ==> migrated[k] == Backfill(sessions[k], callEnded[k])
    {
      migrated := migrated + [Backfill(sessions[i], callEnded[i])];
    }
  }

  /** The assignment query picks among exactly the sessions that may be called. */
  lemma DueIsAssignable(db: Db, now: Time)
    ensures forall i: nat :: IsDue(db, i, now) <==> Assignable(db, i, now)
  {
  }

  datatype Assigned = Nobody | Claimed(sid: nat) | CallIdTaken

  class DB {
    var campaigns: seq<Campaign>
    var sessions: seq<Session>
    var audit: seq<Row>

    ghost function State(): Db
      reads this
    {
      Db(campaigns, sessions, audit)
    }

    /**
     * Opens the stored tables, empty ones for a new file. `legacy` has the
     * call-end times of a file written before timers existed, which is
     * migrated.
     */
    constructor Open(stored: Db, legacy: Option<seq<Option<Time>>>)
      requires legacy.Some? ==> |legacy.value| == |stored.sessions|
      ensures legacy.None? ==> State() == stored
      ensures legacy.Some? ==>
        && campaigns == stored.campaigns && audit == stored.audit
        && Backfilled(stored.sessions, legacy.value, sessions) && TimersAgree(State())
    {
      campaigns, audit := stored.campaigns, stored.audit;
      if legacy.None? {
        sessions := stored.sessions;
      } else {
        var migrated := Migrate(stored.sessions, legacy.value);
        sessions := migrated;
      }
    }

    method InsertCampaign(total: nat, now: Time) returns (id: nat)
      modifies this
      ensures State() == RecoveryModel.InsertCampaign(old(State()), total, now)
      ensures id == |old(campaigns)|
    {
      id := |campaigns|;
      campaigns := campaigns + [Campaign(total, Running, now)];
    }

    /** Rejected by the unique index when the payment id is already there. */
    method InsertRecoverySession(campaign: nat, account: Account, now: Time) returns (id: Option<nat>)
      modifies this
      ensures id == if PaymentFree(old(State()), account.payment) then Some(|old(sessions)|) else None
      ensures State() == if id.Some? then InsertSession(old(State()), campaign, account, now) else old(State())
    {
      if account.payment.Some? {
        var existing := GetSessionByPayment(account.payment.value);
        if existing.Some? { return None; }
      }
      id := Some(|sessions|);
      sessions := sessions + [NewSession(campaign, account, now)];
    }

    method InsertAuditLog(sid: nat, event: AuditEvent)
      modifies this
      ensures State() == Log(old(State()), sid, event)
    {
      audit := audit + [Row(sid, event)];
    }

    method IncrementCampaignTotal(campaign: nat)
      modifies this
      ensures State() == IncrementTotal(old(State()), campaign)
    {
      if campaign < |campaigns| {
        campaigns := campaigns[campaign := campaigns[campaign].(total := campaigns[campaign].total + 1)];
      }
    }

    method GetSessionByCall(call: string) returns (r: Option<nat>)
      ensures r == FindFirst(sessions, HasCall(call))
    {
      r := FindFirst(sessions, HasCall(call));
    }

    method GetSessionByPayment(payment: string) returns (r: Option<nat>)
      ensures r == FindFirst(sessions, HasPayment(payment))
    {
      r := FindFirst(sessions, HasPayment(payment));
    }

    method GetSessionByLink(link: nat) returns (r: Option<nat>)
      ensures r == FindFirst(sessions, HasLink(link))
    {
      r := FindFirst(sessions, HasLink(link));
    }

    /** The newest active campaign, or none. */
    method GetMostRecentActiveCampaign() returns (r: Option<nat>)
      ensures r.Some? ==> IsNewestActive(State(), r.value)
      ensures r.None? ==> forall c :: 0 <= c < |campaigns| ==> !campaigns[c].status.Running?
    {
      r := None;
      for c := 0 to |campaigns|
        invariant r.Some? ==>
          && r.value < c && campaigns[r.value].status.Running?
          && forall k :: 0 <= k < c && campaigns[k].status.Running? ==>
               campaigns[k].created <= campaigns[r.value].created
        invariant r.None? ==> forall k :: 0 <= k < c ==> !campaigns[k].status.Running?
      {
        if campaigns[c].status.Running? && (r.None? || campaigns[r.value].created < campaigns[c].created) {
          r := Some(c);
        }
      }
    }

    /** The SELECT of the assignment transaction. */
    method SelectNext(now: Time) returns (r: Option<nat>)
      ensures r.Some? ==> IsNext(State(), r.value, now)
      ensures r.None? ==> forall i: nat :: !Assignable(State(), i, now)
      ensures r.None? <==> forall i: nat :: !IsDue(State(), i, now)
    {
      r := None;
      for i := 0 to |sessions|
        invariant r.Some? ==>
          && r.value < i && Assignable(State(), r.value, now)
          && forall j: nat :: j < i && Assignable(State(), j, now) ==> NotAfter(sessions[r.value], sessions[j])
        invariant r.None? ==> forall j: nat :: j < i ==> !Assignable(State(), j, now)
      {
        var x := sessions[i];
        if x.campaign < |campaigns| && campaigns[x.campaign].status.Running? && EligibleNow(x, now)
           && (r.None? || !NotAfter(sessions[r.value], x)) {
          r := Some(i);
        }
      }
      DueIsAssignable(State(), now);
    }

    /** Claims the longest-waiting eligible session; the unique index on call ids can roll it back. */
    method AssignNextPending(call: string, now: Time) returns (r: Assigned)
      modifies this
      ensures r.Nobody? ==> State() == old(State()) && forall i: nat :: !Assignable(old(State()), i, now)
      ensures r.Nobody? <==> forall i: nat :: !IsDue(old(State()), i, now)
      ensures r.Claimed? ==> ClaimedFor(old(State()), State(), r.sid, call, now) && audit == old(audit)
      ensures r.Claimed? ==>
        && IsNext(old(State()), r.sid, now) && CallFree(old(State()), r.sid, call)
        && State() == AssignTx(old(State()), r.sid, call, now)
        && forall later :: BucketOf(sessions[r.sid], later).Closed?
      ensures r.CallIdTaken? ==>
        && State() == old(State())
        && exists i :: IsNext(old(State()), i, now) && !CallFree(old(State()), i, call)
    {
      var next := SelectNext(now);
      DueIsAssignable(State(), now);
      if next.None? { return Nobody; }
      var i := next.value;
      if !CallFree(Db(campaigns, sessions, audit), i, call) { return CallIdTaken; }
      ghost var before := State();
      sessions := sessions[i := Bind(sessions[i], call, now)];
      forall later ensures BucketOf(sessions[i], later).Closed? {
        AssignmentClosesEntry(before, i, call, now, later);
      }
      return Claimed(i);
    }

    /** One transaction: the row and its audit events, or nothing. */
    method RecordOutcome(w: OutcomeWrite) returns (applied: bool)
      modifies this
      ensures State() == RecoveryModel.RecordOutcome(old(State()), w)
      ensures applied == RecordCommits(old(State()), w)
    {
      applied := RecordCommits(Db(campaigns, sessions, audit), w);
      if applied {
        sessions := sessions[w.sid := ApplyWrite(sessions[w.sid], w)];
        ghost var before := audit;
        for k := 0 to |w.events|
          invariant sessions == old(sessions)[w.sid := ApplyWrite(old(sessions)[w.sid], w)]
          invariant campaigns == old(campaigns)
          invariant audit == before + Rows(w.sid, w.events)[..k]
        {
          audit := audit + [Row(w.sid, w.events[k])];
        }
      }
    }

    method MarkRecovered(sid: nat) returns (changed: bool)
      modifies this
      ensures State() == RecoveryModel.MarkRecovered(old(State()), sid)
      ensures changed == MarkChanges(old(State()), sid)
    {
      changed := sid < |sessions| && !sessions[sid].status.Recovered?;
      if changed {
        sessions := sessions[sid := sessions[sid].(status := Recovered, timer := None)];
      }
    }

    method SetNextEligibleAt(sid: nat, at: Time)
      modifies this
      ensures State() == SetTimer(old(State()), sid, at)
    {
      if sid < |sessions| {
        sessions := sessions[sid := sessions[sid].(timer := Some(at))];
      }
    }

    /** Every session of a campaign once, in view order, with its bucket. */
    method CampaignQueue(campaign: nat, now: Time) returns (entries: seq<QueueEntry>)
      ensures IsView(State(), campaign, now, entries) && ViewShows(State(), campaign, now, entries)
    {
      var rows := [];
      for i := 0 to |sessions|
        invariant InViewOrder(sessions, rows)
        invariant forall x :: x in rows <==> 0 <= x < i && sessions[x].campaign == campaign
      {
        if sessions[i].campaign == campaign {
          rows := InsertInOrder(sessions, rows, i);
        }
      }
      entries := [];
      for k := 0 to |rows|
        invariant |entries| == k
        invariant forall j :: 0 <= j < k ==> entries[j] == EntryOf(sessions[rows[j]], rows[j], now)
      {
        entries := entries + [EntryOf(sessions[rows[k]], rows[k], now)];
      }
      assert Sids(entries) == rows;
      ViewMeans(State(), campaign, now, entries);
    }
  }

  // ---------- the view and the assigner agree ----------

  /** Some entry is due. */
  predicate ListsDue(entries: seq<QueueEntry>)
  {
    exists k :: 0 <= k < |entries| && entries[k].bucket.DueNow?
  }

  /** Every session of the campaign has its line in the view. */
  lemma EntryFor(db: Db, campaign: nat, now: Time, entries: seq<QueueEntry>, i: nat) returns (k: nat)
    requires IsView(db, campaign, now, entries) && i < |db.sessions| && db.sessions[i].campaign == campaign
    ensures k < |entries| && entries[k] == EntryOf(db.sessions[i], i, now)
  {
    assert i in Sids(entries);
    k :| 0 <= k < |entries| && Sids(entries)[k] == i;
  }

  /** Nothing is assignable exactly when no active campaign's view lists anyone as due. */
  lemma NobodyDueNobodyAssigned(db: Db, now: Time, views: seq<seq<QueueEntry>>)
    requires |views| == |db.campaigns|
    requires forall c :: 0 <= c < |views| ==> IsView(db, c, now, views[c])
    ensures (forall i: nat :: !Assignable(db, i, now)) <==>
      (forall c :: 0 <= c < |views| && db.campaigns[c].status.Running? ==> !ListsDue(views[c]))
  {
    if i: nat :| Assignable(db, i, now) {
      var c := db.sessions[i].campaign;
      var k := EntryFor(db, c, now, views[c], i);
      assert views[c][k].bucket.DueNow?;
    }
    if c :| 0 <= c < |views| && db.campaigns[c].status.Running? && ListsDue(views[c]) {
      var k :| 0 <= k < |views[c]| && views[c][k].bucket.DueNow?;
      assert Sids(views[c])[k] == views[c][k].sid;
      assert Assignable(db, views[c][k].sid, now);
    }
  }

  /**
   * The session the assigner takes is listed as due in its campaign's view,
   * no due entry of any active campaign sorts strictly before it, and in its
   * own view only entries with an equal key can stand ahead of it.
   */
  lemma AssignedIsFirstDue(db: Db, i: nat, now: Time, c: nat, entries: seq<QueueEntry>, k: nat)
    requires IsNext(db, i, now) && IsView(db, c, now, entries)
    requires c < |db.campaigns| && db.campaigns[c].status.Running?
    requires k < |entries| && entries[k].bucket.DueNow?
    ensures entries[k].sid < |db.sessions| && ViewOrder(db.sessions[i], db.sessions[entries[k].sid])
    ensures db.sessions[i].campaign == c ==>
      exists m :: 0 <= m < |entries| && entries[m].sid == i && entries[m].bucket.DueNow?
        && (k < m ==> ViewOrder(db.sessions[entries[k].sid], db.sessions[i]))
  {
    var rows := Sids(entries);
    assert rows[k] == entries[k].sid;
    assert Assignable(db, rows[k], now);
    if db.sessions[i].campaign == c {
      var m := EntryFor(db, c, now, entries, i);
      assert rows[m] == i;
      assert k < m ==> ViewOrder(db.sessions[rows[k]], db.sessions[rows[m]]);
    }
  }
}
