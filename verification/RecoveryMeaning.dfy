/**
 * What each request means, said of the tables' columns alone: no word here is
 * shared with the statements that do it.
 */
module RecoveryMeaning {
  import opened Basics
  import opened RecoveryModel

  /** Row `sid` may differ, every other row and the number of rows are as before. */
  ghost predicate OnlyRow(before: seq<Session>, after: seq<Session>, sid: nat)
  {
    && |after| == |before| && sid < |before|
    && forall i :: 0 <= i < |before| && i != sid ==> after[i] == before[i]
  }

  /** The log grew by these events of one session, in this order. */
  ghost predicate Appended(before: seq<Row>, after: seq<Row>, sid: nat, events: seq<AuditEvent>)
  {
    && |after| == |before| + |events|
    && (forall i :: 0 <= i < |before| ==> after[i] == before[i])
    && forall i :: 0 <= i < |events| ==> after[|before| + i] == Row(sid, events[i])
  }

  // ---------- the end of a call ----------

  /** The row after an outcome computed at `now`; `exhausted` means no call was left. */
  ghost predicate EndedRow(x: Session, x': Session, outcome: Outcome, promise: DateText, link: Option<nat>,
                           exhausted: bool, now: Time)
  {
    match outcome
    case Agreed =>
      link.Some? && x' == x.(status := LinkSent, link := link, timer := Some(now + 86400))
    case PromisedToPay =>
      x' == x.(status := Promised,
               promise := if promise == Blank then x.promise else promise,
               timer := Some(if !promise.IsoDay? then now + 86400
                             else if promise.midnight > now then promise.midnight else now))
    case RefusedToPay =>
      x' == x.(status := Refused, timer := None)
    case Unclassified(_) =>
      x' == if exhausted then x.(status := Failed, timer := None)
            else x.(status := Unclear, timer := Some(now + 86400))
  }

  ghost function EndedEvents(outcome: Outcome, promise: DateText, link: Option<nat>, exhausted: bool,
                             timer: Option<Time>): seq<AuditEvent>
    requires outcome.Agreed? ==> link.Some?
  {
    match outcome
    case Agreed => [CallEnded(outcome), OutcomeClassified(outcome), PaymentLinkSent(link.value)]
    case PromisedToPay => [CallEnded(outcome), OutcomeClassified(outcome), PromiseLogged(promise, timer)]
    case RefusedToPay => [CallEnded(outcome), OutcomeClassified(outcome), StoppedRefused]
    case Unclassified(_) =>
      if exhausted then [CallEnded(outcome), OutcomeClassified(outcome), StoppedMaxAttempts]
      else [CallEnded(outcome), OutcomeClassified(outcome)]
  }

  /** One session's row and its audit rows tell the outcome that was reported, and nothing else changed. */
  ghost predicate OutcomeRecorded(before: Db, after: Db, sid: nat, outcome: Outcome, promise: DateText,
                                  link: Option<nat>, exhausted: bool, now: Time)
  {
    && after.campaigns == before.campaigns
    && OnlyRow(before.sessions, after.sessions, sid)
    && EndedRow(before.sessions[sid], after.sessions[sid], outcome, promise, link, exhausted, now)
    && Appended(before.audit, after.audit, sid,
                EndedEvents(outcome, promise, link, exhausted, after.sessions[sid].timer))
  }

  /** What a write built from these arguments records when it commits. */
  lemma BuiltWriteMeans(db: Db, sid: nat, attempts: nat, maxAttempts: nat, outcome: Outcome, promise: DateText,
                        link: Option<nat>, now: Time)
    requires outcome.Agreed? <==> link.Some?
    requires RecordCommits(db, BuildWrite(sid, attempts, maxAttempts, outcome, promise, link, now))
    ensures OutcomeRecorded(db, RecordOutcome(db, BuildWrite(sid, attempts, maxAttempts, outcome, promise, link, now)),
                            sid, outcome, promise, link, attempts >= maxAttempts, now)
  {
  }

  // ---------- claims ----------

  /** May be called at `now`. */
  ghost predicate MayCall(x: Session, now: Time)
  {
    && x.timer.Some? && x.timer.value <= now && x.attempts < x.maxAttempts
    && (x.status == Pending || x.status == Unclear || x.status == LinkSent || x.status == Promised)
  }

  ghost predicate IsDue(db: Db, i: nat, now: Time)
  {
    && i < |db.sessions| && MayCall(db.sessions[i], now)
    && db.sessions[i].campaign < |db.campaigns| && db.campaigns[db.sessions[i].campaign].status == Running
  }

  /** The longest-waiting due session is bound to the call, and to no other session is. */
  ghost predicate ClaimedFor(before: Db, after: Db, sid: nat, call: string, now: Time)
  {
    && IsDue(before, sid, now)
    && (forall j: nat :: IsDue(before, j, now) ==>
          var x, y := before.sessions[sid], before.sessions[j];
          x.timer.value < y.timer.value || (x.timer.value == y.timer.value && x.created <= y.created))
    && after.campaigns == before.campaigns
    && OnlyRow(before.sessions, after.sessions, sid)
    && after.sessions[sid] == before.sessions[sid].(
         status := Active,
         call := Some(call),
         attempts := before.sessions[sid].attempts + 1,
         callStarted := Some(now))
    && forall i :: 0 <= i < |after.sessions| ==> (after.sessions[i].call == Some(call) <==> i == sid)
  }

  // ---------- payments ----------

  /** One session not recovered before is recovered and never called again, and the log says so. */
  ghost predicate RecoveredOne(before: Db, after: Db, sid: nat)
  {
    && after.campaigns == before.campaigns
    && OnlyRow(before.sessions, after.sessions, sid)
    && before.sessions[sid].status != Recovered
    && after.sessions[sid] == before.sessions[sid].(status := Recovered, timer := None)
    && Appended(before.audit, after.audit, sid, [PaymentCaptured])
  }

  // ---------- new sessions ----------

  /** A session that has never been called: due at once, three calls to go. */
  ghost function FreshRow(campaign: nat, account: Account, now: Time): Session
  {
    Session(campaign, None, account.payment, account.paise, Pending, Blank, None, 0, 3, now, None, Some(now))
  }

  ghost predicate Taken(sessions: seq<Session>, payment: Option<string>)
  {
    payment.Some? && exists i :: 0 <= i < |sessions| && sessions[i].payment == payment
  }

  /** The first n accounts have their row and their audit row, in order, after what was there. */
  ghost predicate RowsLoaded(before: Db, after: Db, campaign: nat, accounts: seq<Account>, n: nat, now: Time)
  {
    && n <= |accounts|
    && |after.sessions| == |before.sessions| + n && |after.audit| == |before.audit| + n
    && (forall i :: 0 <= i < |before.sessions| ==> after.sessions[i] == before.sessions[i])
    && (forall i :: 0 <= i < |before.audit| ==> after.audit[i] == before.audit[i])
    && (forall i :: 0 <= i < n ==> after.sessions[|before.sessions| + i] == FreshRow(campaign, accounts[i], now))
    && forall i :: |before.audit| <= i < |after.audit| ==>
         after.audit[i] == Row(|before.sessions| + i - |before.audit|, SessionCreated)
  }

  /** One new active campaign announcing all its accounts, and the rows of the first n of them. */
  ghost predicate CampaignLoaded(before: Db, after: Db, accounts: seq<Account>, n: nat, now: Time)
  {
    && |after.campaigns| == |before.campaigns| + 1
    && (forall c :: 0 <= c < |before.campaigns| ==> after.campaigns[c] == before.campaigns[c])
    && after.campaigns[|before.campaigns|] == Campaign(|accounts|, Running, now)
    && RowsLoaded(before, after, |before.campaigns|, accounts, n, now)
    && (n < |accounts| ==> Taken(after.sessions, accounts[n].payment))
  }

  /** One new session in an active campaign that none active is newer than, counted in its total and logged. */
  ghost predicate FailureJoined(before: Db, after: Db, campaign: nat, account: Account, now: Time)
  {
    && campaign < |before.campaigns| && before.campaigns[campaign].status == Running
    && (forall c :: 0 <= c < |before.campaigns| && before.campaigns[c].status == Running ==>
          before.campaigns[c].created <= before.campaigns[campaign].created)
    && |after.campaigns| == |before.campaigns|
    && (forall c :: 0 <= c < |before.campaigns| && c != campaign ==> after.campaigns[c] == before.campaigns[c])
    && after.campaigns[campaign] == before.campaigns[campaign].(total := before.campaigns[campaign].total + 1)
    && |after.sessions| == |before.sessions| + 1
    && (forall i :: 0 <= i < |before.sessions| ==> after.sessions[i] == before.sessions[i])
    && after.sessions[|before.sessions|] == FreshRow(campaign, account, now)
    && Appended(before.audit, after.audit, |before.sessions|, [WebhookReceived, SessionCreated])
  }
}
