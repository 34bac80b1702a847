/**
 * The recovery orchestrator's tables and the SQL statements that act on them.
 *
 * A session's row id is its index in `sessions`; rows are never deleted. Each
 * function below is one statement or one transaction of the store, applied
 * to the whole database value, so it is one atomic step. Time is an integer
 * number of seconds.
 */
module RecoveryModel {
  import opened Basics

  type Time = int

  const DAY: Time := 24 * 60 * 60

  /** followUpCooldown and razorpay.linkValidity are separate constants in the program. */
  const FOLLOW_UP_COOLDOWN: Time := DAY
  const LINK_VALIDITY: Time := DAY
  const DEFAULT_MAX_ATTEMPTS: nat := 3

  datatype Status = Pending | Active | LinkSent | Promised | Refused | Unclear | Recovered | Failed

  datatype CampaignStatus = Running | Completed | Paused

  /** A promise date as text: absent, not an ISO date, or an ISO date with its UTC midnight. */
  datatype DateText = Blank | Malformed(text: string) | IsoDay(midnight: Time)

  /** The outcome word of a call; UNCLEAR and every unrecognised word behave alike. */
  datatype Outcome = Agreed | PromisedToPay | RefusedToPay | Unclassified(word: string)

  datatype Account = Account(paise: int, payment: Option<string>)

  datatype Campaign = Campaign(total: nat, status: CampaignStatus, created: Time)

  datatype Session = Session(
    campaign: nat,
    call: Option<string>,
    payment: Option<string>,
    paise: int,
    status: Status,
    promise: DateText,
    link: Option<nat>,
    attempts: nat,
    maxAttempts: nat,
    created: Time,
    callStarted: Option<Time>,
    timer: Option<Time>)

  datatype AuditEvent =
    | SessionCreated
    | WebhookReceived
    | SessionAssigned(call: string)
    | CallEnded(ended: Outcome)
    | OutcomeClassified(outcome: Outcome)
    | PaymentLinkSent(link: nat)
    | PaymentLinkFailed
    | PromiseLogged(date: DateText, nextEligible: Option<Time>)
    | StoppedRefused
    | StoppedMaxAttempts
    | PaymentCaptured

  datatype Row = Row(sid: nat, event: AuditEvent)

  datatype Db = Db(campaigns: seq<Campaign>, sessions: seq<Session>, audit: seq<Row>)

  datatype OutcomeWrite = OutcomeWrite(
    sid: nat,
    status: Status,
    promise: DateText,
    link: Option<nat>,
    timer: Option<Time>,
    events: seq<AuditEvent>)

  // ---------- eligibility ----------

  predicate StillContactable(s: Session)
  {
    && s.timer.Some?
    && s.attempts < s.maxAttempts
    && (s.status.Pending? || s.status.Unclear? || s.status.LinkSent? || s.status.Promised?)
  }

  predicate EligibleNow(s: Session, now: Time)
  {
    StillContactable(s) && s.timer.value <= now
  }

  /** The statuses after which nobody is called again. */
  predicate Stopped(st: Status)
  {
    st.Refused? || st.Failed? || st.Recovered?
  }

  predicate InActiveCampaign(db: Db, s: Session)
  {
    s.campaign < |db.campaigns| && db.campaigns[s.campaign].status.Running?
  }

  predicate Assignable(db: Db, i: nat, now: Time)
  {
    i < |db.sessions| && InActiveCampaign(db, db.sessions[i]) && EligibleNow(db.sessions[i], now)
  }

  /** ORDER BY next_eligible_at, created_at. */
  predicate NotAfter(a: Session, b: Session)
    requires a.timer.Some? && b.timer.Some?
  {
    a.timer.value < b.timer.value || (a.timer.value == b.timer.value && a.created <= b.created)
  }

  /** Row `i` is a row that the assignment query may return; ties are the database's choice. */
  ghost predicate IsNext(db: Db, i: nat, now: Time)
  {
    && Assignable(db, i, now)
    && forall j: nat :: Assignable(db, j, now) ==> NotAfter(db.sessions[i], db.sessions[j])
  }

  // ---------- unique indexes ----------

  predicate CallFree(db: Db, i: nat, call: string)
  {
    forall j :: 0 <= j < |db.sessions| && j != i ==> db.sessions[j].call != Some(call)
  }

  predicate PaymentFree(db: Db, payment: Option<string>)
  {
    payment.Some? ==> forall j :: 0 <= j < |db.sessions| ==> db.sessions[j].payment != payment
  }

  predicate LinkFree(db: Db, i: nat, link: Option<nat>)
  {
    link.Some? ==> forall j :: 0 <= j < |db.sessions| && j != i ==> db.sessions[j].link != link
  }

  // ---------- statements and transactions ----------

  function Log(db: Db, sid: nat, event: AuditEvent): Db
  {
    db.(audit := db.audit + [Row(sid, event)])
  }

  function NewSession(campaign: nat, account: Account, now: Time): Session
  {
    Session(campaign, None, account.payment, account.paise, Pending, Blank, None,
            0, DEFAULT_MAX_ATTEMPTS, now, None, Some(now))
  }

  function InsertSession(db: Db, campaign: nat, account: Account, now: Time): Db
  {
    db.(sessions := db.sessions + [NewSession(campaign, account, now)])
  }

  function InsertCampaign(db: Db, total: nat, now: Time): Db
  {
    db.(campaigns := db.campaigns + [Campaign(total, Running, now)])
  }

  function IncrementTotal(db: Db, campaign: nat): Db
  {
    if campaign < |db.campaigns|
    then db.(campaigns := db.campaigns[campaign :=
               db.campaigns[campaign].(total := db.campaigns[campaign].total + 1)])
    else db
  }

  function Bind(s: Session, call: string, now: Time): Session
  {
    s.(status := Active, call := Some(call), attempts := s.attempts + 1, callStarted := Some(now))
  }

  function AssignTx(db: Db, i: nat, call: string, now: Time): Db
    requires i < |db.sessions|
  {
    db.(sessions := db.sessions[i := Bind(db.sessions[i], call, now)])
  }

  predicate OutcomeRecordableFrom(st: Status)
  {
    st.Active? || st.Unclear?
  }

  /** A date already gone means "now"; a date still to come is kept; no date means the cooldown. */
  function PromisedFollowUp(date: DateText, now: Time): Time
  {
    match date
    case IsoDay(d) => if d < now then now else d
    case _ => now + FOLLOW_UP_COOLDOWN
  }

  function BuildWrite(sid: nat, attempts: nat, maxAttempts: nat, outcome: Outcome, promise: DateText,
                      link: Option<nat>, now: Time): OutcomeWrite
    requires outcome.Agreed? ==> link.Some?
  {
    var events := [CallEnded(outcome), OutcomeClassified(outcome)];
    var followUp := Some(now + FOLLOW_UP_COOLDOWN);
    match outcome
    case Agreed =>
      OutcomeWrite(sid, LinkSent, Blank, link, followUp, events + [PaymentLinkSent(link.value)])
    case PromisedToPay =>
      var timer := Some(PromisedFollowUp(promise, now));
      OutcomeWrite(sid, Promised, promise, None, timer, events + [PromiseLogged(promise, timer)])
    case RefusedToPay =>
      OutcomeWrite(sid, Refused, Blank, None, None, events + [StoppedRefused])
    case Unclassified(_) =>
      if attempts >= maxAttempts
      then OutcomeWrite(sid, Failed, Blank, None, None, events + [StoppedMaxAttempts])
      else OutcomeWrite(sid, Unclear, Blank, None, followUp, events)
  }

  function Rows(sid: nat, events: seq<AuditEvent>): (rows: seq<Row>)
  {
    seq(|events|, i requires 0 <= i < |events| => Row(sid, events[i]))
  }

  function ApplyWrite(s: Session, w: OutcomeWrite): Session
  {
    s.(status := w.status,
       promise := if w.promise.Blank? then s.promise else w.promise,
       link := if w.link.None? then s.link else w.link,
       timer := w.timer)
  }

  /** RecordOutcome commits: the row exists, its status still allows it, and the link index agrees. */
  predicate RecordCommits(db: Db, w: OutcomeWrite)
  {
    && w.sid < |db.sessions|
    && OutcomeRecordableFrom(db.sessions[w.sid].status)
    && LinkFree(db, w.sid, w.link)
  }

  function RecordOutcome(db: Db, w: OutcomeWrite): Db
  {
    if RecordCommits(db, w)
    then db.(sessions := db.sessions[w.sid := ApplyWrite(db.sessions[w.sid], w)],
             audit := db.audit + Rows(w.sid, w.events))
    else db
  }

  /** The UPDATE's own WHERE clause decides which delivery wins. */
  predicate MarkChanges(db: Db, sid: nat)
  {
    sid < |db.sessions| && !db.sessions[sid].status.Recovered?
  }

  function MarkRecovered(db: Db, sid: nat): Db
  {
    if MarkChanges(db, sid)
    then db.(sessions := db.sessions[sid := db.sessions[sid].(status := Recovered, timer := None)])
    else db
  }

  function SetTimer(db: Db, sid: nat, at: Time): Db
  {
    if sid < |db.sessions|
    then db.(sessions := db.sessions[sid := db.sessions[sid].(timer := Some(at))])
    else db
  }

  /** The campaign an inbound failed payment joins: active, and none active is newer. */
  ghost predicate IsNewestActive(db: Db, c: nat)
  {
    && c < |db.campaigns| && db.campaigns[c].status.Running?
    && forall k :: 0 <= k < |db.campaigns| && db.campaigns[k].status.Running?
         ==> db.campaigns[k].created <= db.campaigns[c].created
  }

  // ---------- tables and writes as a whole ----------

  const EMPTY_DB := Db([], [], [])

  /** The status, the timer, the link and the audit rows of a write tell the same story. */
  predicate WriteShape(w: OutcomeWrite)
  {
    && |w.events| >= 2 && w.events[0].CallEnded? && w.events[1].OutcomeClassified?
    && w.events[0].ended == w.events[1].outcome
    && (w.link.Some? ==> w.status.LinkSent?)
    && (!w.promise.Blank? ==> w.status.Promised?)
    && (w.promise.IsoDay? ==> w.timer.Some? && w.promise.midnight <= w.timer.value)
    && (w.timer.None? <==> Stopped(w.status))
    && match w.status {
         case LinkSent =>
           |w.events| == 3 && w.events[2].PaymentLinkSent? && w.link == Some(w.events[2].link)
           && w.events[1].outcome.Agreed?
         case Promised =>
           |w.events| == 3 && w.events[2].PromiseLogged? && w.promise == w.events[2].date
           && w.events[1].outcome.PromisedToPay?
         case Refused =>
           |w.events| == 3 && w.events[2].StoppedRefused? && w.events[1].outcome.RefusedToPay?
         case Failed =>
           |w.events| == 3 && w.events[2].StoppedMaxAttempts? && w.events[1].outcome.Unclassified?
         case Unclear => |w.events| == 2 && w.events[1].outcome.Unclassified?
         case _ => false
       }
  }

  /** The timer is NULL exactly on the stopped sessions. */
  ghost predicate TimersAgree(db: Db)
  {
    forall i :: 0 <= i < |db.sessions| ==> (db.sessions[i].timer.None? <==> Stopped(db.sessions[i].status))
  }

  ghost function InCampaign(c: nat): Session -> nat
  {
    (x: Session) => if x.campaign == c then 1 else 0
  }
}
