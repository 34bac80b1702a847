/**
 * The orchestrator as an interleaved state machine.
 *
 * A manager method is a task: a list of statements with other tasks' statements
 * allowed between any two of them. `Advance(i, ok)` runs task i's next
 * statement; `Abandon(i)` is a failed write, after which the task never
 * runs again. `now` only grows.
 */
module RecoverySteps {
  import opened Basics
  import opened RecoveryModel

  /** Where a task is: the constructor names the last thing that finished. */
  datatype Op =
    // AssignSession, after AssignNextPending committed
    | AssignClaimed(sid: nat, call: string)
    // EndSession
    | EndRead(sid: nat, attempts: nat, maxAttempts: nat, outcome: Outcome, promise: DateText)
    | EndLinked(sid: nat, attempts: nat, maxAttempts: nat, promise: DateText, link: nat)
    | EndLinkRefused(sid: nat)
    | EndBuilt(write: OutcomeWrite)
    // HandlePaymentCaptured and HandlePaymentLinkPaid
    | CaptureRead(sid: nat)
    | CaptureMarked(sid: nat)
    // HandlePaymentFailed
    | FailedRead(campaign: nat, account: Account)
    | FailedChecked(campaign: nat, account: Account)
    | FailedInserted(campaign: nat, sid: nat)
    | FailedCounted(sid: nat)
    | FailedLogged(sid: nat)
    // CreateCampaign
    | Loading(campaign: nat, rest: seq<Account>)
    | LoadInserted(campaign: nat, sid: nat, rest: seq<Account>)
    | Done

  datatype Task = Task(op: Op, live: bool)

  /** `links[k]` is the expiry the provider holds for link k. */
  datatype Sys = Sys(db: Db, tasks: seq<Task>, links: seq<Time>, now: Time)

  /** What a payment webhook names: the failed payment, or the link that was paid. */
  datatype Notice = ByPayment(payment: string) | ByLink(link: nat)

  datatype Event =
    | Tick(to: Time)
    | Assign(call: string, sid: nat)
    | BeginEnd(call: string, sid: nat, outcome: Outcome, promise: DateText)
    | BeginCapture(notice: Notice, sid: nat)
    | BeginFailed(campaign: nat, account: Account)
    | BeginLoad(accounts: seq<Account>)
    | Advance(i: nat, ok: bool)
    | Abandon(i: nat)
    | EditTimer(sid: nat, at: Time)
    | EditCampaign(campaign: nat, status: CampaignStatus)

  ghost predicate Enabled(s: Sys, e: Event)
  {
    match e
    case Tick(to) => s.now <= to
    case Assign(call, sid) => IsNext(s.db, sid, s.now) && CallFree(s.db, sid, call)
    case BeginEnd(call, sid, _, _) =>
      // the session bound to the call id, in a status an outcome may be recorded from
      && sid < |s.db.sessions| && s.db.sessions[sid].call == Some(call)
      && OutcomeRecordableFrom(s.db.sessions[sid].status)
    case BeginCapture(ByPayment(payment), sid) =>
      sid < |s.db.sessions| && s.db.sessions[sid].payment == Some(payment)
    case BeginCapture(ByLink(link), sid) =>
      sid < |s.db.sessions| && s.db.sessions[sid].link == Some(link)
    case BeginFailed(c, _) => IsNewestActive(s.db, c)
    case BeginLoad(accounts) => accounts != []
    case Advance(i, _) => i < |s.tasks| && s.tasks[i].live && !s.tasks[i].op.Done?
    case Abandon(i) => i < |s.tasks| && s.tasks[i].live && !s.tasks[i].op.Done?
    case EditTimer(sid, _) => sid < |s.db.sessions|
    case EditCampaign(c, _) => c < |s.db.campaigns|
  }

  function Spawn(s: Sys, op: Op): Sys
  {
    s.(tasks := s.tasks + [Task(op, true)])
  }

  function Goto(s: Sys, i: nat, op: Op): Sys
    requires i < |s.tasks|
  {
    s.(tasks := s.tasks[i := Task(op, true)])
  }

  /** One statement of task i. */
  function Statement(s: Sys, i: nat, ok: bool): Sys
    requires i < |s.tasks| && !s.tasks[i].op.Done?
  {
    match s.tasks[i].op
    case AssignClaimed(sid, call) =>
      Goto(s.(db := Log(s.db, sid, SessionAssigned(call))), i, Done)
    case EndRead(sid, attempts, maxAttempts, outcome, promise) =>
      if !outcome.Agreed? then
        Goto(s, i, EndBuilt(BuildWrite(sid, attempts, maxAttempts, outcome, promise, None, s.now)))
      else if ok then
        Goto(s.(links := s.links + [s.now + LINK_VALIDITY]), i,
             EndLinked(sid, attempts, maxAttempts, promise, |s.links|))
      else
        Goto(s, i, EndLinkRefused(sid))
    case EndLinked(sid, attempts, maxAttempts, promise, link) =>
      Goto(s, i, EndBuilt(BuildWrite(sid, attempts, maxAttempts, Agreed, promise, Some(link), s.now)))
    case EndLinkRefused(sid) =>
      Goto(s.(db := Log(s.db, sid, PaymentLinkFailed)), i, Done)
    case EndBuilt(write) =>
      Goto(s.(db := RecordOutcome(s.db, write)), i, Done)
    case CaptureRead(sid) =>
      if MarkChanges(s.db, sid)
      then Goto(s.(db := MarkRecovered(s.db, sid)), i, CaptureMarked(sid))
      else Goto(s, i, Done)
    case CaptureMarked(sid) =>
      Goto(s.(db := Log(s.db, sid, PaymentCaptured)), i, Done)
    case FailedRead(c, account) =>
      if PaymentFree(s.db, account.payment) then Goto(s, i, FailedChecked(c, account)) else Goto(s, i, Done)
    case FailedChecked(c, account) =>
      if PaymentFree(s.db, account.payment)
      then Goto(s.(db := InsertSession(s.db, c, account, s.now)), i, FailedInserted(c, |s.db.sessions|))
      else Goto(s, i, Done)
    case FailedInserted(c, sid) =>
      Goto(s.(db := IncrementTotal(s.db, c)), i, FailedCounted(sid))
    case FailedCounted(sid) =>
      Goto(s.(db := Log(s.db, sid, WebhookReceived)), i, FailedLogged(sid))
    case FailedLogged(sid) =>
      Goto(s.(db := Log(s.db, sid, SessionCreated)), i, Done)
    case Loading(c, rest) =>
      if rest == [] then Goto(s, i, Done)
      else if PaymentFree(s.db, rest[0].payment) then
        Goto(s.(db := InsertSession(s.db, c, rest[0], s.now)), i, LoadInserted(c, |s.db.sessions|, rest[1..]))
      else
        Stop(s, i)  // the rejected insert aborts the whole load
    case LoadInserted(c, sid, rest) =>
      Goto(s.(db := Log(s.db, sid, SessionCreated)), i, Loading(c, rest))
  }

  function Stop(s: Sys, i: nat): Sys
    requires i < |s.tasks|
  {
    s.(tasks := s.tasks[i := s.tasks[i].(live := false)])
  }

  function Apply(s: Sys, e: Event): Sys
    requires Enabled(s, e)
  {
    match e
    case Tick(to) => s.(now := to)
    case Assign(call, sid) =>
      Spawn(s.(db := AssignTx(s.db, sid, call, s.now)), AssignClaimed(sid, call))
    case BeginEnd(_, sid, outcome, promise) =>
      Spawn(s, EndRead(sid, s.db.sessions[sid].attempts, s.db.sessions[sid].maxAttempts, outcome, promise))
    case BeginCapture(_, sid) => Spawn(s, CaptureRead(sid))
    case BeginFailed(c, account) => Spawn(s, FailedRead(c, account))
    case BeginLoad(accounts) =>
      Spawn(s.(db := InsertCampaign(s.db, |accounts|, s.now)), Loading(|s.db.campaigns|, accounts))
    case Advance(i, ok) => Statement(s, i, ok)
    case Abandon(i) => Stop(s, i)
    case EditTimer(sid, at) => s.(db := SetTimer(s.db, sid, at))
    case EditCampaign(c, status) =>
      s.(db := s.db.(campaigns := s.db.campaigns[c := s.db.campaigns[c].(status := status)]))
  }

  ghost predicate Init(s: Sys)
  {
    s.db == EMPTY_DB && s.tasks == [] && s.links == []
  }

  ghost predicate Step(s: Sys, e: Event, s': Sys)
  {
    Enabled(s, e) && s' == Apply(s, e)
  }

  /** states[k+1] is states[k] after events[k]. */
  ghost predicate IsExecution(states: seq<Sys>, events: seq<Event>)
  {
    && |states| == |events| + 1
    && forall k {:trigger events[k]} :: 0 <= k < |events| ==> Step(states[k], events[k], states[k + 1])
  }

  /** An execution that starts from an empty database. */
  ghost predicate IsRun(states: seq<Sys>, events: seq<Event>)
  {
    IsExecution(states, events) && Init(states[0])
  }

  /** Nobody moves a timer by hand. */
  ghost predicate Unedited(events: seq<Event>)
  {
    forall k :: 0 <= k < |events| ==> !events[k].EditTimer?
  }

  /** No live task has a statement left. */
  ghost predicate Quiescent(s: Sys)
  {
    forall i :: 0 <= i < |s.tasks| && s.tasks[i].live ==> s.tasks[i].op.Done?
  }
}
