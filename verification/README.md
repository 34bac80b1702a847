# Vasuli: a verified model

Vasuli calls customers about unpaid amounts, listens, talks back, and records what came of it. This project models the three parts of it that keep state over a whole run, and proves what they keep.

**Recovery scheduler** (`RecoveryModel`, `RecoveryMeaning`, `RecoverySteps`, `RecoveryInvariants`, `RecoveryTheorems`, `RecoveryRequests`, `RecoveryWaiting`, `RecoverySerial`, `RecoveryFairness`, `RecoveryTotals`, `RecoverySchedules`, `RecoveryOverlap`, `RecoveryStore`, `RecoveryManager`). A table of sessions, a table of campaigns and an append-only audit log. Each SQL statement or transaction is one atomic step, because the store uses one connection. There are two levels.
- *Interleaved*: every manager method is a task that runs one statement at a time, with any statements of other tasks in between and any write failing (`RecoverySteps`). `RecoveryTheorems`, `RecoveryRequests` and `RecoveryWaiting` hold the results over all such runs.
- *Serial*: requests one at a time, the clock monotone (`RecoverySerial`, `RecoveryFairness`, `RecoveryTotals`). `RecoverySchedules.ServedAloneIsASchedule` shows that a request served alone is one of the interleaved schedules, so everything proved of all interleavings holds of serial runs too; the same module exhibits schedules that break two serial guarantees. `RecoveryOverlap` proves those two over all interleavings under a condition on what is in flight when a session is claimed, proves the condition exact, and derives the serial forms from it; `RecoveryFairness` does the same for the waiting time in `RecoveryWaiting`.
- The classes `RecoveryStore.DB` and `RecoveryManager.Manager` are the mutable form of the same statements and requests. `RecoveryMeaning` says what each request does to the columns, in words shared with no statement; the manager's contracts are in those words.

**Speech segmentation** (`Preprocessor`, `Detector`, `Segmentation`, `SegmentLeads`, `Pipeline`, `Sentences`). Bytes become samples, blocks, frames and speech flags; a four-state detector cuts them into utterances. `Segmentation.Segments` says on the whole flag sequence where utterances begin and end, and the detector is proved to find exactly those, whatever chunks the bytes came in.

**Call teardown** (`EngineProtocol`, `Teardown`, `TeardownDelivery`, `CallReport`, `SessionState`). The inference engine's read pump, worker and relay, joined by FIFO queues, and the gateway's relay, pump, drain and main goroutines, joined by channels that are closed once. Both are step relations, every result is about every interleaving, and `CallReport` joins the two.

`Rupees` is the amount printer. `Basics` has sums, suffixes and searches over sequences.

Conventions: a session's id is its row index (ids are fresh and rows are never deleted); time is an integer number of seconds; a promise date is absent, malformed text, or an ISO day with its midnight; an outcome word is one of the three settled ones or anything else. Resampling and speech scoring are uninterpreted deterministic functions, and what inference answers, what the payment provider answers, and when a write fails are free choices of the environment.

Where the code and its documentation differ, the model follows the code:
- The comment at `recovery-orchestrator/internal/store/db.go:246` calls the status list redundant with the timer. It is not: an active session keeps its timer (`RecoveryTheorems.NullTimerMeansStopped`).
- `recovery-orchestrator/internal/store/db.go:359-360` promises that totals stay consistent. A load that repeats a payment id stops part-way with the larger total; `RecoveryTheorems.TotalsAtRest` gives the exact condition at rest, `RecoveryTotals.TotalsFollowTheLoad` the check a caller can make beforehand, and `RecoverySchedules.DuplicateLoadOvercounts` a run.
- The comment at `recovery-orchestrator/internal/campaign/manager.go:218-219` says a repeated end of call makes no change. It does when the first one left the session open; `RecoverySerial.RepeatedEndChangesNothing` says exactly when it does not.
- A minimum run of one frame behaves as two in the detector (`Segmentation.StreamingIsSegmentation`), and its lookback can skip the frame before the onset and repeat (`Segmentation.LookbackSkipsAndRepeats`); `SegmentLeads` says exactly when.
- An empty outcome from the engine closes the outcome channel and can hide a later one (`TeardownDelivery.EmptyOutcomeHidesLaterOne`); `TeardownDelivery.DeliveryExactly` says exactly when the latest outcome is bound to be reported.

## Model

| member | source | states |
|---|---|---|
| RecoveryTheorems.EverySessionStops | recovery-orchestrator/internal/store/db.go:252-304 | in every interleaving with any timer edits and failed writes, a session is called exactly `attempts` times, at most its maximum, and changes status at most 4 * maximum + 1 times |
| RecoveryInvariants.StatusChangeLowersMeasure | recovery-orchestrator/internal/store/db.go:427-526 | every step that changes a status strictly lowers 4 * (maximum - attempts) + rank, no step raises it, and attempts grow only by assignment |
| RecoveryTheorems.StoppedMeansStopped | recovery-orchestrator/internal/store/db.go:241-304 | refused, failed and recovered together are closed at every later point of a run, and a stopped session is never assigned, whatever is written to its timer |
| RecoveryInvariants.StoppedStaysStopped | recovery-orchestrator/internal/store/db.go:473-491 | one step, a timer edit included, never revives or assigns a stopped session |
| RecoveryTheorems.NullTimerMeansStopped | recovery-orchestrator/internal/store/db.go:241-267 | without timer edits the timer is NULL exactly in the stopped statuses, so the status list excludes only active sessions beyond them |
| RecoveryTheorems.TimersStayInAgreement | recovery-orchestrator/internal/store/db.go:61-85 | the same from any starting database whose timers agree, such as one that was just migrated |
| RecoveryTheorems.OneSettledOutcomePerCall | recovery-orchestrator/internal/campaign/manager.go:202-340 | in every interleaving the settled-outcome rows of a session number at most its attempts, strictly fewer while it is active or unclear, and attempts never exceed the maximum |
| RecoveryTheorems.NoCallWhileLinkLives | recovery-orchestrator/internal/campaign/manager.go:174-182 | without timer edits, in every interleaving, a session is assigned only when its recorded payment link has expired |
| RecoveryInvariants.LinksCoveredStep | recovery-orchestrator/internal/campaign/manager.go:233-340 | the follow-up timer is set after the link was requested, so no step breaks "the timer outlasts the link, or the link has expired", in-flight writes included |
| RecoveryTheorems.ExactlyOnceRecovery | recovery-orchestrator/internal/campaign/manager.go:421-443 | among interleaved deliveries exactly one UPDATE wins per recovered session; payment_captured rows never exceed it and equal it at rest if and only if no such row was lost to a failed write |
| RecoveryTheorems.DeliveredMeansRecovered | recovery-orchestrator/internal/store/db.go:505-526 | once any delivery has run its UPDATE, the session is recovered for good and exactly one delivery has won |
| RecoveryTheorems.MetricsReconcile | recovery-orchestrator/internal/store/db.go:658-697 | in every reachable state captured plus what winning deliveries have yet to log is recovered, per campaign, so at rest the two metrics agree if and only if no row was lost; contacted + pending is the number of accounts |
| RecoveryTheorems.OneSessionPerPayment | recovery-orchestrator/internal/store/db.go:87-99 | any interleaving of deliveries and loads leaves at most one session per payment id |
| RecoveryTheorems.TotalsAtRest | recovery-orchestrator/internal/store/db.go:359-369 | at rest and with no increment lost, a campaign's total is at least its session count, and equal to it exactly when no load of it was aborted part-way |
| RecoveryInvariants.TotalBalanceStep | recovery-orchestrator/internal/campaign/manager.go:454-527 | every statement keeps total + uncounted webhook inserts = sessions + announced but uninserted accounts |
| RecoveryInvariants.CaptureBalanceStep | recovery-orchestrator/internal/campaign/manager.go:430-443 | every statement keeps: logged captures + deliveries that won but have not logged = recovered |
| RecoveryInvariants.SettledBoundStep | recovery-orchestrator/internal/store/db.go:427-471 | every statement keeps the settled-outcome bound and attempts within the maximum |
| RecoveryTheorems.EveryCallIsLogged | recovery-orchestrator/internal/campaign/manager.go:149-165 | in every interleaving the session_assigned rows of a session never exceed its attempts, and equal them at rest if and only if no such row was lost to a failed write |
| RecoveryTheorems.LogShowsOutcome | recovery-orchestrator/internal/store/db.go:427-471 | at every point of every interleaving the latest payment_link_sent row names the session's link, the latest dated promise_logged row its promised date, and the latest verdict its status when that is link_sent, promised, refused, unclear or failed; a pending session has no verdict, and one on a call has none that stops calls |
| RecoveryInvariants.AssignBalanceStep | recovery-orchestrator/internal/campaign/manager.go:149-165 | every statement keeps: logged assignments + claims not logged yet = attempts |
| RecoveryInvariants.UniqueStep | recovery-orchestrator/internal/store/db.go:92-99 | every statement keeps payment ids, call ids and link ids unique across sessions |
| RecoverySerial.AuditReplay | recovery-orchestrator/internal/campaign/manager.go:149-165 | in every serial run, folding a session's audit rows in id order reproduces its status, attempts, latest link and promise date |
| RecoverySerial.FaithfulRecord | recovery-orchestrator/internal/store/db.go:395-471 | the audit rows of an outcome transaction replay to exactly the row it writes, and it writes both or neither |
| RecoveryOverlap.CallsAreSpacedOverlapping | recovery-orchestrator/internal/campaign/manager.go:342-370 | in every interleaving without timer edits, two calls to one customer start at least 24 hours apart or a day the customer named has come, as long as no earlier claim was made over an already built outcome whose cooldown would run out less than a day later |
| RecoveryOverlap.ClaimIsSpacedExactly | recovery-orchestrator/internal/store/db.go:434-445 | that condition is exact: from any reachable claim, a continuation in which the session is callable too early exists if and only if such a stale outcome is in flight at the claim and the claim did not take the last call |
| RecoveryOverlap.CommitTooEarly | recovery-orchestrator/internal/campaign/manager.go:282-370 | one commit sets a follow-up less than a day after the current call began if and only if its cooldown was computed before that call, or it carries a named day and both are less than a day after it |
| RecoveryOverlap.CallsAreSpaced | recovery-orchestrator/internal/campaign/manager.go:342-370 | serially the spacing holds without any condition |
| RecoveryOverlap.UnclearHasBudgetOverlapping | recovery-orchestrator/internal/campaign/manager.go:325-337 | in every interleaving, with timer edits and failed writes, an unclear session has a call left, as long as its last call was not claimed over an end of call in flight that read a smaller count and has no verdict |
| RecoveryOverlap.LastClaimIsSafeExactly | recovery-orchestrator/internal/campaign/manager.go:251-259 | that condition is exact: from any claim of the last call, a continuation that leaves the session unclear with no call left exists if and only if such an end of call is in flight at the claim |
| RecoveryOverlap.CommitOverspends | recovery-orchestrator/internal/campaign/manager.go:325-337 | one commit leaves an unclear session with no call left if and only if it has no verdict and the last call was claimed between its read and its commit |
| RecoveryOverlap.UnclearHasBudget | recovery-orchestrator/internal/campaign/manager.go:325-337 | serially an unclear session always has a call left and is contactable |
| RecoveryOverlap.OnlyStatusRejectsOutcomes | recovery-orchestrator/internal/store/db.go:427-471 | in every interleaving an outcome transaction commits exactly when the status still allows it and is otherwise without effect; the unique index on links never rejects one |
| RecoveryRequests.EndRecordsWhatItWasTold | recovery-orchestrator/internal/campaign/manager.go:220-263 | in every interleaving the transaction of an end of call records, for the session of that call, the outcome and promise it was told, by the attempts it read and a time since it began, column by column, or changes nothing because the session was settled |
| RecoveryRequests.CallIsLatestClaim | recovery-orchestrator/internal/store/db.go:297-305 | in every interleaving a session's call id is that of its latest claim |
| RecoveryRequests.CallFindsItsSession | recovery-orchestrator/internal/store/db.go:320-322 | in every interleaving the call id of a session's latest claim is in that row and no other |
| RecoveryRequests.EndReachesItsCall | recovery-orchestrator/internal/campaign/manager.go:220-231 | in every interleaving an end of call reaches the session last claimed for that very call, the only one with its id |
| RecoveryRequests.PaymentReachesItsSession | recovery-orchestrator/internal/store/db.go:324-339 | in every interleaving a payment webhook reaches the only session with that payment id or link |
| RecoveryRequests.FailureJoinsLatestLoad | recovery-orchestrator/internal/store/db.go:341-357 | in every interleaving an inbound failure finds an active campaign, and no active one was loaded at a later time |
| RecoveryRequests.FailureAddsItsSession | recovery-orchestrator/internal/campaign/manager.go:454-512 | in every interleaving the session it adds is of that campaign and that account, uncalled and due at once |
| RecoveryRequests.NoCallWithinADayOfLink | recovery-orchestrator/internal/campaign/manager.go:174-182 | without timer edits, a session is called only 86400 seconds or more after its recorded link was issued |
| RecoverySerial.LoadCompletes | recovery-orchestrator/internal/campaign/manager.go:92-129 | a load inserts all its accounts if and only if no payment id repeats a stored or an earlier one |
| RecoveryTotals.TotalsFollowTheLoad | recovery-orchestrator/internal/campaign/manager.go:92-129 | in every serial run, at every point after a load, its campaign's total equals its session count if and only if no payment id of the load was repeated when it began |
| RecoverySerial.RepeatedEndChangesNothing | recovery-orchestrator/internal/campaign/manager.go:184-211 | sending an end of call again changes nothing if and only if the first one left the session out of active and unclear; seen from the row before the first: if and only if that was not an agreement without a link or a missing verdict with calls to spare |
| RecoverySerial.RedeliveryChangesNothing | recovery-orchestrator/internal/campaign/manager.go:463-473 | a redelivered payment.failed changes nothing, even when another campaign is newest by then |
| RecoveryWaiting.NoStarvationOverlapping | recovery-orchestrator/internal/store/db.go:273-314 | in every interleaving with failed writes and no hand edits, while an overdue session at queue position p is left alone and q built outcomes with a follow-up at or before its timer are in flight, fewer than p + q calls are claimed before its own |
| RecoveryWaiting.OvertakenExactly | recovery-orchestrator/internal/store/db.go:280-288 | a step moves an overdue session back in the queue if and only if it commits an outcome whose follow-up puts a contactable session of an active campaign, not there before, at or before it |
| RecoveryWaiting.WaitingStep | recovery-orchestrator/internal/store/db.go:280-288 | position plus such outcomes in flight never grows, and every claim lowers it |
| RecoveryFairness.ClaimedPastTheFirst | recovery-orchestrator/internal/store/db.go:434-445 | an interleaving in which the first in the queue sees another called before it, so the q is needed |
| RecoveryFairness.NoStarvation | recovery-orchestrator/internal/store/db.go:273-314 | serially no such outcome is in flight: while an overdue session at queue position p is left alone, fewer than p assignment requests are served before its turn |
| RecoveryFairness.WaitingMovesForward | recovery-orchestrator/internal/store/db.go:280-288 | an overdue session never moves back in the queue, and every assignment request is answered and moves it strictly forward |
| RecoveryFairness.ServeReschedules | recovery-orchestrator/internal/campaign/manager.go:282-370 | every insert and every reschedule of a request lands at or after now, so nobody overtakes from behind |
| RecoverySchedules.ServedAloneIsASchedule | recovery-orchestrator/internal/campaign/manager.go:220-263 | each request's serial effect is the effect of its statements run back to back in the interleaved machine |
| RecoverySchedules.StaleReadOverspends | recovery-orchestrator/internal/campaign/manager.go:251-253 | an interleaving ends with an unclear session that has no call left, because the transaction re-checks the status and not the attempts |
| RecoverySchedules.StaleWriteCallsBackAtOnce | recovery-orchestrator/internal/store/db.go:434-445 | an interleaving makes a customer assignable again in the second their call began, because the transaction checks neither the call id nor the age of the write |
| RecoverySchedules.DuplicateLoadOvercounts | recovery-orchestrator/internal/campaign/manager.go:102-119 | a load of two accounts with one payment id rests with total 2 and one session |
| RecoveryStore.DB.Open | recovery-orchestrator/internal/store/db.go:35-85 | opens the stored tables unchanged, empty ones for a new file; a file from before timers existed is migrated, which leaves its timers agreeing with its statuses |
| RecoveryStore.DB.GetMostRecentActiveCampaign | recovery-orchestrator/internal/store/db.go:341-357 | returns an active campaign no active one is newer than, and none only when none is active |
| RecoveryStore.DB.SelectNext | recovery-orchestrator/internal/store/db.go:280-295 | returns an eligible session of an active campaign with the least (next_eligible_at, created_at), and none exactly when no session is eligible |
| RecoveryStore.DB.AssignNextPending | recovery-orchestrator/internal/store/db.go:269-314 | the longest-waiting session that may be called now is made active and bound to the call, which then finds it and no other, with one more attempt and its start time, and its entry in the view is closed; or nothing changes, because nobody may be called or the call id is taken |
| RecoveryStore.DB.RecordOutcome | recovery-orchestrator/internal/store/db.go:427-471 | the row and all its audit events change together, exactly when the status and the link index still allow it |
| RecoveryStore.DB.CampaignQueue | recovery-orchestrator/internal/store/db.go:604-641 | lists each session of the campaign exactly once, ordered by (next_eligible_at with NULL first, created_at), with its own columns and its bucket: due now, on hold or closed by timer, attempts and status |
| RecoveryStore.NobodyDueNobodyAssigned | recovery-orchestrator/internal/store/db.go:604-625 | nothing is assignable if and only if no active campaign's view lists a due entry |
| RecoveryStore.AssignedIsFirstDue | recovery-orchestrator/internal/store/db.go:280-288 | the assigned session is listed as due, no due entry of any active campaign sorts strictly before it, and only entries with an equal key stand ahead of it in its own view |
| RecoveryStore.Migrate | recovery-orchestrator/internal/store/db.go:57-85 | the backfill sets a timer exactly on the sessions that are not stopped, from the call's end or the creation time, and changes no other column |
| RecoveryManager.Manager.CreateCampaign | recovery-orchestrator/internal/campaign/manager.go:92-129 | adds one active campaign announcing all accounts, and the rows and audit rows of the accounts in order up to the first whose payment id repeats; succeeds if and only if there are accounts and none repeats |
| RecoveryManager.Manager.AssignSession | recovery-orchestrator/internal/campaign/manager.go:145-165 | claims the longest-waiting session for the call and logs one session_assigned row with the call id; nothing changes when nobody may be called or the call id is taken |
| RecoveryManager.Manager.EndSession | recovery-orchestrator/internal/campaign/manager.go:220-263 | column by column: the first session bound to the call id gets, for AGREED link_sent with the offered link and a timer a day on, for PROMISED the promise and a timer at the promised day or now if it has gone or a day on without a date, for REFUSED refused and no timer, otherwise failed without a timer when no call is left and unclear with one a day on; the audit rows carry the outcome, link, date and timer; and it answers unknown, already recorded or link failed, changing nothing or logging the failure, exactly when the code does |
| RecoveryManager.Manager.MarkRecovered | recovery-orchestrator/internal/campaign/manager.go:421-443 | reports a recovery exactly when this call made one, which changed that row alone, and logs exactly then |
| RecoveryManager.Manager.HandlePaymentCaptured | recovery-orchestrator/internal/campaign/manager.go:389-401 | recovers the one session with that payment id, clears its timer and logs it; an unknown id, which is one in no row, and a duplicate change nothing |
| RecoveryManager.Manager.HandlePaymentLinkPaid | recovery-orchestrator/internal/campaign/manager.go:406-419 | recovers the one session whose latest link is that link, clears its timer and logs it; an unknown link, which is one in no row, and a duplicate change nothing |
| RecoveryManager.Manager.HandlePaymentFailed | recovery-orchestrator/internal/campaign/manager.go:445-527 | adds one uncalled session with that payment and amount to an active campaign no active one is newer than, counts it in the total and logs it twice; returns the existing one exactly when the payment id is in the table, and drops the event exactly when no campaign is active |
| Segmentation.StreamingIsSegmentation | var-thon/services/inference-py/vad/detector.py:56-128 | on every flag sequence, START fires exactly when max(2, min_speech) consecutive speech frames complete since the last boundary, END at the first later frame that completes max(2, min_silence) silent ones or fills the utterance, with exactly those frames collected |
| Segmentation.StartsAndEndsAlternate | var-thon/services/inference-py/vad/detector.py:63-70 | START and END strictly alternate from every state of the detector |
| Segmentation.FrameAccounting | var-thon/services/inference-py/vad/detector.py:74-138 | each utterance is at most L silent lead-in frames in order before the onset, then one contiguous slice; slices are disjoint and ordered; the length is at most max(max frames, L + start run + 1) |
| Segmentation.LookbackSkipsAndRepeats | var-thon/services/inference-py/vad/detector.py:74-88 | a stream whose lead-in is not adjacent to the onset and leads two utterances |
| SegmentLeads.LeadTouchesExactly | var-thon/services/inference-py/vad/detector.py:74-88 | on every stream, an utterance's lead-in is the audio right before its onset if and only if each of those frames is an idle frame of the gap right before it |
| SegmentLeads.LeadsShareExactly | var-thon/services/inference-py/vad/detector.py:74-88 | on every stream, two utterances share a lead-in frame if and only if the earlier has a lead-in and the gaps between them hold fewer idle frames than the lookback |
| SegmentLeads.NeighboursShareExactly | var-thon/services/inference-py/vad/detector.py:74-88 | for consecutive utterances that is the number of idle frames in the gap between them |
| SegmentLeads.LeadIsLastIdle | var-thon/services/inference-py/vad/detector.py:74-82 | every lead-in is the last idle frames of all gaps so far, in order and before the onset |
| Detector.VADDetector.ProcessFrame | var-thon/services/inference-py/vad/detector.py:56-72 | one frame moves network state, detector state, buffers and command exactly as the four-state machine says |
| Preprocessor.AudioPreprocessor.Push | var-thon/services/inference-py/vad/preprocessor.py:23-44 | yields exactly the 512-sample frames these bytes complete and carries less than one block and one frame; at 16 kHz frames and carried samples together are the earlier ones and the 16-bit little-endian samples of the bytes; an odd byte count is refused with nothing changed |
| Preprocessor.Cut | var-thon/services/inference-py/vad/preprocessor.py:38-44 | cuts 512-sample frames off the front and returns the rest |
| Preprocessor.PushExtends | var-thon/services/inference-py/vad/preprocessor.py:27-44 | after any samples, one more push yields exactly the frames that the longer input has and the shorter one had not, and leaves the state of the longer input |
| Preprocessor.ResampledAppend | var-thon/services/inference-py/vad/preprocessor.py:27-36 | resampling whole blocks of a concatenation is resampling the first part and then the carried tail with the second |
| Preprocessor.FramesLoseNothing | var-thon/services/inference-py/vad/preprocessor.py:38-44 | the frames in order and the remainder are the resampled input again |
| Preprocessor.DecodeAppend | var-thon/services/inference-py/vad/preprocessor.py:23-25 | decoding splits at every even byte count |
| Preprocessor.DecodeIsPcm16 | var-thon/services/inference-py/vad/preprocessor.py:24-24 | each pair of bytes, low byte first, is a two's-complement integer, and 32768 times its sample is that integer |
| Preprocessor.BlocksReplaced | var-thon/services/inference-py/vad/preprocessor.py:27-36 | the samples are blocks of a tenth of a second, at least one sample, and an unfinished rest; each block enters as itself at 16 kHz and as its own resampling at any other rate, in order |
| Preprocessor.NothingLostAt16k | var-thon/services/inference-py/vad/preprocessor.py:27-44 | at 16 kHz all frames, the unfinished frame and the unfinished block are the samples again |
| Pipeline.Listener.HandleAudioEvent | var-thon/services/inference-py/main.py:290-305 | a chunk takes the state of the bytes so far to the state of the longer byte string, whatever the earlier chunks were |
| Pipeline.Listener.HandleAll | var-thon/services/inference-py/main.py:307-338 | the utterances dispatched by a call depend only on its concatenated bytes, read as 16-bit little-endian samples, and its sample rate, and are those of the declarative segmentation |
| Pipeline.Listener.DispatchUtterance | var-thon/services/inference-py/main.py:186-202 | queues the collected frames once and ignores an empty collection |
| Pipeline.HeardUtterances | var-thon/services/inference-py/main.py:297-305 | any state reached by hearing samples s has dispatched exactly the utterances of the segmentation of s |
| Sentences.CutAppend | var-thon/services/inference-py/llm/engine.py:65-81 | cutting as text arrives yields the pieces and left-over of cutting the whole text |
| Sentences.CutIsExact | var-thon/services/inference-py/llm/engine.py:65-81 | pieces and left-over concatenate to the text; each piece has at least nine characters and ends at its first terminator at index eight or later; none is left uncut |
| Sentences.StripLosesOnlyEdges | var-thon/services/inference-py/llm/engine.py:77 | stripping removes only whitespace at the two edges |
| Sentences.ExtractSentences | var-thon/services/inference-py/llm/engine.py:65-81 | returns all the stripped pieces and the uncut rest |
| Sentences.GenerateStream | var-thon/services/inference-py/llm/engine.py:83-124 | what is yielded depends only on the text and on whether the stream broke, not on the split into tokens |
| Sentences.ReplyIsSpoken | var-thon/services/inference-py/llm/engine.py:118-120 | an unbroken reply is cut into pieces, each spoken as itself without edge whitespace, and a left-over that is spoken likewise or has a stripped length under eight; nothing else is lost |
| Sentences.BrokenReplySaysSo | var-thon/services/inference-py/llm/engine.py:122-124 | a reply that breaks off says every complete piece, drops the left-over and ends with the failure sentence |
| EngineProtocol.OutputProtocol | var-thon/services/inference-py/main.py:365-396 | in every interleaving answer i is about utterance i, and the stream is a prefix of the audio of the answers in that order and one outcome; the outcome comes only after every dispatched utterance was answered, and is UNCLEAR when no exchange was complete, otherwise the one verdict that the classifier's one word spells, UNCLEAR for any other word; the stream closes only when it is all of that |
| EngineProtocol.ClassifierSeesWholeCall | var-thon/services/inference-py/main.py:262-274 | the classifier runs only after every dispatched utterance was answered, in dispatch order, and remembered |
| EngineProtocol.HistoryIsRecentPairs | var-thon/services/inference-py/main.py:155-162 | history is always the last six or fewer complete exchanges of the full transcript, in dispatch order |
| EngineProtocol.EveryStepDescends | var-thon/services/inference-py/main.py:262-274 | every step of pump, worker and relay lowers a lexicographic measure, whatever inference answers |
| EngineProtocol.StuckMeansClosed | var-thon/services/inference-py/main.py:340-363 | a run can stop only where every dispatched utterance was answered in order and the stream is complete and closed |
| Teardown.HalfCloseIsSafe | var-thon/services/orchestrator-go/internal/gateway/server.go:228-245 | from the moment CloseSend begins, no SendAudio is in flight or ever starts |
| Teardown.NoUseAfterClose | var-thon/services/orchestrator-go/internal/session/session.go:119-139 | no goroutine sends on or closes a closed channel, and the outcome channel is closed at most once however many outcomes arrive |
| Teardown.OutcomeDelivery | var-thon/services/orchestrator-go/internal/gateway/server.go:265-308 | what is reported is the latest outcome processed when main looked, or UNCLEAR; without half-close error or timeout main looked after the first outcome if there was one; a half-close error yields UNCLEAR |
| TeardownDelivery.DeliveryExactly | var-thon/services/orchestrator-go/internal/gateway/server.go:265-308 | whatever outcomes were processed, every run without half-close error and timeout reports the latest of them if and only if they all agree, an empty one counting as UNCLEAR |
| TeardownDelivery.AnyOutcomeCanBeReported | var-thon/services/orchestrator-go/internal/gateway/server.go:291-307 | for any list of outcomes and any position in it there is a run that processes the list and reports the outcome at that position |
| Teardown.AgreeingOutcomesAreDelivered | var-thon/services/orchestrator-go/internal/gateway/server.go:265-308 | in every run whose processed outcomes agree, no half-close error and no timeout, that outcome is reported |
| Teardown.SingleOutcomeIsDelivered | var-thon/services/orchestrator-go/internal/session/session.go:119-139 | in particular with at most one outcome processed |
| TeardownDelivery.EmptyOutcomeHidesLaterOne | var-thon/services/orchestrator-go/internal/gateway/server.go:291-305 | so an empty outcome before AGREED can make UNCLEAR the report |
| Teardown.OutcomesInOrder | var-thon/services/orchestrator-go/internal/session/session.go:268-272 | the outcomes processed are a prefix of those the engine sent: none invented, duplicated or overtaken |
| Teardown.EngineOutcomeIsReported | var-thon/services/orchestrator-go/internal/gateway/server.go:300-307 | when the engine sent one non-empty outcome, no half-close error and no timeout, the report is that outcome if the pump processed it and UNCLEAR if not |
| Teardown.AudioIsPassedOn | var-thon/services/orchestrator-go/internal/session/session.go:230-278 | in every interleaving each piece of the engine's audio is taken for the caller once or still on its way, at most 100 pieces in the channel |
| Teardown.CallerIsHeard | var-thon/services/orchestrator-go/internal/gateway/server.go:205-226 | in every interleaving the relay sends each piece of the caller's audio once |
| Teardown.CallerHearsUntilLost | var-thon/services/orchestrator-go/internal/gateway/server.go:184-203 | until a send to the caller fails every piece taken is sent, and after it none is |
| Teardown.RelayStopsOnce | var-thon/services/orchestrator-go/internal/gateway/server.go:205-226 | the relay ends exactly when the caller's stream ended or a send to the engine failed |
| CallReport.EngineReportsOnce | var-thon/services/inference-py/main.py:262-274 | in any interleaving of engine and gateway, what the gateway is sent holds at most one outcome, the engine's own and never empty, and only after the audio of every dispatched utterance |
| CallReport.VerdictIsReported | var-thon/services/orchestrator-go/internal/gateway/server.go:265-308 | end to end: without half-close error and timeout, if the pump processed an outcome, as it has once it read all of a closed stream, the gateway reports the classifier's one word when it is AGREED, PROMISED or REFUSED and an exchange was complete, and UNCLEAR otherwise; if it processed none it reports UNCLEAR |
| Teardown.CancelledOnlyDrains | var-thon/services/orchestrator-go/internal/gateway/server.go:177-203 | after cancellation every step of pump and drain, failed sends included, lowers the remaining work and no other step changes it |
| Teardown.DrainNeverStuck | var-thon/services/orchestrator-go/internal/gateway/server.go:247-250 | after cancellation, until the drain has exited, pump or drain can take a step |
| Teardown.DrainIsBounded | var-thon/services/orchestrator-go/internal/gateway/server.go:249-250 | in every continuation pump and drain take at most the remaining work in steps |
| SessionState.Session.TransitionTo | var-thon/services/orchestrator-go/internal/session/session.go:73-92 | moves exactly on the nine transitions of the lifecycle, and otherwise refuses and changes nothing |
| SessionState.Session.Attach | var-thon/services/orchestrator-go/internal/session/session.go:100-110 | takes a created session to ACTIVE, and refuses any other unchanged |
| SessionState.PumpIsNeverRefused | var-thon/services/orchestrator-go/internal/session/session.go:230-278 | in every interleaving with the idle timer, the pump's own transitions are all legal, and the session is TERMINATED exactly when the engine closed its stream in order |
| SessionState.TerminatedStays | var-thon/services/orchestrator-go/internal/session/session.go:244-252 | a late timer callback never revives a terminated session |
| SessionState.RefusedExactly | var-thon/services/orchestrator-go/internal/session/session.go:244-252 | in every interleaving, a callback's request is refused if and only if since its check the engine's end of stream was seen or another callback acted without a return to RESPONDING |
| SessionState.NeverRefusedExactly | var-thon/services/orchestrator-go/internal/session/session.go:244-252 | a run refuses no callback if and only if neither happens between any check and act |
| SessionState.CallbacksCollide | var-thon/services/orchestrator-go/internal/session/session.go:236-250 | a run in which two callbacks both pass the RESPONDING check and the second is refused |
| Rupees.FormatRupees | recovery-orchestrator/internal/campaign/manager.go:554-581 | the left-to-right loop writes the grouping counted in threes from the right |
| Rupees.RupeesReadBack | recovery-orchestrator/internal/campaign/manager.go:554-581 | for every non-negative amount, deleting the commas reads back paise / 100, and commas stand exactly at every fourth place from the right |
| Rupees.NegativeRupees | recovery-orchestrator/internal/campaign/manager.go:559-580 | a negative amount is a minus and its grouped digits if and only if the number of digits is no multiple of three |
| Rupees.NoWholeRupee | recovery-orchestrator/internal/campaign/manager.go:560-565 | less than a rupee either way prints as 0 |
| Rupees.MisplacedComma | recovery-orchestrator/internal/campaign/manager.go:567-572 | minus one lakh rupees prints with a comma after the sign |

## Left out

- RecoveryWaiting.NoStarvationOverlapping: a timer moved or a campaign paused or resumed by hand can reorder the queue at will, so the theorem is about stretches without such edits.
- Teardown.OutcomeDelivery: the promise date, which is stored, read and reported together with the outcome, is not carried.
- RecoveryOverlap.CallsAreSpacedOverlapping: a timer set by hand can bring a call forward at will, so the theorem is about runs without timer edits.
- RecoveryStore.DB.CampaignQueue: customer and product names, which decide nothing, are not columns of the model.
- RecoveryManager.Manager.EndSession: reads the clock once, at the moment the follow-up is computed; the interleaved machine has the link request, the computation and the write at different times.
- Segmentation.StreamingIsSegmentation: collects at END only; an explicit end-of-utterance signal from the client, which collects mid-speech, is not part of the theorem.
- EngineProtocol.OutputProtocol: a cancelled stream is a reply that ends early; an exception that the worker does not catch, which leaves the stream open, is not modelled.
- Teardown: does not carry the session's lifecycle state, which decides nothing that is reported; `SessionState` has it with the idle timer. Terminate and InterruptChan, which this path never uses, are in neither.
- HTTP routing, JSON, flags, signature checking, SQL text and the payment provider's HTTP call: only "a fresh link with an expiry, or a failure" remains of the last.
- Prompt rendering, due-date formatting, parsing of date text and of the classifier's reply beyond the four words.
- Random id generation and databases on which the unique indexes could not be created.
- Conversion of durations to frame counts, int16 clipping, WAV headers, float rounding, and the insides of the speech, language and voice models.
- Wall-clock liveness: calls that never end, and errors after assignment but before the session starts.
