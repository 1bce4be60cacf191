# Service requests: a verified model

A platform takes in service requests (cleaning, moving, repairs), classifies them, picks a partner,
dispatches the request on the partner's channels, and falls back to the next partner when one rejects
it, cannot be reached or does not answer in business time. This project models the machinery that
meets at the request row and proves what it keeps over whole runs.

| file | what it models |
|---|---|
| `Calendar.dfy` | the business-hours calendar: the day loop against a measure of open time |
| `SlaEngine.dfy` | deadlines, pauses and the SLA state, and the pre-filter of the timeout scan |
| `Fsm.dfy` | the state machine of a request and the paths through it |
| `Ordering.dfy`, `Matching.dfy` | sorting, and the ranking of partners |
| `Requests.dfy` | the request row, its object, and the one helper that moves its status |
| `Services.dfy` | classification, assignment and the partner's answer |
| `Dispatching.dfy` | the search over partners and channels, and the two commits of a dispatch |
| `Timers.dfy` | the fallback chain, the accept-timeout scan and the drain after a rejection |
| `Runs.dfy` | every run of a request: any sequence of the operations above |
| `Pipeline.dfy` | the on_create pipeline, crashes between its commits, redeliveries and re-runs |
| `Outbox.dfy` | the transactional outbox and the loop that drains it |
| `Clients.dfy` | circuit breaker, retries and the client that composes them |
| `Paging.dfy` | keyset pages of the request list |
| `Intake.dfy` | concurrent intake with one idempotency key |
| `Inbound.dfy` | signed messages from partners: nonces, replays, interleavings |
| `Results.dfy` | optional values and results |

Code that changes things in place is a class or a method with loops, proved against a specification
function; what is promised is then proved of that function. All instants and durations are integers:
microseconds on one timeline.

Where the source's own documentation says more than its code does, the model follows the code:

- `circuit_breaker.py` promises exactly one probe in HALF_OPEN. The outcome of a call admitted while
  CLOSED can clear the mark: `OneProbeExactly` says when the rule holds, `SecondProbeExactly` when a
  second probe becomes possible, `TwoProbes` gives a run.
- `base.py` records no outcome for an error it does not catch. If that happens to a probe, the circuit
  stays half open and refuses every further call, unless one admitted before it opened ends later:
  `ProbeRecovers`, `GetsStuck`, `ReleasedExactly`.
- `pipeline.py` calls a re-run idempotent, each step tolerating a 409. DISPATCHED and FAILED_DISPATCH can
  be assigned, so a re-run of a request that went out converges, but moves it and delivers everything
  once more: `RerunDeliversAgain`.
- `dispatch.py` calls a repeated delivery idempotent by its key. That is so only of deliveries whose
  transaction was rolled back; a message drained again after a commit sends new keys: `KeysShared`.
- `repository.py` takes a raw deadline before now as necessary for a breach. In the very instant of a
  deadline without pauses it is not: `FilterMissesOnlyTheInstant`.
- `max_attempts` bounds the claims of a message if each of them is marked before the next one is made:
  `RetriesBackOff`. The first commit of an on_create run commits the claims of its whole batch, so that a
  run that dies leaves them open, and one slower than the visibility timeout marks them after others have
  claimed the messages again. A mark looks at the worker's copy alone: a late failure gives back even a
  message that is done. Exactly when a message can be claimed again is said by `ClaimedAgainExactly` and
  `AttemptsExceeded`; `TerminalComesBack` and `UnclosedClaimsUnbounded` give the runs.
- The diagram in `fsm.py` has no edge into REJECTED; the table has one, from DISPUTE: `AsDrawn`.
- The calendar accepts business days that are no weekdays; alone, they exhaust the horizon on every
  call: `NoWeekdayAlwaysRaises`.

## Model

| member | source | states |
|---|---|---|
| `Calendar.MakeCalendar` | backend/src/api/sla/calendar.py:27-31 | A calendar is made exactly when it has a business day and a window 0 <= open < close <= 24; an empty set of days is the error reported first. |
| `Calendar.BusinessCalendar.AddBusinessSeconds` | backend/src/api/sla/calendar.py:33-54 | The day loop returns, for every start and duration, what `Deadline` defines from the tick-by-tick measure of open time: the deadline, or the error for a negative duration or for the horizon. |
| `Calendar.BusinessCalendar.DeadlineExact` | backend/src/api/sla/calendar.py:33-54 | `t` is the answer if and only if it is the least instant from the start on whose business time equals the duration (for a duration of 0: the least open instant) and it lies within the horizon. |
| `Calendar.BusinessCalendar.DeadlineExists` | backend/src/api/sla/calendar.py:39-54 | Wherever enough business time passes, a least such instant exists. |
| `Calendar.BusinessCalendar.DeadlineUnique` | backend/src/api/sla/calendar.py:39-54 | There is only one such instant. |
| `Calendar.BusinessCalendar.CloseOf` | backend/src/api/sla/calendar.py:56-62 | Both branches give the midnight of the day plus the closing hour, which for hour 24 is the next midnight. |
| `Calendar.BusinessCalendar.WindowCloses` | backend/src/api/sla/calendar.py:56-62 | On a business day the microsecond before the close is open; the close itself is not, unless it is midnight. |
| `Calendar.BusinessCalendar.RestOfDay` | backend/src/api/sla/calendar.py:41-45 | From any moment of a business day on, the day is closed until the segment start, open until the close, closed until midnight. |
| `Calendar.BusinessCalendar.DayTime` | backend/src/api/sla/calendar.py:41-50 | The time the loop spends on a business day is the business time of the rest of that day, nothing if the window is over. |
| `Calendar.BusinessCalendar.StopToday` | backend/src/api/sla/calendar.py:45-49 | Stopping inside today's window hits the least instant with the total business time, also with nothing left to spend. |
| `Calendar.BusinessCalendar.FullWeeksNeverRaise` | backend/src/api/sla/calendar.py:15-54 | No error for any duration up to 261 full weeks of the weekdays the calendar has, whatever the start. |
| `Calendar.BusinessCalendar.WeeksTime` | backend/src/api/sla/calendar.py:40-53 | Any run of whole weeks holds weeks times weekdays times the window of business time, from whichever weekday it starts. |
| `Calendar.BusinessCalendar.NoWeekdayAlwaysRaises` | backend/src/api/sla/calendar.py:27-54 | Every duration, from a given start, ends at the horizon if and only if the business days, which pass the constructor's check, are none of 0..6. |
| `Calendar.BusinessCalendar.AddTwice` | backend/src/api/sla/calendar.py:39-54 | Adding a and then b is adding a + b, for b > 0, whenever the latter returns; and then so do the two steps. |
| `Calendar.BusinessCalendar.Increasing` | backend/src/api/sla/calendar.py:39-54 | A longer duration has a strictly later deadline. |
| `Calendar.BusinessCalendar.MonotoneInStart` | backend/src/api/sla/calendar.py:39-54 | A later start never has an earlier deadline. |
| `Calendar.BusinessCalendar.WeekBeginsOnMonday` | backend/src/api/sla/calendar.py:39-47 | The weekdays count from 0 for a Monday: on a timeline that begins with one, a calendar with the one business day w is first open at its opening hour, w days on. |
| `SlaEngine.PausedSeconds` | backend/src/api/sla/engine.py:116-129 | The loop adds up the lengths of the pauses; malformed entries, and pauses that end before they begin, count for nothing, as does an entry that is no list. |
| `SlaEngine.SlaPolicy.SetAcceptDeadline` | backend/src/api/sla/engine.py:49-57 | It fails exactly if the calendar does; otherwise the document keeps everything but the accept deadline, which is the calendar's, and a pause list created empty if there is no entry at all. |
| `SlaEngine.SlaPolicy.SetPerformDeadline` | backend/src/api/sla/engine.py:59-67 | The same for the perform deadline. |
| `SlaEngine.SlaPolicy.Evaluate` | backend/src/api/sla/engine.py:69-87 | BREACHED exactly from the deadline plus pauses on; AT_RISK exactly before that, once the fraction of the way from the start mark (or a day before the deadline) to there has gone by; ON_TRACK without a deadline. |
| `SlaEngine.SlaPolicy.StateAsPromised` | backend/src/api/sla/engine.py:69-87 | The same of the specification function, the quotient of the source turned into a product. |
| `SlaEngine.PausesAddUp` | backend/src/api/sla/engine.py:116-129 | No pauses are no time; one more adds its length, or nothing if it is malformed or ends before it begins. |
| `SlaEngine.SlaPolicy.NeverBack` | backend/src/api/sla/engine.py:69-87 | As the clock grows the state never moves back along ON_TRACK, AT_RISK, BREACHED. |
| `SlaEngine.SlaPolicy.PauseNeverForward` | backend/src/api/sla/engine.py:69-87 | More pause time never moves the state forward. |
| `SlaEngine.SlaPolicy.JustStartedNotBreached` | backend/src/api/sla/engine.py:49-57 | With a positive stage length, a stage just started has a deadline strictly later and is not breached. |
| `SlaEngine.SlaPolicy.AlwaysStarts` | backend/src/api/sla/engine.py:49-67 | A stage that 261 full weeks can hold always gets its deadline. |
| `SlaEngine.SlaPolicy.BreachedPassesFilter` | backend/src/api/requests/repository.py:132-157 | A request breached at one instant passes the SQL pre-filter at every later one. |
| `SlaEngine.SlaPolicy.FilterMissesOnlyTheInstant` | backend/src/api/requests/repository.py:135-151 | The strict comparison misses a breached row if and only if it is looked at in the very instant of a deadline without pauses. |
| `Fsm.BuildAllowed` | backend/src/api/requests/fsm.py:56-72 | The table built has an entry for every status, holding exactly the targets one may move to. |
| `Fsm.OneEntry` | backend/src/api/requests/fsm.py:36-53 | The edges of the diagram together with the rule for CANCELLED are the predecessor relation `CanTransition`. |
| `Fsm.AsDrawn` | backend/src/api/requests/fsm.py:8-53 | The moves allowed are exactly the steps of the main line from NEW to PAID, the eight branches, and the cancellation of what is not final. |
| `Fsm.PathLength` | backend/src/api/requests/fsm.py:36-68 | Every path from NEW with k entries into MATCHING has at most 4k + 8 moves, and fewer according to where it ends. |
| `Fsm.BoundIsMet` | backend/src/api/requests/fsm.py:36-68 | For every k > 0 there is a path of exactly 4k + 8 moves. |
| `Matching.Eligible` | backend/src/api/matching/engine.py:37-41 | Exactly the candidates of the category that are active, available, reachable on some channel and not bound to other areas. |
| `Matching.RankedSorted` | backend/src/api/matching/engine.py:44-47 | The ranking has the eligible candidates, each as often as it occurs, sorted. |
| `Matching.RankAnswers` | backend/src/api/matching/engine.py:42-43 | Nobody is chosen if and only if nobody is eligible. |
| `Matching.RankExact` | backend/src/api/matching/engine.py:44-68 | Partner and chain together are the ids of the eligible candidates by rating (missing as 0) descending, then id; the channel is the first of the chosen partner. |
| `Matching.RankIsBest` | backend/src/api/matching/engine.py:37-83 | The ranking has exactly the candidates that nothing rules out, and nobody in it comes after somebody worse (lower rating, or the same and a later id); its first is the partner, on the first of their channels, and the others in order are the chain. |
| `Matching.RankCanonical` | backend/src/api/matching/engine.py:44-68 | With distinct ids the answer is the same for every order of the candidates. |
| `Requests.ServiceRequest.constructor` | backend/src/api/requests/models.py:55-160 | A new request is NEW, with nothing else set. |
| `Requests.ApplyTransition` | backend/src/api/requests/service.py:118-141 | Exactly an allowed move is made: the status, one history row from the old status to the new one, the milestone of the new status at that instant, and no other field; a forbidden one changes nothing. |
| `Services.RouteStatus` | backend/src/api/requests/service.py:685-699 | A new request passes CLASSIFYING and CLASSIFIED; low confidence moves CLASSIFIED to NEEDS_REVIEW; otherwise nothing moves. |
| `Services.Classify` | backend/src/api/requests/service.py:645-699 | Refused outside NEW, CLASSIFIED and NEEDS_REVIEW; otherwise the category is the verdict's, and the status CLASSIFIED with confidence at the threshold and a category other than OTHER unless the request was up for review, else NEEDS_REVIEW, with the history rows of the way there. |
| `Services.ClassifiesAsPromised` | backend/src/api/requests/service.py:645-699 | The same of the specification function, for every row and verdict. |
| `Services.ClassificationRoutes` | backend/src/api/requests/service.py:685-699 | Whatever the verdict, a classification ends CLASSIFIED if it is confident and was not up for review, NEEDS_REVIEW otherwise, by legal moves appended to the history. |
| `Services.ApplyManual` | backend/src/api/requests/service.py:785-790 | The named partner replaces partner, channel and chain, and nothing else changes. |
| `Services.ApplyAuto` | backend/src/api/requests/service.py:792-809 | The ranking's partner, channel and chain are taken; without an eligible partner nothing changes. |
| `Services.RouteToAssigned` | backend/src/api/requests/service.py:831-835 | Through MATCHING, unless already there, to ASSIGNED. |
| `Services.Assign` | backend/src/api/requests/service.py:741-783 | The end (done, 409, 422, 502) and the row in the session for every status, choice and answer of the order service, also where it raises. |
| `Services.AssignsAsPromised` | backend/src/api/requests/service.py:741-835 | 409 exactly outside the five statuses or without a category, 422 exactly if nobody suits, 502 exactly if somebody does and the order service is away; otherwise the partner named, without channel and chain, or the best of the registry for the category's name, with channel and chain, and the history rows to ASSIGNED. |
| `Services.AdvancePartnerStatus` | backend/src/api/requests/partner.py:26-63 | Word by word, in any letter case: "accepted" takes DISPATCHED to ACCEPTED with the milestone and the perform stage from now on (or raises, with just the move in the session, if the calendar has no deadline); "rejected" goes to MATCHING from where the state machine allows it, with one more fallback message exactly if the automation is on; "in_progress" takes ACCEPTED to IN_PROGRESS, "done" IN_PROGRESS to DONE with its milestone; each is a no-op at its own status and refused elsewhere; any other word is unknown; a refusal changes nothing. |
| `Services.AnswersAsPromised` | backend/src/api/requests/partner.py:26-63 | The same of the specification functions, for every row, word and instant. |
| `Services.AdvanceTwice` | backend/src/api/requests/partner.py:43-51 | The same answer again, at any later time, changes nothing. |
| `Dispatching.FirstSuccess` | backend/src/api/channels/dispatch.py:101-124 | The first pair of partner and channel whose delivery succeeds, all pairs before it having failed. |
| `Dispatching.TryPartner` | backend/src/api/channels/dispatch.py:106-122 | The inner loop tries a partner's channels in order up to the first success, numbering each attempt; the category assertion stops it before it records anything. |
| `Dispatching.Search` | backend/src/api/channels/dispatch.py:101-124 | The two loops together record the attempts on the flattened list of pairs up to the first success. |
| `Dispatching.TakeUp` | backend/src/api/channels/dispatch.py:126-133 | The chosen pair is written, and the accept stage started at the dispatch time, or the row is left without it when the assertion or the calendar raises. |
| `Dispatching.ExecuteDispatch` | backend/src/api/channels/dispatch.py:89-136 | The end and the row left, for every row: as `DispatchInOrder` says of the partners and channels asked and of who took the request; delivered with the accept stage from the dispatch time on; failed; or raised, with what the session then holds. |
| `Dispatching.DispatchInOrder` | backend/src/api/channels/dispatch.py:97-136 | In terms of the row: the j-th channel of the i-th of [partner] + chain is tried as attempt number made + (channels of the partners before) + j + 1; whoever took the request, all channels of all partners before and all earlier channels of that partner failed, and none later was tried; if nobody did, all failed and all were tried. The end is decided by that, by the category, the dispatch time and the calendar, and no other field changes. |
| `Dispatching.SearchExact` | backend/src/api/channels/dispatch.py:101-133 | The attempts added are the shortest prefix of all pairs ending in a success, or all of them; a success exists if and only if one is chosen, and it is the pair of the last attempt. |
| `Dispatching.DispatchExact` | backend/src/api/channels/dispatch.py:97-136 | From DISPATCHED with a category and a dispatch time: delivered if and only if some pair succeeds and the calendar gives an accept deadline; raised if and only if some pair succeeds and it gives none; either way still DISPATCHED with the pair of the last attempt; FAILED_DISPATCH after all pairs, with partner and channel untouched, if and only if none succeeds. |
| `Dispatching.StartDispatch` | backend/src/api/channels/dispatch.py:160-172 | The first commit: exactly from ASSIGNED with partner and category, the move to DISPATCHED with its milestone and one message more; otherwise nothing. |
| `Dispatching.DrainMessage` | backend/src/api/channels/dispatch.py:191-212 | The message is closed exactly if the dispatch did not raise; the rest is what `ExecuteDispatch` leaves. |
| `Dispatching.RedeliversAsPromised` | backend/src/api/channels/dispatch.py:183-236 | Draining a message once more: what a dispatch promises, with the message closed when the search is over or a worker gives up on it; a handler whose drain raises leaves the row and the message as they were. |
| `Timers.NextPartner` | backend/src/api/automation/timers.py:45-57 | The partner becomes the head of the chain, the chain loses it, and nothing else changes; an empty chain changes nothing. |
| `Timers.RedispatchToNext` | backend/src/api/automation/timers.py:60-88 | From MATCHING the head of the chain is asked first, on its channels in their order, numbered on from the attempts made, and has the request if one of them works; the partner is then one of the old chain in any case, and the chain has lost its head. With an empty chain the request stays in MATCHING. |
| `Timers.NextIsTaken` | backend/src/api/automation/timers.py:45-88 | The same of the specification functions, from every row with a chain. |
| `Timers.RunAcceptTimeoutFallback` | backend/src/api/automation/timers.py:91-109 | An empty chain fails the request while it is still DISPATCHED; otherwise it goes to the next partner as in `RedispatchToNext`. |
| `Timers.ScanCandidates` | backend/src/api/automation/timers.py:132-138 | The loop processes exactly the candidates breached with their pauses, up to the first whose fallback raises: the ones before it are rolled back, it is left as it raised, the ones after it are untouched. |
| `Timers.ScanAcceptTimeouts` | backend/src/api/automation/timers.py:112-141 | Nothing while the automation is off; if the fallback of some picked row raises, and only then, an error and nothing committed; otherwise the count and every picked row after the scan. |
| `Timers.EveryBreachedIsPicked` | backend/src/api/requests/repository.py:132-157 | A scan with room for all candidates picks every unlocked request that was breached before its moment. |
| `Timers.ProcessPartnerFallback` | backend/src/api/automation/timers.py:149-166 | A request that has left MATCHING is not touched; one in MATCHING goes to the next partner as in `RedispatchToNext`. |
| `Timers.ScanMakesProgress` | backend/src/api/automation/timers.py:112-141 | Each processed request ends FAILED_DISPATCH, or DISPATCHED with an accept deadline strictly after the scan's moment. |
| `Timers.SecondScanIdle` | backend/src/api/automation/timers.py:112-141 | After a whole scan, a second one at the same moment would process none of its rows. |
| `Timers.FallbackRaises` | backend/src/api/automation/timers.py:91-109 | The fallback of a classified request raises if and only if its chain is not empty, somebody of it takes the request, and the calendar then gives no accept deadline. |
| `Timers.ScanNeverRaises` | backend/src/api/automation/timers.py:112-141 | So it never does with an accept time that 261 full weeks can hold. |
| `Runs.StepKeeps` | backend/src/api/requests/service.py:118-835 | Whatever the policy, the channels and their outcomes are at the time, every operation by any actor, committed, rolled back or committed dirty by a worker, keeps the invariant of the row. |
| `Runs.HistoryOfEveryRun` | backend/src/api/requests/service.py:118-141 | In every reachable state, in a world that may change from step to step, the history is one legal path from NEW to the status, of at most 4k + 8 rows, and the milestones set are a nondecreasing prefix. |
| `Runs.AttemptsOfEveryRun` | backend/src/api/channels/dispatch.py:101-118 | Over every run the stored attempts of a request are numbered 1 to n, so no idempotency key repeats. |
| `Runs.KeysShared` | backend/src/api/channels/dispatch.py:7-118 | Wherever transactions are rolled back or crash, even between two deliveries, two of them share an idempotency key if and only if both send something and fewer attempts were stored from the first to the second than the first sent; so only if nothing of the first was stored, and what was stored is never sent again under its key. |
| `Runs.AssertionsNeverFire` | backend/src/api/channels/dispatch.py:53-55 | In every run, wherever a dispatch is executed (also for redelivered messages and fallbacks), partner or chain imply a category and `dispatched_at` is set, so neither assertion fires. |
| `Runs.StepAndChain` | backend/src/api/automation/timers.py:45-88 | One step other than an assignment that writes the row takes at most the head off the chain, exactly when a redispatch is committed; that redispatch asked the head first. |
| `Runs.ChainConserved` | backend/src/api/automation/timers.py:45-109 | Since an assignment was written, over any steps, refused assignments among them, the chain is the one it wrote without as many heads as redispatches were committed, at most its length; the partner is the assigned one or one of that chain. |
| `Runs.MessagesBalance` | backend/src/api/channels/dispatch.py:168-236 | Over every run, by any actors, the dispatch and fallback messages pending and those closed are together those there were and those added: one per dispatch of an assigned request, one per rejection allowed while the automation is on; a drain closes one unless it raises before the last attempt. |
| `Runs.ScanIsSteps` | backend/src/api/automation/timers.py:112-141 | A scan that commits is one step of each request it picked; where a fallback raises, that request's step changes nothing, as nothing is committed. |
| `Pipeline.RunOnCreate` | backend/src/api/automation/pipeline.py:65-103 | The row after a run is the last of its commits, and its end is the one of six that verdict, autonomy level, registry, order service and channels decide. |
| `Pipeline.NewRunEnds` | backend/src/api/automation/pipeline.py:65-103 | A run of a new request ends up for review exactly without a confident verdict, classified only, without a partner, or assigned only exactly as autonomy level and registry decide, and raises only through the order service or the dispatch. |
| `Pipeline.WinnerAgain` | backend/src/api/channels/dispatch.py:102-124 | Searching again from the partner that took the request finds the same channel. |
| `Pipeline.SearchOnCourse` | backend/src/api/channels/dispatch.py:102-128 | Once a run has chosen its partner, every search ends at the pair an undisturbed run finds. |
| `Pipeline.CompleteRun` | backend/src/api/automation/pipeline.py:65-103 | From every state crashes can leave, a complete run ends at the target. |
| `Pipeline.RedeliveryKeeps` | backend/src/api/channels/dispatch.py:215-236 | A redelivered dispatch message, failing or not, does not move a request that has arrived. |
| `Pipeline.CrashesConverge` | backend/src/api/automation/pipeline.py:65-134 | After any runs that died after any commit (also between the two of a dispatch), any redeliveries between them and one complete run, status, category, partner, chain and channel are those of one undisturbed run, at every autonomy level. |
| `Pipeline.InterleavedConverge` | backend/src/api/automation/pipeline.py:65-134 | The same for any number of runs at once, with a worker that drains dispatch messages, those of the runs or others, also between their commits: however commits, deaths, new beginnings and drains interleave, when all runs have completed, the request is where one undisturbed run takes it. |
| `Pipeline.RunsComplete` | backend/src/api/automation/pipeline.py:65-103 | Runs that do not begin anew make at most four commits each, and are complete when they have made all that remain, however many drains come between. |
| `Pipeline.RerunDeliversAgain` | backend/src/api/automation/pipeline.py:7-103 | A run of a finished request ends at the same place, but is a no-op if and only if the request does not go out (low confidence, autonomy below dispatch, nobody eligible, or the order service down); otherwise it is moved and dispatched once more, with every delivery of the first run again, of which there are none only if no chosen partner has a channel. |
| `Outbox.OutboxRepository.Enqueue` | backend/src/api/outbox/repository.py:22-26 | One new pending message, available at once. |
| `Outbox.OutboxRepository.ClaimBatch` | backend/src/api/outbox/repository.py:32-64 | Each row of the query becomes PROCESSING with one more attempt, available again when the visibility window is over, and keeps its other columns; no other message changes. |
| `Outbox.OutboxRepository.MarkDone` | backend/src/api/outbox/repository.py:66-69 | Done and stamped. |
| `Outbox.OutboxRepository.MarkFailedOrRetry` | backend/src/api/outbox/repository.py:71-87 | Failed for good if the attempts that the worker's copy counts are used up, otherwise pending again at the given time, whatever the stored message has come to since; the error cut to 1000 characters. |
| `Outbox.OutboxRepository.DeliverOne` | backend/src/api/webhooks/drainer.py:31-55 | A delivered message is DONE and stamped; a refused or unreachable one has its error noted, cut to 1000 characters, and is PENDING again after base * 2^(n - 1) while n, the attempts of the worker's copy, is below `max_attempts`, FAILED and stamped otherwise. |
| `Outbox.MarksAsPromised` | backend/src/api/outbox/repository.py:66-87 | The same of the specification function, for every message, claim and delivery. |
| `Outbox.HiddenExactly` | backend/src/api/outbox/repository.py:47-64 | A claimed message can be claimed again exactly from the end of its window on, a new one exactly from its availability time on. |
| `Outbox.OutboxRepository.DrainBatch` | backend/src/api/webhooks/drainer.py:19-57 | Every message of the batch is claimed and then marked by its outcome as in `DeliverOne`, by its own new count of attempts, and no other message changes; an error of another kind on any of them, and only that, leaves the whole queue as it was. |
| `Outbox.DrainIsRun` | backend/src/api/webhooks/drainer.py:25-55 | A drain, or the part of it a death leaves, is a claim of its batch followed by one mark per message, in the runs below, where any claim may also be marked later or never. |
| `Outbox.ClaimsDisjoint` | backend/src/api/outbox/repository.py:40-64 | In every run, a claim inside the visibility window of an earlier one shares no message with it, whatever claims, marks as done, however late, and new messages lie between, and in whatever order their instants. |
| `Outbox.ClaimsAccount` | backend/src/api/outbox/repository.py:47-87 | In every run, with marks however late, the attempts of a message are its claims, and its claims without a mark are exactly the open ones. |
| `Outbox.ClaimsInOrder` | backend/src/api/outbox/repository.py:47-87 | In every run in which no claim of a message is marked after its next claim, each claim is followed by the next after its backoff or visibility window. The message is DONE exactly if its last claim was delivered, FAILED exactly if that was marked a failure with the attempts used up, PENDING exactly if it has no claim or was marked a failure with attempts left, PROCESSING exactly if its last claim is open. |
| `Outbox.RetriesBackOff` | backend/src/api/outbox/repository.py:47-87 | In every run in which each claim of a message is closed by a mark, and that before its next claim, it is claimed at most `max_attempts` times, the j-th (from 0) no earlier than the first plus base * (2^j - 1), and it is terminal once they are used up. |
| `Outbox.ClaimedAgainExactly` | backend/src/api/outbox/repository.py:47-87 | From any state, a message can come to be claimed again if and only if it is not terminal or one of its claims that counts less than `max_attempts` is still open. |
| `Outbox.AttemptsExceeded` | backend/src/api/outbox/repository.py:47-87 | Of a message enqueued new, some continuation of a run makes more than `max_attempts` claims if and only if the run has, or the message is not terminal, or one of its claims with a number below `max_attempts` has no mark yet. |
| `Outbox.TerminalComesBack` | backend/src/api/outbox/repository.py:66-87 | A run in which a message that is done, or has failed, is given back by the late failure of an overtaken worker and claimed once more than allowed, every claim closed. |
| `Outbox.TerminalForever` | backend/src/api/outbox/repository.py:47-87 | A terminal message with no open claim is never claimed again and never changes. |
| `Outbox.UnclosedClaimsUnbounded` | backend/src/api/outbox/repository.py:47-64 | From every state and for every n, a message that is not terminal is claimed n times in some run, whatever `max_attempts`, each claim left open. |
| `Outbox.BatchSize` | backend/src/api/outbox/repository.py:47-58 | A claim takes as many messages as are ready, up to its limit. |
| `Outbox.DrainSettles` | backend/src/api/webhooks/drainer.py:31-56 | With a positive retry delay, what a drain marked is not ready again at the same moment, and nothing else changed. |
| `Outbox.ClaimSettles` | backend/src/api/outbox/repository.py:59-64 | With a positive visibility timeout, the same holds of a bare claim. |
| `Outbox.QueueDrains` | backend/src/api/outbox/repository.py:47-64 | At one moment, n ready messages of a kind are claimed once each, the oldest first, in the least number of nonempty batches, n / limit rounded up. |
| `Outbox.BatchExists` | backend/src/api/outbox/repository.py:47-58 | The claim query has an answer on every queue. |
| `Outbox.DrainExists` | backend/src/api/outbox/repository.py:47-64 | From every queue, claiming batch after batch at one moment comes to its end. |
| `Clients.CircuitBreaker.Acquire` | backend/src/api/clients/circuit_breaker.py:45-63 | A call is admitted when CLOSED, when OPEN exactly from one timeout after the opening on, when HALF_OPEN exactly without a probe; admitted from OPEN or HALF_OPEN it leaves HALF_OPEN with a probe marked, and nothing else changes. |
| `Clients.CircuitBreaker.RecordSuccess` | backend/src/api/clients/circuit_breaker.py:65-69 | Closed, with no failures and no probe, from every state (what that means for a history: `CircuitByHistory`). |
| `Clients.CircuitBreaker.RecordFailure` | backend/src/api/clients/circuit_breaker.py:71-81 | A failed probe opens the circuit anew; otherwise one more failure is counted and the threshold opens it. |
| `Clients.AlwaysConsistent` | backend/src/api/clients/circuit_breaker.py:45-81 | In every interleaving, with outcomes however late, CLOSED means failures below the threshold and HALF_OPEN means a marked probe, and conversely. |
| `Clients.CircuitByHistory` | backend/src/api/clients/circuit_breaker.py:45-81 | After any events on a new breaker: CLOSED exactly while there have been fewer failures than the threshold since the last success, and counting them; otherwise opened at the last failure, and HALF_OPEN exactly if somebody has asked since, a timeout later. |
| `Clients.OpensExactly` | backend/src/api/clients/circuit_breaker.py:71-81 | A closed circuit opens exactly at the failure that makes `threshold` of them since the last success, and at its instant. |
| `Clients.AdmittedExactly` | backend/src/api/clients/circuit_breaker.py:45-63 | A call is admitted exactly if there have been fewer failures than the threshold since the last success, or the last failure is a timeout ago and nobody has asked since it was. |
| `Clients.OneProbeKept` | backend/src/api/clients/circuit_breaker.py:45-81 | A step breaks the rule of one probe if and only if it records, in HALF_OPEN, the outcome of a call admitted while CLOSED. |
| `Clients.OneProbeExactly` | backend/src/api/clients/circuit_breaker.py:45-81 | All along a run a probe is under way exactly in HALF_OPEN, and never two, if and only if no step of the run is such a late outcome. |
| `Clients.SecondProbeExactly` | backend/src/api/clients/circuit_breaker.py:45-81 | While a probe is under way, a step makes a second one possible before the first has ended, without another late outcome, if and only if it is a late outcome itself. |
| `Clients.ReleasedExactly` | backend/src/api/clients/circuit_breaker.py:45-81 | While a probe that never ends is under way, the circuit can come to admit somebody again if and only if a call admitted while CLOSED has still to end. |
| `Clients.TwoProbes` | backend/src/api/clients/circuit_breaker.py:45-81 | A run with two probes under way. |
| `Clients.Made` | backend/src/api/clients/retry.py:49-59 | The attempts of a call: up to the first outcome that is not retried, or all. |
| `Clients.RetryAsync` | backend/src/api/clients/retry.py:37-59 | The loop makes exactly those attempts, ends as the last of them did, and sleeps the backoffs between them. |
| `Clients.RetryPolicy.BackoffDoubles` | backend/src/api/clients/retry.py:31-34 | The first delay is the base, each further one double the one before, none above the maximum. |
| `Clients.RetryPolicy.DelaysBounded` | backend/src/api/clients/retry.py:31-34 | n delays sum up to at most n times the maximum. |
| `Clients.Request` | backend/src/api/clients/base.py:57-91 | A refused call makes no attempt; transport errors and codes from 500 on are retried, and given up with all attempts used; an answer below 500 is returned; one outcome is recorded per admitted call that ends in an answer or a retried error, none for a refused call or any other error. |
| `Clients.BeforeOpening` | backend/src/api/clients/base.py:67-87 | On a dead neighbour, the calls up to the threshold are made in full, and the last of them opens the circuit. |
| `Clients.AfterOpening` | backend/src/api/clients/base.py:67-87 | Afterwards, each call let through comes at least one timeout after the circuit last opened. |
| `Clients.BoundedLoad` | backend/src/api/clients/base.py:57-91 | A sequential caller whose every attempt fails makes at most attempts * (threshold + floor(T / reset_timeout)) network attempts up to T after the circuit first opens. |
| `Clients.StuckHalfOpen` | backend/src/api/clients/base.py:77-87 | A half-open circuit whose probe is never recorded refuses every later call of the client. |
| `Clients.ProbeRecovers` | backend/src/api/clients/base.py:77-91 | As the probe leaves it, the circuit admits nobody at any later time if and only if one of its attempts ends with an uncaught error and all before it with retried ones (what a late outcome of another call can do is stated by `ReleasedExactly`). |
| `Clients.GetsStuck` | backend/src/api/clients/base.py:67-87 | For all settings, calls that open the circuit and such a probe after them, from a new breaker, after which no call makes an attempt. |
| `Paging.PageLimit` | backend/src/api/requests/service.py:94-96 | 50 without a limit or with zero, 100 for more than that, otherwise exactly the limit asked for. |
| `Paging.ListingExact` | backend/src/api/requests/repository.py:100-130 | The listing has exactly the visible filtered rows after the cursor, each once, strictly descending by creation time, then id. |
| `Paging.ListedExactly` | backend/src/api/requests/repository.py:100-130 | A row is listed exactly if it is in the table, visible, of the status, category and partner asked for, created within the bounds, and older than the cursor, or as old with a smaller id. |
| `Paging.ListedInOrder` | backend/src/api/requests/repository.py:127-127 | Of two rows listed, the first is newer, or as new with the larger id. |
| `Paging.ListingUnique` | backend/src/api/requests/repository.py:127-127 | Two listings of the same rows are the same. |
| `Paging.ListingAfter` | backend/src/api/requests/repository.py:116-130 | The listing after the cursor of its k-th row is the listing without its first k rows. |
| `Paging.PagesAreTheList` | backend/src/api/requests/service.py:427-446 | On a table that does not change, a walk is over exactly when its pages have room for all rows, that is after the least number of pages, and the pages make up the sorted list. |
| `Paging.OnePage` | backend/src/api/requests/service.py:435-442 | On any table, a page with its cursor loses no selected row: each is on it or after its cursor. |
| `Paging.PageInOrder` | backend/src/api/requests/service.py:435-442 | The rows of a page descend from the cursor it starts at to the cursor it gives. |
| `Paging.StrictlyDescending` | backend/src/api/requests/service.py:435-442 | Over tables changed at will, the rows of a walk are strictly descending. |
| `Paging.StableRowsExactlyOnce` | backend/src/api/requests/repository.py:116-130 | Whatever is inserted, changed or deleted between the pages, a row present and unchanged throughout is on them, and no key occurs twice. |
| `Intake.StepKeeps` | backend/src/api/requests/service.py:315-390 | Each step of each caller keeps: one row at most, its history and message with it, one caller that committed it. |
| `Intake.IntakeIsIdempotent` | backend/src/api/requests/service.py:303-390 | For any number of callers with one key, any interleaving and any crashes, also between commit and answer: at most one row, one CREATED row and one automation message; every returning caller gets that row, at most one of them as its creator; no re-read fails. |
| `Intake.CreatedIsSeen` | backend/src/api/requests/service.py:383-390 | Once there is a row, exactly one caller has committed it, and one has seen `created` if and only if that caller has neither died before its answer nor still to give it. |
| `Intake.NobodySeesCreated` | backend/src/api/requests/service.py:315-390 | A run in which the creator dies between commit and answer and the next caller gets the row as an old one. |
| `Inbound.InboundService.HandleApi` | backend/src/api/channels/inbound.py:92-136 | A duplicate exactly if the nonce is known; not found exactly if there is no such request or it is not this partner's; a refused status as `AnswersAsPromised` says; all these leave everything as it was. Otherwise the status, the estimate, the message and the nonce take effect together, each under the partner's name, and no other request changes. |
| `Inbound.HandlesAsPromised` | backend/src/api/channels/inbound.py:92-136 | The same of the specification functions, from every state of the channel. |
| `Inbound.SeenIsOk` | backend/src/api/channels/inbound.py:92-94 | A nonce is known exactly if it was at the start or an earlier envelope with it was answered "ok". |
| `Inbound.ReplaysChangeNothing` | backend/src/api/channels/inbound.py:92-136 | The state after any sequence of envelopes is that after the sequence without the repeats of nonces already answered "ok". |
| `Inbound.InterleavingsAreSerial` | backend/src/api/channels/inbound.py:92-136 | From any state of the channel, interleaved deliveries end as exactly those that committed, each once, handled in the order of their commits; none of these repeats a known nonce, and of several with one nonce at most one commits. |

## Left out

- Time zones, daylight saving and the conversion to UTC: the calendar's arithmetic is on one local
  timeline; the calendar's remark on daylight saving is not stated.
- Floating point: hours and delays are whole microseconds, fractions are reals.
- The range of dates: a deadline or delay past the last representable date does not overflow.
- SlaEngine.SlaPolicy.Evaluate: an unparseable deadline or start string, on which the source raises, is not represented; the service writes none.
- SlaEngine.SlaPolicy.PauseNeverForward: states it for a nonnegative at-risk fraction; with a negative one, a stage whose start lies ahead can turn AT_RISK by a longer pause, and a fraction has no such value.
- The SLA view that marks finished stages as met.
- Timers.ScanAcceptTimeouts: the rows it locks are what its query may answer on the table (status, deadline, limit, order, locks); the rollback after an error is part of it here, not of its caller.
- Outbox.OutboxRepository.ClaimBatch: the rows of the claim query are a parameter that must satisfy the query (kind, status, time, limit, order, locks); rows available at the same instant come in any order.
- Outbox.OutboxRepository.Enqueue: the database's default for the availability time is the time given; payloads are left out.
- Outbox.ClaimedAgainExactly: a mark writes every column it sets; the mapper leaves out one that already has that value in the worker's copy, as when a retry time falls on the end of the visibility window.
- The drains of the other message kinds are the same loop around another delivery; the loop is modelled once, for webhooks, and the handling of one message for dispatch and for fallback.
- Dispatching.ExecuteDispatch: the active channels of a partner, in priority order, are given by a function, and an unexpected exception of a channel is not modelled; a channel that is not supported is a failed delivery.
- Pipeline.CrashesConverge: like InterleavedConverge, assumes that a channel answers alike each time, and that classifier, registry and order service do; nobody else acts on the request meanwhile.
- Intake.IntakeIsIdempotent: an integrity error has no other cause than the key; intake without a key is left out, as no row can then collide.
- Runs.ChainConserved: a redispatch that a scan rolls back because another of its rows raised is not counted.
- Inbound.InboundService.HandleApi: one channel; signature, timestamp, token and the parsing of the body come before the model, and an id that is no UUID is one that no request has.
- Services.AdvancePartnerStatus: lower case is that of the ASCII letters; no other letter's lower case occurs in a known status.
- Row locks and transactions: an operation on one row is one step; the model shows where it commits, and what a worker commits after an error.
- Access rules: who sees a row is a parameter of the list; who may act is not modelled.
- The accept, dispute, settle, cancel and operator endpoints are the step `Move` of the runs, which may take any allowed edge; their further effects, rescheduling, messages and estimates of the portal are left out.
- The audit rows other than status changes, the match trace, the classification record and the order id, which no modelled branch reads.
- Webhook, notification and concierge messages that a transition enqueues, metrics and logs.
- The rules of the classifier and the masking of personal data: a classifier is an arbitrary verdict.
- Clients.CircuitBreaker.constructor: a threshold or a number of attempts below one, which the source refuses with an error before any breaker or policy exists, is a precondition.
- Clients.Request: the cache of `get_json`, and the network itself, are left out; the outcome of each attempt is given.
- The cursor's encoding: a cursor is the key it encodes.
