# Verified model of the human-review console

This project models the case, workflow and human-review service and proves what it keeps. The
service has two engines. The case engine moves cases along legal edges of a consumer's workflow,
computes business-day and calendar deadlines, and escalates breaches and stalls. The review console
takes items in, applies four-eyes, segregation-of-duties and N-eyes rules to dispositions, and
records every attempt on an append-only trail that both engines share. An escalated case becomes a
review in the same console.

The model is built in layers, one module per component:

- `Kernel`, `CaseModels`, `ReviewModels`: values, taxonomies and audit events.
- `Clock`, `ClockLaws`: the two counting loops, `DeadlineFor`, and the laws of the arithmetic. A
  datetime is a day number and a time of day in one zone; day 1 is a Monday.
- `StateMachine`, `Assessment`: legal transitions with history, and the assessment loop.
- `MakerChecker`: routing and the eligibility and disposition engine.
- `ReviewStore`, `CasePorts`, `AuditLog`: the stores, timers, lifecycle events and audit sink as
  objects, with the table and its partial unique index as a map.
- `Console`, `ReviewRouting`, `Workflow`: the orchestrators. Ghost functions say what an operation
  does to the whole state; the classes do it step by step and are proved against them.
- `Effects`: what each operation answers and changes, in the fields of its inputs and of the state.
- `Platform`: the composed service as a state machine, `Step` and `Run` over commands. Each command
  carries the routing policy then in force, so a run may cross restarts with changed policies.
- `ConsoleRuns`, `ApprovalRuns`, `CaseRuns`, `CaseTrail`, `TrailRecords`, `Escalation`,
  `TenantIsolation`: theorems over all runs.
- `Interleaving`, `StaleWrites`, `Linearization`, `TrailOrder`, `PromptRecording`: dispositions split
  into load, decide, write and record, intake into write and record, with any number in flight; what
  stays safe, what is lost, and the exact checks that would keep it.
- `CaseInterleaving`, `CaseLinearization`: the same for transitions, split into load, store, cancel
  and record.

Run theorems start from the empty system or from any state satisfying the stated invariant. Ids of
new reviews and cases are fresh (`FreshIds`; the API draws uuids), and definitions are registered
under their own case type with distinct clock names (`WellRegistered`; the code does not check).
`TenantIsolation` and `OneSignOffPerDisposition` need neither.

## Where the code and its documentation differ

- The design document (its section on the clocks) calls the remaining days negative when a clock is
  overdue. The code shows zero until a day of the clock's own kind has passed. `ClockLaws.RemainingSign` gives the exact
  condition and `ClockLaws.OverdueShowsZero` an instance.
- The architecture document (its case lifecycle) and the module comment of the case orchestrator
  speak of a timer per clock. Timers are scheduled only when a case is opened, so exactly the clocks that start in the
  initial state get one. `CaseRuns.TimersAgreeWithRecomputation` states that equivalence and
  `CaseRuns.LaterClockHasNoTimer` a run in which a clock falls due without a timer.
- The comments on the two audit records (domain/kernel.py:82-88, domain/cases/kernel.py:51-52) and
  the design document (its section on the audit) call every record already redacted, without raw
  identifiers; that section itself lists citations among what a record carries. Only the summary and
  the reason are redacted. Citations are recorded as they came, for reviews
  (`TrailRecords.CitationRecordedRaw`) and for cases (`TrailRecords.CaseCitationRecordedRaw`);
  `TrailRecords.CitationsReachTheTrailIff` and `TrailRecords.CaseCitationsReachTheTrailIff` say when
  the records carry unredacted citation text. A refused move also records the requested state name
  as given.

## Limits of what the code guarantees

The exact limits of properties a reader might expect.

- An escalation decision persists over time only for some trigger sets
  (`Assessment.ReviewPersistsIff`).
- An approved item can show fewer approvals than it demands when a floor is raised after its
  approval. `Console.ApprovedShowsItsCountIff` says when, `ApprovalRuns.ApprovedShowsTooFew` is a run.
- The definition's edges are not validated, so a move can be accepted that is not offered
  (`StateMachine.AcceptedButNotOffered`); `StateMachine.OffersCompleteIff` says when that is possible.
- Of overlapping dispositions the last writer wins (`StaleWrites.LastWriterWins`): a stale rejection
  overturns an approval, and one of two votes is lost. `StaleWrites.StepKeepsResolvedIff` is the exact
  check that would keep resolved items, but votes are lost under it all the same. A write and its
  record have the effect of the serial disposition exactly when the row is still the one loaded
  (`Linearization.WriteIsSerialIff`). Executions that check this on every write have the table of the
  serial run, and the same allowed sign-offs in the order in which they happened to be recorded
  (`Linearization.CurrentRunsAreSerial`).
- Even then the trail need not fold to what is stored: two checked votes can be recorded the second
  before the first (`PromptRecording.RecordedOutOfOrder`). It does exactly when the allowed sign-offs
  are recorded in the order of the writes (`TrailOrder.TrailDeterminesStoreIff`).
- Of overlapping transitions the last mover wins (`CaseInterleaving.LastMoverWins`), the trail accepts
  both, and a case can be live again without its timers (`CaseInterleaving.StaleMoveStrandsTimers`).
  `CaseInterleaving.StoreIsSerialIff` is the exact check that is missing.

## Model

| member | source | states |
|---|---|---|
| Clock.AddBusinessDays | src/review_console/domain/cases/clock.py:25-39 | refuses a negative count; otherwise lands on the due day, keeping the time of day, for every holiday set |
| Clock.DueDay | src/review_console/domain/cases/clock.py:25-39 | the due day has exactly n business days counted up to it and is itself one for n >= 1, from any weekday or holiday |
| Clock.DueDayUnique | src/review_console/domain/cases/clock.py:25-39 | no other day answers to that description |
| Clock.BusinessDaysBetween | src/review_console/domain/cases/clock.py:42-58 | the signed number of business days between two instants |
| Clock.DeadlineFor | src/review_console/domain/cases/clock.py:69-108 | due instant, remaining days, strict breach and warning of a clock, dormant without an anchor |
| ClockLaws.Adjunction | src/review_console/domain/cases/clock.py:25-58 | a deadline has arrived by a date exactly when at least n business days are counted up to it |
| ClockLaws.BetweenAntisymmetric | src/review_console/domain/cases/clock.py:42-58 | swapping the instants flips the sign |
| ClockLaws.BetweenCocycle | src/review_console/domain/cases/clock.py:42-58 | signed counts add up over three instants in any order |
| ClockLaws.RemainingIsDurationMinusElapsed | src/review_console/domain/cases/clock.py:90-98 | remaining days are the duration less the days elapsed since the anchor, of either kind, before, inside and after the window |
| ClockLaws.DueDayWithinBound | src/review_console/domain/cases/clock.py:33-38 | the loop takes at most 7 * ceil((n + holidays) / 5) rounds |
| ClockLaws.DistanceWithoutHolidays | src/review_console/domain/cases/clock.py:33-38 | without holidays the calendar distance is n + 2 * floor((n - 1) / 5), or at most two more |
| ClockLaws.HolidaysOnlyDelay | src/review_console/domain/cases/clock.py:20-62 | more holidays never bring a due date forward or add a breach; business deadlines are never before calendar ones |
| ClockLaws.DeadlinesCompose | src/review_console/domain/cases/clock.py:25-62 | a deadline after a deadline is the deadline of the summed length, time of day included |
| ClockLaws.RemainingSign | src/review_console/domain/cases/clock.py:42-47 | the sign never contradicts the breach flag, and is negative exactly when a day of the clock's kind has passed since the due date |
| ClockLaws.OverdueShowsZero | src/review_console/domain/cases/clock.py:90-97 | a clock of one business day that is overdue and shows zero days |
| ClockLaws.ApproachingIff | src/review_console/domain/cases/clock.py:97-99 | the warning starts exactly when the elapsed days plus one exceed warn_ratio of the duration, until the breach |
| ClockLaws.StatusMonotone | src/review_console/domain/cases/clock.py:90-99 | later looks never show more days, un-breach a clock or lose a warning except to a breach |
| ClockLaws.BetweenIsWorkDays | src/review_console/domain/cases/clock.py:20-58 | the signed count is the number of Mondays to Fridays outside the holidays after the earlier date, up to and including the later |
| ClockLaws.DueDayIsWorkDay | src/review_console/domain/cases/clock.py:20-39 | for n >= 1 the due day is the one Monday to Friday outside the holidays with exactly n of them up to it |
| ClockLaws.HolidayOnDueDayDelays | src/review_console/domain/cases/clock.py:20-39 | a due day is no holiday, and declaring it one moves the deadline |
| ClockLaws.DueDayFromWeekday | src/review_console/domain/cases/clock.py:33-38 | without holidays a deadline from a weekday skips exactly two days per weekend, in closed form |
| ClockLaws.DueDayFromWeekend | src/review_console/domain/cases/clock.py:33-38 | and from a weekend it is the deadline from the Friday before |
| ClockLaws.DueAtIs | src/review_console/domain/cases/clock.py:25-62 | deadlines keep the time of day, and calendar ones add their days |
| ClockLaws.BreachedIff | src/review_console/domain/cases/clock.py:90-108 | a started clock is breached exactly from a later day or a later time of the due day, and names itself and its due instant |
| CaseModels.FirstArrivalIsEarliest | src/review_console/domain/cases/models.py:91-98 | the first entry is the earliest history entry that arrives in the state |
| CaseModels.FirstArrivalStable | src/review_console/domain/cases/models.py:91-98 | a longer history keeps every arrival it already had |
| StateMachine.OfferedIffAccepted | src/review_console/domain/cases/state_machine.py:25-51 | a next state is offered exactly when the machine accepts it and the definition lists it, for every definition |
| StateMachine.AcceptedIff | src/review_console/domain/cases/state_machine.py:30-51 | a move is accepted exactly along an edge of the definition, and then adds one numbered entry and changes nothing else |
| StateMachine.OffersCompleteIff | src/review_console/domain/cases/state_machine.py:25-51 | the offers cover every accepted move exactly when the edges out of the current state stay among the listed states |
| StateMachine.AcceptedButNotOffered | src/review_console/domain/cases/state_machine.py:25-51 | a definition and a move that is accepted and not offered |
| StateMachine.ReplayRebuilds | src/review_console/domain/cases/state_machine.py:30-51 | a history is well formed exactly when replaying it from the opening rebuilds the case |
| StateMachine.TransitKeepsWellFormed | src/review_console/domain/cases/state_machine.py:30-51 | a transition keeps the history numbered, chained and legal |
| Assessment.Assess | src/review_console/domain/cases/assessment.py:24-62 | the loop computes every clock's status and the findings and decision they imply |
| Assessment.ReportedIffHolds | src/review_console/domain/cases/assessment.py:32-53 | a finding is reported exactly when it holds, once and most urgent first, and review is required exactly when a reported finding escalates |
| Assessment.FindingsPersist | src/review_console/domain/cases/assessment.py:35-50 | for a fixed case breaches and stalls persist, warnings persist or become breaches |
| Assessment.MoveRestartsDwell | src/review_console/domain/cases/assessment.py:44-50 | every move restarts the dwell time: the moved case is stuck exactly when the allowance has run out since the move |
| Assessment.UnstartedClockIsSilent | src/review_console/domain/cases/assessment.py:35-42 | a clock whose start state was never entered has no due date and neither breach nor warning |
| Assessment.StartedClockIsAnchored | src/review_console/domain/cases/assessment.py:35-37 | any other clock is anchored at the opening or at the first entry into its start state |
| Assessment.OnlyStartedClocksReport | src/review_console/domain/cases/assessment.py:35-42 | a breach or a warning is that of a clock that has started |
| Assessment.NewCaseStuckIff | src/review_console/domain/cases/assessment.py:44-50 | a case that was never moved is stuck exactly when its allowance has run out since its opening |
| Assessment.AssessmentIsOfTheCase | src/review_console/domain/cases/assessment.py:55-62 | the assessment names the case, its state and severity, and gives one status per clock in order |
| Assessment.ReportedFromStatuses | src/review_console/domain/cases/assessment.py:38-53 | breach and warning are reported exactly when some status has them, and review is needed exactly when a reported finding escalates |
| Assessment.ReviewPersistsIff | src/review_console/domain/cases/assessment.py:52-53 | the review decision persists in time exactly when the triggers that include the warning include the breach |
| MakerChecker.RoutingPolicy.RequiredApprovals | src/review_console/domain/maker_checker_service.py:38-41 | the least number satisfying one, the request and the severity floor |
| MakerChecker.RequiredApprovalsIs | src/review_console/domain/maker_checker_service.py:38-41 | on the configured map: the largest of one, the request and, for a configured severity, its floor |
| MakerChecker.CheckEligibility | src/review_console/domain/maker_checker_service.py:110-142 | collects every barring finding in declared order |
| MakerChecker.NoFindingsIffEligible | src/review_console/domain/maker_checker_service.py:110-142 | a finding is listed exactly when it bars the checker, and none exactly when the checker is eligible |
| MakerChecker.FindingsAre | src/review_console/domain/maker_checker_service.py:110-142 | every reason in the fields it reads, in order |
| MakerChecker.AllowedIff | src/review_console/domain/maker_checker_service.py:149-171 | a disposition of a pending item is applied exactly when the checker is of the tenant, is not the maker, holds the approver group, has not approved yet and shares no segregated duty group |
| MakerChecker.FindingsInDeclaredOrder | src/review_console/domain/maker_checker_service.py:123-142 | each reason is listed at most once and in declared order |
| MakerChecker.DisposeVerdict | src/review_console/domain/maker_checker_service.py:149-184 | raises exactly on terminal items, applies exactly for eligible checkers, changes nothing on denial, and finalises an approval exactly when it completes the count |
| MakerChecker.DisposeKeepsSound | src/review_console/domain/maker_checker_service.py:149-184 | distinct approvers, never the maker, exactly the required number when approved and fewer before |
| ReviewStore.LookupAgreesWithScan | src/review_console/adapters/local/review_store.py:146-154 | key lookup finds a row exactly when a scan does, and it is the only one |
| ReviewStore.PutKeepsInv | src/review_console/adapters/local/review_store.py:81-103 | an upsert keeps rows under their keys and the partial index unique |
| ReviewStore.PutIfAbsentKeepsInv | src/review_console/adapters/local/review_store.py:105-136 | so does the conditional insert |
| ReviewStore.ListingIsTheOrderedRows | src/review_console/adapters/local/review_store.py:159-166 | the listing is the one strictly ordered enumeration of exactly the tenant's rows |
| ReviewStore.ListingIsOldestFirst | src/review_console/adapters/local/review_store.py:159-166 | every listing is oldest first by day and time, then by id character by character |
| ReviewStore.LocalReviewStore.PutItem | src/review_console/adapters/local/review_store.py:81-103 | replaces or inserts one row, or refuses a taken source key and changes nothing |
| ReviewStore.LocalReviewStore.LookUp | src/review_console/adapters/local/review_store.py:146-154 | the row holding a non-empty key, if any |
| ReviewStore.LocalReviewStore.PutIfAbsentBySourceKey | src/review_console/adapters/local/review_store.py:105-136 | inserts a keyed item once and otherwise returns the stored one |
| Console.ProjectionLaws | src/review_console/domain/console_service.py:167-175 | projecting the floor is idempotent, only raises the requirement, changes nothing else and keeps pending items sound |
| Console.QueueShowsThePending | src/review_console/domain/console_service.py:192-194 | the queue is exactly the tenant's pending rows, oldest first, each short of the approvals it demands |
| Console.QueueIsOldestFirst | src/review_console/domain/console_service.py:192-194 | so is the pending queue |
| Console.ReadAgreesWithListing | src/review_console/domain/console_service.py:196-203 | an item can be read exactly when the listing shows it, as shown |
| Console.ApprovedShowsItsCountIff | src/review_console/domain/console_service.py:196-203 | a shown approved item has as many approvals as it demands exactly when the floor has not risen past it |
| Console.ConsoleService.SubmitItem | src/review_console/domain/console_service.py:62-95 | stores the projected item and records one submission, or changes nothing |
| Console.ConsoleService.SubmitOnce | src/review_console/domain/console_service.py:97-132 | stores and records a keyed item once; a retry returns the stored item projected |
| Console.ConsoleService.DisposeItem | src/review_console/domain/console_service.py:205-252 | loads in the checker's tenant, decides, stores an allowed outcome, records every verdict |
| ReviewRouting.InProcessReviewRouter.Route | src/review_console/adapters/review_router.py:31-48 | an escalation is one submission to the shared console |
| CasePorts.PutCaseKeepsInv | src/review_console/adapters/local/case_store.py:23-25 | storing a case keeps it under its key and each key once in the order |
| CasePorts.CaseListingAgreesWithLookup | src/review_console/adapters/local/case_store.py:27-33 | a tenant's listing holds exactly the cases a lookup in that tenant finds |
| CasePorts.ListingGrows | src/review_console/adapters/local/case_store.py:23-33 | a tenant's listing is in the order of first storing: a new case goes last, a stored one is replaced in place, other tenants' do not show |
| Workflow.CaseWorkflowService.ScheduleClocks | src/review_console/domain/cases/workflow_service.py:204-215 | the loop schedules every started clock at its due instant |
| Workflow.CaseWorkflowService.CancelClocks | src/review_console/domain/cases/workflow_service.py:217-221 | the loop cancels every clock's timer |
| Workflow.CaseWorkflowService.Open | src/review_console/domain/cases/workflow_service.py:72-109 | the whole effect of opening on store, timers, events and trail |
| Workflow.CaseWorkflowService.TransitionTo | src/review_console/domain/cases/workflow_service.py:111-156 | the whole effect of a move, of a refused move, and of a missing case |
| Workflow.CaseWorkflowService.Evaluate | src/review_console/domain/cases/workflow_service.py:158-188 | the whole effect of an evaluation, escalation into the console included |
| Platform.StepKeepsConsistent | src/review_console/domain/console_service.py:62-252 | every operation of either engine keeps both stores consistent |
| Effects.SubmitIs | src/review_console/domain/console_service.py:62-95 | a submission is refused exactly when another review of the tenant holds its key; otherwise every stored and recorded field is given |
| Effects.SubmitOnceIs | src/review_console/domain/console_service.py:97-132 | the same for keyed intake: the holder for a held key, a refusal for a taken id, else a new review |
| Effects.DisposeIs | src/review_console/domain/console_service.py:205-284 | a disposition raises exactly on an unknown or resolved review, is applied exactly when the checker may act, and leaves exactly the given item and record |
| Effects.ReadsAre | src/review_console/domain/console_service.py:199-203 | reading shows the stored item under the requirement now in force, or that there is none |
| Effects.FindIs | src/review_console/domain/console_service.py:188-190 | a query by key answers with the tenant's review that holds it, as stored, or that none does |
| Effects.QueueIs | src/review_console/domain/console_service.py:192-194 | the queue holds exactly the tenant's pending reviews as shown now, oldest first |
| Effects.ListingIs | src/review_console/domain/console_service.py:196-197 | the listing holds exactly the tenant's reviews as shown now, oldest first |
| Effects.OpenIs | src/review_console/domain/cases/workflow_service.py:72-109 | an opening is refused exactly for an unknown workflow; otherwise the case, its place, its event and its record are given in full |
| Effects.MoveIs | src/review_console/domain/cases/workflow_service.py:111-156 | a move raises exactly on an unknown case, an unknown workflow or a missing edge; case, event and record are given in full for both outcomes |
| Effects.EvaluateIs | src/review_console/domain/cases/workflow_service.py:158-188 | an evaluation raises exactly on an unknown case or workflow; its answer, its record with the findings, its event and the review it files are given in full |
| Effects.CaseLookupIs | src/review_console/domain/cases/workflow_service.py:190-194 | a lookup answers with the tenant's case of that id or that there is none |
| Effects.AttributeTextIs | src/review_console/domain/cases/workflow_service.py:246 | attributes are told as key=value, in order, with a space between |
| Effects.NamesAre | src/review_console/adapters/review_router.py:32 | findings are named in order, with a comma between |
| ConsoleRuns.TrailDeterminesStore | src/review_console/domain/console_service.py:205-284 | after any run, folding a review's allowed sign-offs over its submission gives its stored state and its approvers in order |
| ConsoleRuns.StoredReviewsAreSound | src/review_console/domain/console_service.py:205-252 | four-eyes holds of every stored item in every run, under changing policies |
| ConsoleRuns.ReviewsOnlyAdvance | src/review_console/domain/console_service.py:224-252 | in serial runs no review is lost, approvals only grow, resolved items never change and the trail is append-only |
| ConsoleRuns.VerdictIsRecorded | src/review_console/domain/console_service.py:224-284 | the one record a disposition leaves names maker and checker, is allowed exactly when the checker was eligible, lists exactly the barring reasons and shows the state now stored |
| ConsoleRuns.OneSignOffPerDisposition | src/review_console/domain/console_service.py:224-284 | the trail of a review gains exactly one record per disposition that returned, in order, with its checker, disposition and redacted reason, and none for one that raised |
| ConsoleRuns.RequirementIsTheMaximum | src/review_console/domain/console_service.py:167-175 | the stored requirement is the maximum of its start and the floors at applied dispositions, met exactly on approval and not before |
| ConsoleRuns.NewRowIsIntake | src/review_console/domain/console_service.py:134-175 | a review is only ever stored because a user, a service or an escalation asked, and starts pending at the larger of its request and the floor |
| ConsoleRuns.RequirementSinceIntake | src/review_console/domain/console_service.py:134-175 | the same from the intake of any of the three kinds, starting at the maximum of one, the request and the floor then |
| ConsoleRuns.RetryReturnsTheOriginal | src/review_console/domain/console_service.py:97-132 | a retry after any run returns the original review in its current state and changes nothing |
| ConsoleRuns.KeyedIntakeHappensOnce | src/review_console/adapters/local/review_store.py:105-154 | in every run a source key names at most one review, submitted once, and a query by key answers with it or finds that there is none |
| ApprovalRuns.ApprovalsAreTheGrantedVotes | src/review_console/domain/maker_checker_service.py:149-184 | between any two points of a run a review gains exactly the votes of the approving dispositions applied to it, in order |
| ApprovalRuns.GrantedWereEntitled | src/review_console/domain/maker_checker_service.py:110-142 | each of those was cast by someone entitled to approve that request under the policy then in force |
| ApprovalRuns.EveryApprovalWasGranted | src/review_console/domain/console_service.py:205-252 | from the empty system, under changing policies, a review's approvals are exactly such votes, by distinct people, and as many as required once approved |
| ApprovalRuns.ApprovedShowsTooFew | src/review_console/domain/console_service.py:167-175 | a run in which an approved item shows one approval and demands two |
| CaseRuns.HistoriesReplay | src/review_console/domain/cases/state_machine.py:30-51 | in every run each history is legal from the opening and replays to the case |
| CaseRuns.RunKeepsCases | src/review_console/domain/cases/workflow_service.py:72-156 | in serial runs earlier histories are prefixes of later ones and nothing else of a case changes |
| CaseRuns.RefusalOnlyAudits | src/review_console/domain/cases/workflow_service.py:125-140 | a move is refused exactly when its edge is not legal, leaving only one rejection on the trail, which names the attempted edge |
| CaseRuns.OthersLeaveCasesAlone | src/review_console/domain/cases/workflow_service.py:158-188 | evaluation and the console never change a case or a timer |
| CaseRuns.DueDatesNeverMove | src/review_console/domain/cases/models.py:91-98 | through any run a started clock keeps its due instant |
| CaseRuns.OnceBreachedAlwaysBreached | src/review_console/domain/cases/assessment.py:35-53 | once an evaluation reports a breach every later one does, whatever happens between |
| CaseRuns.TimersAgreeWithRecomputation | src/review_console/domain/cases/workflow_service.py:204-221 | timers exist exactly for clocks starting at the opening of cases never yet terminal, at the recomputed due instant, after which evaluation reports the breach |
| CaseRuns.NoOrphanTimers | src/review_console/domain/cases/workflow_service.py:204-221 | every timer belongs to a clock, starting at the opening, of a stored case that was never yet terminal |
| CaseRuns.LaterClockHasNoTimer | src/review_console/domain/cases/workflow_service.py:86-97 | a run in which a later clock is breached and no timer exists |
| CaseTrail.TrailDeterminesHistory | src/review_console/domain/cases/workflow_service.py:142-155 | a case's accepted transitions on the trail are its history, move for move, each with its redacted reason |
| CaseTrail.LifecycleMirrorsTrail | src/review_console/domain/cases/workflow_service.py:223-231 | the lifecycle stream is the trail's openings, accepted transitions and escalations in order |
| TrailRecords.RecordsQuoteWhatIsStored | src/review_console/domain/console_service.py:254-284 | after any run every record is about a stored review or case: sign-offs give the redacted subject and summary, evaluations the redacted case type, and all of them the citations as they came |
| TrailRecords.CitationsReachTheTrailIff | src/review_console/domain/console_service.py:268-284 | after any run a review's records carry citation text that redaction would change exactly when its intake did |
| TrailRecords.CitationRecordedRaw | src/review_console/domain/console_service.py:268-284 | one submission leaves any citation text on the trail as it came |
| TrailRecords.CaseCitationsReachTheTrailIff | src/review_console/domain/cases/workflow_service.py:233-262 | after any run a case's records carry citation text that redaction would change exactly when its opening did |
| TrailRecords.CaseCitationRecordedRaw | src/review_console/domain/cases/workflow_service.py:233-262 | one opening leaves any citation text on the trail as it came |
| Escalation.EscalationsAreConserved | src/review_console/domain/cases/workflow_service.py:167-188 | the reviews naming a case are its escalations on the trail plus the reviews users filed against it |
| Escalation.EscalationFiles | src/review_console/adapters/review_router.py:31-48 | each escalation adds exactly one pending review, unkeyed, with redacted texts and the case's severity and citations, made by whoever last moved the case |
| Escalation.LastActorNeverApproves | src/review_console/domain/cases/workflow_service.py:180-187 | whoever last moved an escalated case is never among that review's approvers |
| Escalation.LastMoverOnTrailNeverApproves | src/review_console/domain/cases/workflow_service.py:180-187 | in every serial run, the actor of the last accepted move on the trail at escalation never approves the review it becomes |
| TenantIsolation.OwnStep | src/review_console/domain/console_service.py:188-252 | a tenant's step on its own part of the system gives the same answer and the same part |
| TenantIsolation.ForeignStep | src/review_console/domain/console_service.py:188-252 | another tenant's step leaves this tenant's part alone |
| TenantIsolation.TenantNonInterference | src/review_console/domain/console_service.py:188-252 | every answer and all stored, timed, published and audited state of a tenant is as if no other tenant existed |
| Interleaving.FourEyesSurvivesInterleaving | src/review_console/domain/maker_checker_service.py:110-184 | with any number of stale calls in flight an approved item has exactly the required distinct approvers, none the maker, each entitled when deciding |
| Interleaving.UninterruptedIsSerial | src/review_console/domain/console_service.py:224-252 | an uninterrupted call does to table and trail exactly what the serial disposition does |
| StaleWrites.WritesNeverFail | src/review_console/domain/console_service.py:240-241 | however calls overlap, the store never refuses a write |
| StaleWrites.LastWriterWins | src/review_console/domain/console_service.py:224-241 | of two overlapping allowed dispositions only the second to be written is left in the table |
| StaleWrites.StaleWriteOverturnsApproval | src/review_console/domain/console_service.py:224-241 | a run in which a stale rejection overturns an approval |
| StaleWrites.StepKeepsResolvedIff | src/review_console/domain/console_service.py:240-241 | a step keeps resolved items exactly when a write replaces a pending row or writes what is there |
| StaleWrites.GuardedRunsKeepResolved | src/review_console/domain/console_service.py:240-241 | with that check resolved items stay resolved under every interleaving |
| StaleWrites.OverlappingVotesLoseOne | src/review_console/domain/console_service.py:224-241 | of two overlapping votes short of the requirement the second replaces the first and passes that check |
| StaleWrites.GuardLosesAnApproval | src/review_console/domain/console_service.py:224-241 | a run in which it happens |
| Linearization.WriteIsSerialIff | src/review_console/domain/console_service.py:240-251 | a write and its record have the effect of the serial disposition at that moment exactly when the row is still the one loaded; the table alone also when the row already is what is written |
| Linearization.CurrentRunsAreSerial | src/review_console/domain/console_service.py:205-252 | an execution whose every write passes that check leaves the table of the same operations run one after the other in write order, and their allowed sign-offs, recorded or still to be |
| Linearization.CurrentRunsOnlyAdvance | src/review_console/domain/console_service.py:205-252 | in such executions no review is lost, approvals only grow and resolved items never change |
| TrailOrder.FoldFixesTheOrder | src/review_console/domain/console_service.py:254-284 | two trails with the same allowed sign-offs fold to the same review only if they are in the same order |
| TrailOrder.TrailDeterminesStoreIff | src/review_console/domain/console_service.py:240-251 | in such executions, once the changes to a review are recorded, its trail determines it exactly when they were recorded in write order and no denial of an earlier state came last |
| PromptRecording.PromptRunsKeepTheFold | src/review_console/domain/console_service.py:240-251 | if each call also records before the next writes to the same review, the trail folds to what is stored |
| PromptRecording.RecordedOutOfOrder | src/review_console/domain/console_service.py:240-251 | an execution of checked writes, fully recorded, whose trail does not give the stored review |
| CaseInterleaving.StoreIsSerialIff | src/review_console/domain/cases/workflow_service.py:123-155 | an accepted move and its record have the effect of the serial transition at that moment exactly when the stored case is still the one loaded |
| CaseInterleaving.UninterruptedIsSerial | src/review_console/domain/cases/workflow_service.py:111-156 | an uninterrupted transition does to cases, timers and trail what the serial one does, refusals included |
| CaseInterleaving.OpeningIsSerial | src/review_console/domain/cases/workflow_service.py:72-109 | so does an opening |
| CaseInterleaving.LastMoverWins | src/review_console/domain/cases/workflow_service.py:123-155 | of two overlapping accepted moves only the second is left in the history, and both are recorded as accepted |
| CaseInterleaving.StaleMoveStrandsTimers | src/review_console/domain/cases/workflow_service.py:142-145 | a stale move over a terminal entry leaves a live case without the timers it should have |
| CaseLinearization.CheckedRunsAreSerial | src/review_console/domain/cases/workflow_service.py:111-156 | executions that store only over the case they loaded have the cases of the serial run in store order, and its timers but for cancellations still to come |
| CaseLinearization.CheckedRunsKeepCases | src/review_console/domain/cases/workflow_service.py:142-145 | once no cancellation is outstanding their histories are legal and their timers are exactly what recomputation asks for |
| CaseLinearization.TrailDeterminesHistoryIff | src/review_console/domain/cases/workflow_service.py:147-155 | the trail of such executions gives a case's history exactly when its moves were recorded in store order |

## Left out

- The HTTP layer, schemas, CLI, user interface, identity verification and infrastructure: principals, ids and instants arrive as inputs.
- Profile, allowlist and routing-policy parsing (`RoutingPolicy.from_mapping` included): finite case splits.
- Cloud and on-premises adapters: the in-memory and SQLite adapters are the ones modelled.
- SQLite and locking: each store call is one atomic step on a map with the primary key and the partial unique index; constraint failures are an error result. When an insert would collide on both the id and the source key, the source key decides.
- Redaction and the hash chain: libraries that are not part of this model. Redaction is an arbitrary function; the trail is an append-only sequence without timestamps.
- Timezones with differing offsets, daylight saving and Python's date range: one zone, unbounded days.
- Listings are specification functions over the stores; the query loop inside the database is not written out.
- Amendments carried on a decision, which the engine ignores, and the order of free attributes, which arrive sorted.
- Overlapping openings, evaluations and listings: where calls overlap, only intake, dispositions and transitions are split into steps, and lifecycle events are left out.
- Clock.DeadlineFor: durations are natural numbers, because a definition with a negative duration is a configuration error the code only notices for business clocks.
- ClockLaws.ApproachingIff: the warning threshold is the ceiling of an exact real, because floating-point rounding of the product is not modelled. At a warn_ratio of 0.7 and 10 days the floating product is just above 3 and the code's threshold is 4, where the model's is 3.
