/** The join of the two engines: every escalation becomes exactly one review, and the person who
    last moved an escalated case never signs that review off. */
module Escalation {
  import opened Kernel
  import opened CaseModels
  import opened CasePorts
  import opened ReviewModels
  import opened MakerChecker
  import opened ReviewStore
  import opened Console
  import opened ReviewRouting
  import opened Workflow
  import opened Platform
  import opened ConsoleRuns
  import opened CaseTrail

  ghost function EscalationsOf(key: CaseKey): AuditEvent -> bool {
    (e: AuditEvent) => e.CaseAction? && (e.tenant, e.caseId) == key && e.caseDecision == CaseEscalated
  }

  ghost function EscalationCount(st: ConsoleState, key: CaseKey): nat { |Filter(EscalationsOf(key), st.audit)| }

  /** The stored reviews that refer to a case. */
  ghost function ReviewsFor(t: Table, key: CaseKey): set<ReviewKey> {
    set k | k in t && k.0 == key.0 && t[k].request.caseRef == key.1
  }

  /** The command is a submission, not an escalation, that stored a review naming the case. */
  ghost predicate NamedBySubmission(env: Env, s: System, cmd: Command, key: CaseKey) {
    match cmd.op
    case SubmitOp(request) => Intake(request, Step(env, s, cmd).0.console.reviews, key)
    case SubmitOnceOp(request) => Intake(request, Step(env, s, cmd).0.console.reviews, key)
    case _ => false
  }

  ghost predicate Intake(request: ReviewRequest, t: Table, key: CaseKey) {
    (request.tenant, request.caseRef) == key && (request.tenant, request.reviewId) in t
  }

  ghost function SubmissionsNaming(env: Env, s: System, cmds: seq<Command>, key: CaseKey): nat
    decreases |cmds|
  {
    if cmds == [] then 0
    else
      var rest := SubmissionsNaming(env, Step(env, s, cmds[0]).0, cmds[1..], key);
      if NamedBySubmission(env, s, cmds[0], key) then rest + 1 else rest
  }

  lemma RecordEscalations(st: ConsoleState, e: AuditEvent, t: Table, key: CaseKey)
    ensures EscalationCount(ConsoleState(t, st.audit + [e]), key)
      == EscalationCount(st, key) + if EscalationsOf(key)(e) then 1 else 0
  {
    FilterSnoc(EscalationsOf(key), st.audit, e);
  }

  lemma IntakeReviews(t: Table, item: ReviewItem, key: CaseKey)
    requires KeyOf(item) !in t
    ensures |ReviewsFor(t[KeyOf(item) := item], key)|
      == |ReviewsFor(t, key)| + if (item.request.tenant, item.request.caseRef) == key then 1 else 0
  {
    var before, after := ReviewsFor(t, key), ReviewsFor(t[KeyOf(item) := item], key);
    if (item.request.tenant, item.request.caseRef) == key {
      assert after == before + {KeyOf(item)};
    } else {
      assert after == before;
    }
  }

  lemma SubmitBalances(desk: Desk, st: ConsoleState, request: ReviewRequest, key: CaseKey)
    requires (request.tenant, request.reviewId) !in st.reviews
    ensures var st' := Submit(desk, st, request).0;
      && EscalationCount(st', key) == EscalationCount(st, key)
      && |ReviewsFor(st'.reviews, key)| == |ReviewsFor(st.reviews, key)|
           + if Intake(request, st'.reviews, key) then 1 else 0
  {
    var item := NewItem(desk.policy, request);
    IntakeReviews(st.reviews, item, key);
    RecordEscalations(st, SubmissionEvent(desk, item), Submit(desk, st, request).0.reviews, key);
  }

  lemma SubmitOnceBalances(desk: Desk, st: ConsoleState, request: ReviewRequest, key: CaseKey)
    requires (request.tenant, request.reviewId) !in st.reviews
    ensures var st' := SubmitIdempotent(desk, st, request).0;
      && EscalationCount(st', key) == EscalationCount(st, key)
      && |ReviewsFor(st'.reviews, key)| == |ReviewsFor(st.reviews, key)|
           + if Intake(request, st'.reviews, key) then 1 else 0
  {
    var item := NewItem(desk.policy, request);
    ProjectionLaws(desk.policy, item);
    IntakeReviews(st.reviews, item, key);
    RecordEscalations(st, SubmissionEvent(desk, item), SubmitIdempotent(desk, st, request).0.reviews, key);
  }

  lemma DisposeBalances(desk: Desk, st: ConsoleState, reviewId: string, d: ReviewDecision, key: CaseKey)
    requires TableInv(st.reviews)
    ensures var st' := DisposeReview(desk, st, reviewId, d).0;
      EscalationCount(st', key) == EscalationCount(st, key)
      && ReviewsFor(st'.reviews, key) == ReviewsFor(st.reviews, key)
  {
    var (st', r) := DisposeReview(desk, st, reviewId, d);
    var id := (d.checkerTenant, reviewId);
    DisposeShape(desk, st, reviewId, d);
    if r.Ok? {
      var item := WithEffectiveRouting(desk.policy, st.reviews[id]);
      ProjectionLaws(desk.policy, st.reviews[id]);
      DisposeVerdict(desk.policy, item, d, Some(d.decidedAt));
      RecordEscalations(st, DispositionEvent(desk, r.value, d), st'.reviews, key);
    }
  }

  lemma EvaluatedBalances(env: Env, desk: Desk, st: ConsoleState, c: Case, a: CaseAssessment, l: Look, key: CaseKey)
    requires env.hasRouter && (c.tenant, l.reviewId) !in st.reviews
    ensures var st' := Evaluated(env, desk, st, c, a, l);
      |ReviewsFor(st'.reviews, key)| - EscalationCount(st', key)
      == |ReviewsFor(st.reviews, key)| - EscalationCount(st, key)
  {
    RecordEscalations(st, EvaluationEvent(env.redact, c, a, l), st.reviews, key);
    if a.requiresHumanReview {
      SubmitBalances(desk, Recorded(st, EvaluationEvent(env.redact, c, a, l)), EscalationRequest(desk, c, a, l), key);
    }
  }

  lemma StepBalances(env: Env, s: System, cmd: Command, key: CaseKey)
    requires Consistent(s) && FreshIds(s, cmd.op) && env.hasRouter
    ensures var st' := Step(env, s, cmd).0.console;
      |ReviewsFor(st'.reviews, key)| - EscalationCount(st', key)
      == |ReviewsFor(s.console.reviews, key)| - EscalationCount(s.console, key)
        + if NamedBySubmission(env, s, cmd, key) then 1 else 0
  {
    var desk := Desk(cmd.policy, env.redact);
    if cmd.op.OpenOp? || cmd.op.MoveOp? {
      var e := CaseStepRecordsOnly(env, s, cmd);
      RecordEscalations(s.console, e, s.console.reviews, key);
    } else {
      match cmd.op {
        case SubmitOp(request) => SubmitBalances(desk, s.console, request, key);
        case SubmitOnceOp(request) => SubmitOnceBalances(desk, s.console, request, key);
        case DisposeOp(reviewId, decision) => DisposeBalances(desk, s.console, reviewId, decision, key);
        case EvaluateOp(l) =>
          var r := EvaluateCase(env, desk, s, l).1;
          if r.Ok? { EvaluatedBalances(env, desk, s.console, s.cases.rows[(l.tenant, l.caseId)], r.value, l, key); }
        case _ =>
      }
    }
  }

  lemma {:induction false} RunBalances(env: Env, s: System, cmds: seq<Command>, key: CaseKey)
    requires Consistent(s) && FreshRun(env, s, cmds) && env.hasRouter
    ensures var st' := Run(env, s, cmds).console;
      |ReviewsFor(st'.reviews, key)| - EscalationCount(st', key)
      == |ReviewsFor(s.console.reviews, key)| - EscalationCount(s.console, key) + SubmissionsNaming(env, s, cmds, key)
    decreases |cmds|
  {
    if cmds != [] {
      StepKeepsConsistent(env, s, cmds[0]);
      StepBalances(env, s, cmds[0], key);
      RunBalances(env, Step(env, s, cmds[0]).0, cmds[1..], key);
    }
  }

  /** Conservation across the engines: with a router bound, the reviews that refer to a case are
      its escalations on the audit trail plus the reviews users themselves filed against it. */
  lemma EscalationsAreConserved(env: Env, cmds: seq<Command>, key: CaseKey)
    requires FreshRun(env, EMPTY, cmds) && env.hasRouter
    ensures var st := Run(env, EMPTY, cmds).console;
      |ReviewsFor(st.reviews, key)| == EscalationCount(st, key) + SubmissionsNaming(env, EMPTY, cmds, key)
  {
    RunBalances(env, EMPTY, cmds, key);
  }

  /** A new pending review of a case: as severe as the case and with its citations, with redacted
      texts, unkeyed, made by whoever last moved the case or, before any move, by the engine. */
  ghost predicate FiledFor(
    redact: string -> string, policy: RoutingPolicy, c: Case, a: CaseAssessment, item: ReviewItem)
  {
    && item.state == Pending && item.approvals == []
    && item.request.tenant == c.tenant && item.request.caseRef == c.caseId
    && item.request.maker == (if c.history == [] then "case-engine@system" else c.history[|c.history| - 1].actor)
    && item.request.severity == c.severity && item.request.citations == c.citations
    && item.request.sourceKey == ""
    && item.request.requiredApprovals == policy.RequiredApprovals(c.severity, 1)
    && item.request.subject == redact(SubjectOf(c)) && item.request.summary == redact(SummaryOf(a))
  }

  lemma RoutedIsFiledFor(desk: Desk, c: Case, a: CaseAssessment, l: Look)
    ensures FiledFor(desk.redact, desk.policy, c, a, NewItem(desk.policy, EscalationRequest(desk, c, a, l)))
  {
    ProjectionLaws(desk.policy, ReviewItem(EscalationRequest(desk, c, a, l), Pending, [], ""));
  }

  /** An escalating evaluation files exactly one review of its case. */
  lemma EscalationFiles(env: Env, s: System, escalation: Command)
    requires Consistent(s) && env.hasRouter && FreshIds(s, escalation.op) && escalation.op.EvaluateOp?
    requires Step(env, s, escalation).1.assessment.Ok?
    requires Step(env, s, escalation).1.assessment.value.requiresHumanReview
    ensures var l := escalation.op.look;
      var filed := Step(env, s, escalation).0.console.reviews;
      var key := (l.tenant, l.reviewId);
      && key in filed && filed == s.console.reviews[key := filed[key]]
      && FiledFor(env.redact, escalation.policy, s.cases.rows[(l.tenant, l.caseId)],
                  Step(env, s, escalation).1.assessment.value, filed[key])
  {
    var l := escalation.op.look;
    var c := s.cases.rows[(l.tenant, l.caseId)];
    var desk := Desk(escalation.policy, env.redact);
    var a := Step(env, s, escalation).1.assessment.value;
    RoutedIsFiledFor(desk, c, a, l);
    assert Step(env, s, escalation).0.console.reviews
      == s.console.reviews[(l.tenant, l.reviewId) := NewItem(escalation.policy, EscalationRequest(desk, c, a, l))];
  }

  /** And after any further run the person who last moved the case is not among that review's
      approvers. */
  lemma LastActorNeverApproves(env: Env, s: System, escalation: Command, after: seq<Command>)
    requires ConsoleInv(s.console) && Consistent(s) && env.hasRouter && FreshRun(env, s, [escalation] + after)
    requires escalation.op.EvaluateOp?
    requires Step(env, s, escalation).1.assessment.Ok?
    requires Step(env, s, escalation).1.assessment.value.requiresHumanReview
    ensures var l := escalation.op.look;
      var c := s.cases.rows[(l.tenant, l.caseId)];
      var later := Run(env, s, [escalation] + after).console.reviews;
      var key := (l.tenant, l.reviewId);
      && key in later && later[key].request.caseRef == c.caseId
      && (c.history != [] ==> c.history[|c.history| - 1].actor !in later[key].Approvers())
  {
    var key := (escalation.op.look.tenant, escalation.op.look.reviewId);
    RunSplit(env, s, escalation, after);
    var s1 := Step(env, s, escalation).0;
    StepKeeps(env, s, escalation);
    RunKeeps(env, s1, after);
    EscalationFiles(env, s, escalation);
    MakerStaysOut(s1.console, Run(env, s1, after).console, key);
  }

  lemma MakerStaysOut(earlier: ConsoleState, later: ConsoleState, key: ReviewKey)
    requires Advances(earlier, later) && ConsoleInv(later) && key in earlier.reviews
    ensures key in later.reviews && later.reviews[key].request.caseRef == earlier.reviews[key].request.caseRef
    ensures earlier.reviews[key].request.maker !in later.reviews[key].Approvers()
  {
    assert RowAdvances(earlier.reviews[key], later.reviews[key]);
  }

  /** The actor of the case's last accepted move on the trail, if it was ever moved. */
  ghost function LastMover(audit: seq<AuditEvent>, key: CaseKey): Option<string> {
    var moves := Filter(MovesOf(key), audit);
    if moves == [] then None
    else
      assert moves[|moves| - 1] in moves;
      Some(moves[|moves| - 1].actor)
  }

  lemma LastMoverIsInHistory(redact: string -> string, s: System, c: Case)
    requires CaseKeyOf(c) in s.cases.rows && s.cases.rows[CaseKeyOf(c)] == c
    requires CaseTrailMatches(redact, s, CaseKeyOf(c))
    ensures LastMover(s.console.audit, CaseKeyOf(c))
      == if c.history == [] then None else Some(c.history[|c.history| - 1].actor)
  {
    var moves := Filter(MovesOf(CaseKeyOf(c)), s.console.audit);
    assert forall i :: 0 <= i < |moves| ==> SameMove(redact, c.attributes, moves[i], c.history[i]);
  }

  /** In every serial run, whoever the trail shows to have last moved a case when it escalates is
      never among the approvers of the review it becomes, however the run goes on. */
  lemma LastMoverOnTrailNeverApproves(env: Env, before: seq<Command>, escalation: Command, after: seq<Command>)
    requires FreshRun(env, EMPTY, before) && FreshRun(env, Run(env, EMPTY, before), [escalation] + after)
    requires env.hasRouter && escalation.op.EvaluateOp?
    requires Step(env, Run(env, EMPTY, before), escalation).1.assessment.Ok?
    requires Step(env, Run(env, EMPTY, before), escalation).1.assessment.value.requiresHumanReview
    ensures var s := Run(env, EMPTY, before);
      var l := escalation.op.look;
      var mover := LastMover(s.console.audit, (l.tenant, l.caseId));
      var later := Run(env, s, [escalation] + after).console.reviews;
      && (l.tenant, l.reviewId) in later
      && (mover.Some? ==> mover.value !in later[(l.tenant, l.reviewId)].Approvers())
  {
    var s := Run(env, EMPTY, before);
    var key := (escalation.op.look.tenant, escalation.op.look.caseId);
    RunKeeps(env, EMPTY, before);
    TrailDeterminesHistory(env, before, key);
    LastMoverIsInHistory(env.redact, s, s.cases.rows[key]);
    LastActorNeverApproves(env, s, escalation, after);
  }
}
