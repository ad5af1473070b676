/** The composed service as a state machine: the operations of both engines, one at a time,
    each under the routing policy then in force. */
module Platform {
  import opened Kernel
  import opened CaseModels
  import opened CasePorts
  import opened ReviewModels
  import opened MakerChecker
  import opened ReviewStore
  import opened Console
  import opened Workflow

  datatype Op =
    | SubmitOp(request: ReviewRequest)
    | SubmitOnceOp(request: ReviewRequest)
    | DisposeOp(reviewId: string, decision: ReviewDecision)
    | GetReviewOp(tenant: string, reviewId: string)
    | FindOp(tenant: string, sourceKey: string)
    | ListQueueOp(tenant: string)
    | ListAllOp(tenant: string)
    | OpenOp(opening: Opening)
    | MoveOp(move: Move)
    | EvaluateOp(look: Look)
    | GetCaseOp(tenant: string, caseId: string)
    | ListCasesOp(tenant: string)

  /** An operation and the routing policy the console is running with when it arrives; the
      policy may change from one command to the next, as across restarts. */
  datatype Command = Command(policy: RoutingPolicy, op: Op)

  datatype Response =
    | Reviewed(item: Result<ReviewItem, ConsoleError>)
    | Disposed(outcome: Result<DispositionOutcome, ConsoleError>)
    | Found(found: Option<ReviewItem>)
    | Listed(items: seq<ReviewItem>)
    | CaseReply(caseResult: Result<Case, WorkflowError>)
    | Assessed(assessment: Result<CaseAssessment, WorkflowError>)
    | CasesListed(cases: seq<Case>)

  /** The tenant an operation acts for. */
  function TenantOf(op: Op): string {
    match op
    case SubmitOp(request) => request.tenant
    case SubmitOnceOp(request) => request.tenant
    case DisposeOp(_, decision) => decision.checkerTenant
    case GetReviewOp(tenant, _) => tenant
    case FindOp(tenant, _) => tenant
    case ListQueueOp(tenant) => tenant
    case ListAllOp(tenant) => tenant
    case OpenOp(opening) => opening.tenant
    case MoveOp(move) => move.tenant
    case EvaluateOp(look) => look.tenant
    case GetCaseOp(tenant, _) => tenant
    case ListCasesOp(tenant) => tenant
  }

  ghost function Step(env: Env, s: System, cmd: Command): (System, Response) {
    var desk := Desk(cmd.policy, env.redact);
    match cmd.op
    case SubmitOp(request) =>
      var (st, r) := Submit(desk, s.console, request); (s.(console := st), Reviewed(r))
    case SubmitOnceOp(request) =>
      var (st, r) := SubmitIdempotent(desk, s.console, request); (s.(console := st), Reviewed(r))
    case DisposeOp(reviewId, decision) =>
      var (st, r) := DisposeReview(desk, s.console, reviewId, decision); (s.(console := st), Disposed(r))
    case GetReviewOp(tenant, reviewId) => (s, Reviewed(GetReview(desk, s.console, tenant, reviewId)))
    case FindOp(tenant, sourceKey) => (s, Found(FindBySourceKey(s.console.reviews, tenant, sourceKey)))
    case ListQueueOp(tenant) => (s, Listed(ListQueue(desk, s.console, tenant)))
    case ListAllOp(tenant) => (s, Listed(ListEverything(desk, s.console, tenant)))
    case OpenOp(opening) =>
      var (s', r) := OpenCase(env, s, opening); (s', CaseReply(r))
    case MoveOp(move) =>
      var (s', r) := TransitionCase(env, s, move); (s', CaseReply(r))
    case EvaluateOp(look) =>
      var (s', r) := EvaluateCase(env, desk, s, look); (s', Assessed(r))
    case GetCaseOp(tenant, caseId) =>
      (s, CaseReply(match GetCase(s.cases, tenant, caseId)
                    case Some(c) => Ok(c)
                    case None => Err(CaseNotFound(caseId))))
    case ListCasesOp(tenant) => (s, CasesListed(ListByTenant(s.cases, tenant)))
  }

  const EMPTY: System := System(ConsoleState(map[], []), CaseTable([], map[]), map[], [])

  ghost function Run(env: Env, s: System, cmds: seq<Command>): System
    decreases |cmds|
  {
    if cmds == [] then s else Run(env, Step(env, s, cmds[0]).0, cmds[1..])
  }

  /** Ids for new reviews and cases are minted fresh (the API draws them as uuids). */
  ghost predicate FreshIds(s: System, op: Op) {
    match op
    case SubmitOp(request) => (request.tenant, request.reviewId) !in s.console.reviews
    case SubmitOnceOp(request) => (request.tenant, request.reviewId) !in s.console.reviews
    case EvaluateOp(look) => (look.tenant, look.reviewId) !in s.console.reviews
    case OpenOp(opening) => (opening.tenant, opening.caseId) !in s.cases.rows
    case _ => true
  }

  ghost predicate FreshRun(env: Env, s: System, cmds: seq<Command>)
    decreases |cmds|
  {
    cmds == [] || (FreshIds(s, cmds[0].op) && FreshRun(env, Step(env, s, cmds[0]).0, cmds[1..]))
  }

  lemma RunSplit(env: Env, s: System, first: Command, after: seq<Command>)
    ensures Run(env, s, [first] + after) == Run(env, Step(env, s, first).0, after)
    ensures FreshRun(env, s, [first] + after) <==>
      FreshIds(s, first.op) && FreshRun(env, Step(env, s, first).0, after)
  {
    assert ([first] + after)[1..] == after;
  }

  lemma OneCommand(env: Env, s: System, steps: seq<Command>)
    requires |steps| == 1
    ensures Run(env, s, steps) == Step(env, s, steps[0]).0
    ensures FreshRun(env, s, steps) <==> FreshIds(s, steps[0].op)
  {
    assert steps == [steps[0]] + [];
    RunSplit(env, s, steps[0], []);
  }

  lemma {:induction false} RunAppends(env: Env, s: System, a: seq<Command>, b: seq<Command>)
    ensures Run(env, s, a + b) == Run(env, Run(env, s, a), b)
    ensures FreshRun(env, s, a + b) <==> FreshRun(env, s, a) && FreshRun(env, Run(env, s, a), b)
    decreases |a|
  {
    if a == [] {
      assert a + b == b;
    } else {
      assert (a + b)[1..] == a[1..] + b;
      RunAppends(env, Step(env, s, a[0]).0, a[1..], b);
    }
  }

  /** Rows are filed under their own keys and the indexes are consistent. */
  ghost predicate Consistent(s: System) {
    TableInv(s.console.reviews) && CaseTableInv(s.cases)
  }

  lemma SubmitKeepsTableInv(desk: Desk, st: ConsoleState, request: ReviewRequest)
    requires TableInv(st.reviews)
    ensures TableInv(Submit(desk, st, request).0.reviews)
    ensures TableInv(SubmitIdempotent(desk, st, request).0.reviews)
  {
    PutKeepsInv(st.reviews, NewItem(desk.policy, request));
    PutIfAbsentKeepsInv(st.reviews, NewItem(desk.policy, request));
  }

  lemma DisposeKeepsTableInv(desk: Desk, st: ConsoleState, reviewId: string, d: ReviewDecision)
    requires TableInv(st.reviews)
    ensures TableInv(DisposeReview(desk, st, reviewId, d).0.reviews)
  {
    if Get(st.reviews, d.checkerTenant, reviewId).Some? {
      var item := WithEffectiveRouting(desk.policy, st.reviews[(d.checkerTenant, reviewId)]);
      if !item.IsTerminal() {
        PutKeepsInv(st.reviews, Dispose(desk.policy, item, d, Some(d.decidedAt)).value.item);
      }
    }
  }

  lemma EvaluatedKeepsTableInv(env: Env, desk: Desk, st: ConsoleState, c: Case, a: CaseAssessment, l: Look)
    requires TableInv(st.reviews)
    ensures TableInv(Evaluated(env, desk, st, c, a, l).reviews)
  {
    SubmitKeepsTableInv(desk, Recorded(st, EvaluationEvent(env.redact, c, a, l)), EscalationRequest(desk, c, a, l));
  }

  lemma OpenKeepsConsistent(env: Env, s: System, o: Opening)
    requires Consistent(s)
    ensures Consistent(OpenCase(env, s, o).0)
  {
    if o.caseType in env.definitions { PutCaseKeepsInv(s.cases, OpeningOf(env, o)); }
  }

  lemma MoveKeepsConsistent(env: Env, s: System, m: Move)
    requires Consistent(s)
    ensures Consistent(TransitionCase(env, s, m).0)
  {
    var r := TransitionCase(env, s, m).1;
    if r.Ok? { PutCaseKeepsInv(s.cases, r.value); }
  }

  lemma EvaluateKeepsConsistent(env: Env, desk: Desk, s: System, l: Look)
    requires Consistent(s)
    ensures Consistent(EvaluateCase(env, desk, s, l).0)
  {
    var r := EvaluateCase(env, desk, s, l).1;
    if r.Ok? { EvaluatedKeepsTableInv(env, desk, s.console, s.cases.rows[(l.tenant, l.caseId)], r.value, l); }
  }

  /** Every operation, fresh ids or not, keeps the stores consistent. */
  lemma StepKeepsConsistent(env: Env, s: System, cmd: Command)
    requires Consistent(s)
    ensures Consistent(Step(env, s, cmd).0)
  {
    var desk := Desk(cmd.policy, env.redact);
    if cmd.op.OpenOp? {
      OpenKeepsConsistent(env, s, cmd.op.opening);
    } else if cmd.op.MoveOp? {
      MoveKeepsConsistent(env, s, cmd.op.move);
    } else if cmd.op.EvaluateOp? {
      EvaluateKeepsConsistent(env, desk, s, cmd.op.look);
    } else {
      match cmd.op {
        case SubmitOp(request) => SubmitKeepsTableInv(desk, s.console, request);
        case SubmitOnceOp(request) => SubmitKeepsTableInv(desk, s.console, request);
        case DisposeOp(reviewId, decision) => DisposeKeepsTableInv(desk, s.console, reviewId, decision);
        case _ =>
      }
    }
  }
}
