/** The case orchestrator: open, transition and evaluate cases over the case store, the timers,
    the lifecycle events, the audit trail and the review router
    (domain/cases/workflow_service.py). The functions say what each operation does to the whole
    system; the class does it step by step. */
module Workflow {
  import opened Kernel
  import opened CaseModels
  import opened Clock
  import opened StateMachine
  import opened Assessment
  import opened CasePorts
  import opened ReviewModels
  import opened AuditLog
  import opened Console
  import opened ReviewRouting
  import opened MakerChecker

  /** What the case engine is constructed with, and which optional ports are bound. */
  datatype Env = Env(
    definitions: map<string, WorkflowDefinition>, holidays: set<int>, redact: string -> string,
    hasEvents: bool, hasTimers: bool, hasRouter: bool)

  /** Both engines' state. The console part holds the one audit trail they share. */
  datatype System = System(console: ConsoleState, cases: CaseTable, timers: TimerMap, events: seq<LifecycleEvent>)

  datatype WorkflowError =
    | UnknownWorkflow(caseType: string)
    | CaseNotFound(caseId: string)
    | Refused(edge: IllegalTransition)

  datatype Opening = Opening(
    caseId: string, tenant: string, caseType: string, actor: string, severity: Severity,
    attributes: seq<(string, string)>, summary: string, openedAt: Instant, citations: seq<Citation>)

  datatype Move = Move(
    caseId: string, tenant: string, toState: string, actor: string, reason: string, at: Instant)

  /** An evaluation, with the id and time a review would get if it escalates. */
  datatype Look = Look(
    caseId: string, tenant: string, actor: string, asOf: Instant, reviewId: string, submittedAt: Instant)

  function AttributeText(attributes: seq<(string, string)>): string {
    if attributes == [] then ""
    else if |attributes| == 1 then attributes[0].0 + "=" + attributes[0].1
    else attributes[0].0 + "=" + attributes[0].1 + " " + AttributeText(attributes[1..])
  }

  function CaseEventFor(
    redact: string -> string, c: Case, kind: CaseActionKind, actor: string, fromState: string,
    toState: string, decision: CaseDecision, summary: string, findings: seq<CaseFinding>): AuditEvent
  {
    CaseAction(c.tenant, c.caseId, kind, actor, fromState, toState, decision, c.severity,
               redact(summary + " :: " + AttributeText(c.attributes)), findings, c.citations)
  }

  function Recorded(st: ConsoleState, event: AuditEvent): ConsoleState {
    st.(audit := st.audit + [event])
  }

  function Emitted(env: Env, events: seq<LifecycleEvent>, kind: LifecycleEventType, c: Case): seq<LifecycleEvent> {
    if env.hasEvents then events + [LifecycleEvent(kind, c.tenant, c.caseId, c.state, c.severity)] else events
  }

  function TimerKeyOf(c: Case, spec: ClockSpec): TimerKey { (c.tenant, c.caseId, spec.name) }

  /** Schedule the first `n` clocks of the definition: those that have started get a timer. */
  ghost function Scheduled(
    timers: TimerMap, c: Case, definition: WorkflowDefinition, holidays: set<int>, n: nat): TimerMap
    requires n <= |definition.clocks|
  {
    if n == 0 then timers
    else
      var before := Scheduled(timers, c, definition, holidays, n - 1);
      var spec := definition.clocks[n - 1];
      match c.FirstEntered(spec.startState, definition.initial)
      case None => before
      case Some(anchor) => before[TimerKeyOf(c, spec) := DueAt(spec, anchor, holidays)]
  }

  /** Cancel the timers of the first `n` clocks. */
  ghost function Cancelled(timers: TimerMap, c: Case, definition: WorkflowDefinition, n: nat): TimerMap
    requires n <= |definition.clocks|
  {
    if n == 0 then timers
    else Cancelled(timers, c, definition, n - 1) - {TimerKeyOf(c, definition.clocks[n - 1])}
  }

  function OpeningEvent(redact: string -> string, c: Case, o: Opening): AuditEvent {
    CaseEventFor(redact, c, OpenAction, o.actor, "", c.state, CaseAllowed,
                 if o.summary == "" then o.caseType else o.summary, [])
  }

  function RefusalEvent(redact: string -> string, c: Case, m: Move): AuditEvent {
    CaseEventFor(redact, c, TransitionAction, m.actor, c.state, m.toState, CaseRejected, m.reason, [])
  }

  function MoveEvent(redact: string -> string, c: Case, moved: Case, m: Move): AuditEvent {
    CaseEventFor(redact, moved, TransitionAction, m.actor, c.state, moved.state, CaseAllowed, m.reason, [])
  }

  function EvaluationEvent(redact: string -> string, c: Case, assessment: CaseAssessment, l: Look): AuditEvent {
    CaseEventFor(redact, c, EvaluateAction, l.actor, c.state, c.state,
                 if assessment.requiresHumanReview then CaseEscalated else CaseAllowed, c.caseType,
                 assessment.findings)
  }

  function OpeningOf(env: Env, o: Opening): Case
    requires o.caseType in env.definitions
  {
    NewCase(o.caseId, o.tenant, env.definitions[o.caseType], o.severity, o.openedAt, o.attributes, o.citations)
  }

  /** Store a new case, schedule its clocks, publish and record the opening. */
  ghost function Opened(env: Env, s: System, c: Case, definition: WorkflowDefinition, o: Opening): System {
    System(
      Recorded(s.console, OpeningEvent(env.redact, c, o)),
      PutCase(s.cases, c),
      if env.hasTimers then Scheduled(s.timers, c, definition, env.holidays, |definition.clocks|) else s.timers,
      Emitted(env, s.events, CaseOpened, c))
  }

  ghost function OpenCase(env: Env, s: System, o: Opening): (System, Result<Case, WorkflowError>) {
    if o.caseType !in env.definitions then (s, Err(UnknownWorkflow(o.caseType)))
    else (Opened(env, s, OpeningOf(env, o), env.definitions[o.caseType], o), Ok(OpeningOf(env, o)))
  }

  /** Store a moved case, cancel its timers on terminal entry, publish and record the move. */
  ghost function Moved(env: Env, s: System, c: Case, moved: Case, definition: WorkflowDefinition, m: Move): System {
    System(
      Recorded(s.console, MoveEvent(env.redact, c, moved, m)),
      PutCase(s.cases, moved),
      if env.hasTimers && definition.IsTerminal(moved.state)
      then Cancelled(s.timers, moved, definition, |definition.clocks|) else s.timers,
      Emitted(env, s.events, CaseTransitioned, moved))
  }

  ghost function TransitionCase(env: Env, s: System, m: Move): (System, Result<Case, WorkflowError>) {
    match GetCase(s.cases, m.tenant, m.caseId)
    case None => (s, Err(CaseNotFound(m.caseId)))
    case Some(c) =>
      if c.caseType !in env.definitions then (s, Err(UnknownWorkflow(c.caseType)))
      else
        match Transit(c, m.toState, m.actor, m.reason, m.at, env.definitions[c.caseType])
        case Err(edge) => (s.(console := Recorded(s.console, RefusalEvent(env.redact, c, m))), Err(Refused(edge)))
        case Ok(moved) => (Moved(env, s, c, moved, env.definitions[c.caseType], m), Ok(moved))
  }

  /** Record an evaluation and, if it escalates, hand the case to the console as a new review. */
  ghost function Evaluated(
    env: Env, desk: Desk, st: ConsoleState, c: Case, assessment: CaseAssessment, l: Look): ConsoleState
  {
    var recorded := Recorded(st, EvaluationEvent(env.redact, c, assessment, l));
    if assessment.requiresHumanReview && env.hasRouter
    then Submit(desk, recorded, EscalationRequest(desk, c, assessment, l)).0 else recorded
  }

  function EscalationRequest(desk: Desk, c: Case, assessment: CaseAssessment, l: Look): ReviewRequest {
    RoutedRequest(desk.redact, c, assessment, c.LastActor(), l.reviewId, l.submittedAt)
  }

  ghost function EvaluateCase(env: Env, desk: Desk, s: System, l: Look)
    : (System, Result<CaseAssessment, WorkflowError>)
  {
    match GetCase(s.cases, l.tenant, l.caseId)
    case None => (s, Err(CaseNotFound(l.caseId)))
    case Some(c) =>
      if c.caseType !in env.definitions then (s, Err(UnknownWorkflow(c.caseType)))
      else
        var assessment := AssessmentOf(c, env.definitions[c.caseType], l.asOf, env.holidays);
        (s.(console := Evaluated(env, desk, s.console, c, assessment, l),
            events := if assessment.requiresHumanReview then Emitted(env, s.events, CaseEscalatedEvent, c)
                      else s.events),
         Ok(assessment))
  }

  // ---- the service object ----------------------------------------------------------------

  class CaseWorkflowService {
    const store: LocalCaseStore
    const audit: AuditSink
    const definitions: map<string, WorkflowDefinition>
    const publisher: LocalEventPublisher?
    const register: LocalTimers?
    const router: InProcessReviewRouter?
    const holidays: set<int>
    const redact: string -> string

    ghost function Configuration(): Env {
      Env(definitions, holidays, redact, publisher != null, register != null, router != null)
    }

    /** The desk escalations land on; without a router it is never used. */
    ghost function EscalationDesk(): Desk {
      if router == null then Desk(RoutingPolicy(map[], true, "group:approver"), redact) else router.console.desk
    }

    /** The case table is consistent, and a bound console writes to the same audit sink. */
    ghost predicate Valid()
      reads store, if router == null then {} else {router.console.store}
    {
      store.Valid() && (router != null ==> router.console.Valid() && router.console.audit == audit)
    }

    ghost function State(): System
      reads store, audit, publisher, register, if router == null then {} else {router.console.store}
    {
      System(
        ConsoleState(if router == null then map[] else router.console.store.rows, audit.events),
        store.cases,
        if register == null then map[] else register.timers,
        if publisher == null then [] else publisher.published)
    }

    constructor (
      store: LocalCaseStore, audit: AuditSink, definitions: map<string, WorkflowDefinition>,
      publisher: LocalEventPublisher?, register: LocalTimers?, router: InProcessReviewRouter?,
      holidays: set<int>, redact: string -> string)
      requires store.Valid()
      requires router != null ==> router.console.Valid() && router.console.audit == audit
      ensures Valid()
      ensures this.store == store && this.audit == audit && this.publisher == publisher
      ensures this.register == register && this.router == router
      ensures this.definitions == definitions && this.holidays == holidays && this.redact == redact
    {
      this.store, this.audit, this.definitions := store, audit, definitions;
      this.publisher, this.register, this.router := publisher, register, router;
      this.holidays, this.redact := holidays, redact;
    }

    method Emit(kind: LifecycleEventType, c: Case)
      modifies publisher
      ensures publisher != null ==>
        publisher.published == Emitted(Configuration(), old(publisher.published), kind, c)
    {
      if publisher != null {
        publisher.Publish(LifecycleEvent(kind, c.tenant, c.caseId, c.state, c.severity));
      }
    }

    method ScheduleClocks(c: Case, definition: WorkflowDefinition, asOf: Instant)
      modifies register
      ensures register != null ==>
        register.timers == Scheduled(old(register.timers), c, definition, holidays, |definition.clocks|)
    {
      if register == null {
        return;
      }
      for i := 0 to |definition.clocks|
        invariant register.timers == Scheduled(old(register.timers), c, definition, holidays, i)
      {
        var spec := definition.clocks[i];
        var anchor := c.FirstEntered(spec.startState, definition.initial);
        var status := DeadlineFor(spec, anchor, asOf, holidays);
        if status.dueAt.Some? {
          register.Schedule(c.tenant, c.caseId, spec.name, status.dueAt.value);
        }
      }
    }

    method CancelClocks(c: Case, definition: WorkflowDefinition)
      modifies register
      ensures register != null ==>
        register.timers == Cancelled(old(register.timers), c, definition, |definition.clocks|)
    {
      if register == null {
        return;
      }
      for i := 0 to |definition.clocks|
        invariant register.timers == Cancelled(old(register.timers), c, definition, i)
      {
        register.Cancel(c.tenant, c.caseId, definition.clocks[i].name);
      }
    }

    method Open(o: Opening) returns (r: Result<Case, WorkflowError>)
      requires Valid()
      modifies store, audit, publisher, register
      ensures Valid()
      ensures (State(), r) == OpenCase(Configuration(), old(State()), o)
    {
      if o.caseType !in definitions {
        return Err(UnknownWorkflow(o.caseType));
      }
      var definition := definitions[o.caseType];
      var c := NewCase(o.caseId, o.tenant, definition, o.severity, o.openedAt, o.attributes, o.citations);
      store.PutItem(c);
      ScheduleClocks(c, definition, c.openedAt);
      Emit(CaseOpened, c);
      audit.Record(OpeningEvent(redact, c, o));
      return Ok(c);
    }

    /** Store the moved case, cancel its timers on terminal entry, publish and record. */
    method ApplyMove(c: Case, moved: Case, definition: WorkflowDefinition, m: Move)
      requires Valid()
      modifies store, audit, publisher, register
      ensures Valid()
      ensures State() == Moved(Configuration(), old(State()), c, moved, definition, m)
    {
      store.PutItem(moved);
      if definition.IsTerminal(moved.state) {
        CancelClocks(moved, definition);
      }
      Emit(CaseTransitioned, moved);
      audit.Record(MoveEvent(redact, c, moved, m));
    }

    method TransitionTo(m: Move) returns (r: Result<Case, WorkflowError>)
      requires Valid()
      modifies store, audit, publisher, register
      ensures Valid()
      ensures (State(), r) == TransitionCase(Configuration(), old(State()), m)
    {
      var loaded := GetCase(store.cases, m.tenant, m.caseId);
      if loaded.None? {
        return Err(CaseNotFound(m.caseId));
      }
      var c := loaded.value;
      if c.caseType !in definitions {
        return Err(UnknownWorkflow(c.caseType));
      }
      var definition := definitions[c.caseType];
      var attempt := Transit(c, m.toState, m.actor, m.reason, m.at, definition);
      if attempt.Err? {
        audit.Record(RefusalEvent(redact, c, m));
        return Err(Refused(attempt.error));
      }
      var moved := attempt.value;
      ApplyMove(c, moved, definition, m);
      return Ok(moved);
    }

    method Evaluate(l: Look) returns (r: Result<CaseAssessment, WorkflowError>)
      requires Valid()
      modifies audit, publisher, if router == null then {} else {router.console.store}
      ensures Valid()
      ensures (State(), r) == EvaluateCase(Configuration(), EscalationDesk(), old(State()), l)
    {
      var loaded := GetCase(store.cases, l.tenant, l.caseId);
      if loaded.None? {
        return Err(CaseNotFound(l.caseId));
      }
      var c := loaded.value;
      if c.caseType !in definitions {
        return Err(UnknownWorkflow(c.caseType));
      }
      var assessment := Assess(c, definitions[c.caseType], l.asOf, holidays);
      audit.Record(EvaluationEvent(redact, c, assessment, l));
      if assessment.requiresHumanReview {
        Emit(CaseEscalatedEvent, c);
        if router != null {
          router.Route(c, assessment, c.LastActor(), l.reviewId, l.submittedAt);
        }
      }
      return Ok(assessment);
    }
  }
}
