/** Tenant non-interference: what a tenant sees of a run is what it would see had nobody else
    used the service. Projecting the system to one tenant commutes with that tenant's steps and
    hides everyone else's. */
module TenantIsolation {
  import opened Kernel
  import opened CaseModels
  import opened StateMachine
  import opened CasePorts
  import opened ReviewModels
  import opened MakerChecker
  import opened ReviewStore
  import opened Console
  import opened Workflow
  import opened Platform

  ghost function EventOf(tenant: string): AuditEvent -> bool { (e: AuditEvent) => e.tenant == tenant }

  ghost function LifecycleOf(tenant: string): LifecycleEvent -> bool { (e: LifecycleEvent) => e.tenant == tenant }

  ghost function OwnRows(tenant: string, t: Table): Table { map k | k in t && k.0 == tenant :: t[k] }

  ghost function OwnConsole(tenant: string, st: ConsoleState): ConsoleState {
    ConsoleState(OwnRows(tenant, st.reviews), Filter(EventOf(tenant), st.audit))
  }

  ghost function OwnCases(tenant: string, t: CaseTable): CaseTable {
    CaseTable(Filter(KeyOfTenant(tenant), t.order), map k | k in t.rows && k.0 == tenant :: t.rows[k])
  }

  ghost function OwnTimers(tenant: string, timers: TimerMap): TimerMap {
    map k | k in timers && k.0 == tenant :: timers[k]
  }

  /** The part of the whole system that belongs to one tenant. */
  ghost function Own(tenant: string, s: System): System {
    System(OwnConsole(tenant, s.console), OwnCases(tenant, s.cases), OwnTimers(tenant, s.timers),
           Filter(LifecycleOf(tenant), s.events))
  }

  // ---- the console -----------------------------------------------------------------------

  lemma OwnPut(tenant: string, t: Table, item: ReviewItem)
    requires item.request.tenant == tenant
    ensures Put(t, item).Err? == Put(OwnRows(tenant, t), item).Err?
    ensures Put(t, item).Ok? ==> OwnRows(tenant, Put(t, item).value) == Put(OwnRows(tenant, t), item).value
  {
    assert KeyTaken(t, item) == KeyTaken(OwnRows(tenant, t), item) by {
      if KeyTaken(t, item) {
        var k :| k in t && k != KeyOf(item) && k.0 == item.request.tenant
          && t[k].request.sourceKey == item.request.sourceKey;
        assert k in OwnRows(tenant, t) && OwnRows(tenant, t)[k].request.sourceKey == item.request.sourceKey;
      }
    }
  }

  lemma ForeignPut(tenant: string, t: Table, item: ReviewItem)
    requires item.request.tenant != tenant
    ensures Put(t, item).Ok? ==> OwnRows(tenant, Put(t, item).value) == OwnRows(tenant, t)
  {}

  lemma OwnScan(tenant: string, t: Table, sourceKey: string)
    ensures Scan(OwnRows(tenant, t), tenant, sourceKey) == Scan(t, tenant, sourceKey)
    ensures RowsOf(OwnRows(tenant, t), tenant) == RowsOf(t, tenant)
  {
    var own := OwnRows(tenant, t);
    forall row ensures row in Scan(own, tenant, sourceKey) <==> row in Scan(t, tenant, sourceKey) {
      if row in Scan(t, tenant, sourceKey) {
        var k :| k in t && k.0 == tenant && t[k].request.sourceKey == sourceKey && t[k] == row;
        assert k in own && own[k] == row;
      }
    }
    forall row ensures row in RowsOf(own, tenant) <==> row in RowsOf(t, tenant) {
      if row in RowsOf(t, tenant) {
        var k :| k in t && k.0 == tenant && t[k] == row;
        assert k in own && own[k] == row;
      }
    }
  }

  lemma OwnRecord(tenant: string, audit: seq<AuditEvent>, event: AuditEvent)
    ensures Filter(EventOf(tenant), audit + [event])
      == if event.tenant == tenant then Filter(EventOf(tenant), audit) + [event] else Filter(EventOf(tenant), audit)
  {
    FilterSnoc(EventOf(tenant), audit, event);
  }

  lemma OwnSubmit(tenant: string, desk: Desk, st: ConsoleState, request: ReviewRequest)
    requires request.tenant == tenant
    ensures Submit(desk, OwnConsole(tenant, st), request)
      == (OwnConsole(tenant, Submit(desk, st, request).0), Submit(desk, st, request).1)
  {
    var item := NewItem(desk.policy, request);
    OwnPut(tenant, st.reviews, item);
    OwnRecord(tenant, st.audit, SubmissionEvent(desk, item));
  }

  lemma ForeignSubmit(tenant: string, desk: Desk, st: ConsoleState, request: ReviewRequest)
    requires request.tenant != tenant
    ensures OwnConsole(tenant, Submit(desk, st, request).0) == OwnConsole(tenant, st)
  {
    var item := NewItem(desk.policy, request);
    ForeignPut(tenant, st.reviews, item);
    OwnRecord(tenant, st.audit, SubmissionEvent(desk, item));
  }

  lemma OwnSubmitOnce(tenant: string, desk: Desk, st: ConsoleState, request: ReviewRequest)
    requires TableInv(st.reviews) && request.tenant == tenant
    ensures SubmitIdempotent(desk, OwnConsole(tenant, st), request)
      == (OwnConsole(tenant, SubmitIdempotent(desk, st, request).0), SubmitIdempotent(desk, st, request).1)
  {
    var item := NewItem(desk.policy, request);
    OwnPutIfAbsent(tenant, st.reviews, item);
    ProjectionLaws(desk.policy, item);
    OwnRecord(tenant, st.audit, SubmissionEvent(desk, item));
  }

  lemma OwnPutIfAbsent(tenant: string, t: Table, item: ReviewItem)
    requires item.request.tenant == tenant
    ensures match (PutIfAbsent(t, item), PutIfAbsent(OwnRows(tenant, t), item))
            case (Ok(all), Ok(own)) => own == (OwnRows(tenant, all.0), all.1, all.2) && (all.2 ==> all.1 == item)
            case (Err(e), Err(f)) => e == f
            case _ => false
  {
    OwnPut(tenant, t, item);
    OwnScan(tenant, t, item.request.sourceKey);
    assert OwnRows(tenant, t[KeyOf(item) := item]) == OwnRows(tenant, t)[KeyOf(item) := item];
  }

  lemma ForeignSubmitOnce(tenant: string, desk: Desk, st: ConsoleState, request: ReviewRequest)
    requires TableInv(st.reviews) && request.tenant != tenant
    ensures OwnConsole(tenant, SubmitIdempotent(desk, st, request).0) == OwnConsole(tenant, st)
  {
    var item := NewItem(desk.policy, request);
    ForeignPutIfAbsent(tenant, st.reviews, item);
    ProjectionLaws(desk.policy, item);
    OwnRecord(tenant, st.audit, SubmissionEvent(desk, item));
  }

  lemma ForeignPutIfAbsent(tenant: string, t: Table, item: ReviewItem)
    requires item.request.tenant != tenant
    ensures var r := PutIfAbsent(t, item);
      r.Ok? ==> OwnRows(tenant, r.value.0) == OwnRows(tenant, t) && (r.value.2 ==> r.value.1 == item)
  {
    ForeignPut(tenant, t, item);
    assert OwnRows(tenant, t[KeyOf(item) := item]) == OwnRows(tenant, t);
  }

  lemma OwnDispose(tenant: string, desk: Desk, st: ConsoleState, reviewId: string, d: ReviewDecision)
    requires TableInv(st.reviews) && d.checkerTenant == tenant
    ensures DisposeReview(desk, OwnConsole(tenant, st), reviewId, d)
      == (OwnConsole(tenant, DisposeReview(desk, st, reviewId, d).0), DisposeReview(desk, st, reviewId, d).1)
  {
    if (tenant, reviewId) in st.reviews {
      var item := WithEffectiveRouting(desk.policy, st.reviews[(tenant, reviewId)]);
      if !item.IsTerminal() {
        var outcome := Dispose(desk.policy, item, d, Some(d.decidedAt)).value;
        DisposeVerdict(desk.policy, item, d, Some(d.decidedAt));
        OwnPut(tenant, st.reviews, outcome.item);
        OwnRecord(tenant, st.audit, DispositionEvent(desk, outcome, d));
      }
    }
  }

  lemma ForeignDispose(tenant: string, desk: Desk, st: ConsoleState, reviewId: string, d: ReviewDecision)
    requires TableInv(st.reviews) && d.checkerTenant != tenant
    ensures OwnConsole(tenant, DisposeReview(desk, st, reviewId, d).0) == OwnConsole(tenant, st)
  {
    if (d.checkerTenant, reviewId) in st.reviews {
      var item := WithEffectiveRouting(desk.policy, st.reviews[(d.checkerTenant, reviewId)]);
      if !item.IsTerminal() {
        var outcome := Dispose(desk.policy, item, d, Some(d.decidedAt)).value;
        DisposeVerdict(desk.policy, item, d, Some(d.decidedAt));
        ForeignPut(tenant, st.reviews, outcome.item);
        OwnRecord(tenant, st.audit, DispositionEvent(desk, outcome, d));
      }
    }
  }

  // ---- the case engine -------------------------------------------------------------------

  lemma OwnPutCase(tenant: string, t: CaseTable, c: Case)
    ensures OwnCases(tenant, PutCase(t, c))
      == if c.tenant == tenant then PutCase(OwnCases(tenant, t), c) else OwnCases(tenant, t)
  {
    var key, own := CaseKeyOf(c), OwnCases(tenant, t);
    FilterSnoc(KeyOfTenant(tenant), t.order, key);
    if c.tenant == tenant {
      assert OwnCases(tenant, PutCase(t, c)).rows == own.rows[key := c];
    } else {
      assert OwnCases(tenant, PutCase(t, c)).rows == own.rows;
    }
  }

  lemma {:induction false} OwnScheduled(
    tenant: string, timers: TimerMap, c: Case, definition: WorkflowDefinition, holidays: set<int>, n: nat)
    requires n <= |definition.clocks|
    ensures OwnTimers(tenant, Scheduled(timers, c, definition, holidays, n))
      == if c.tenant == tenant then Scheduled(OwnTimers(tenant, timers), c, definition, holidays, n)
         else OwnTimers(tenant, timers)
  {
    if n > 0 { OwnScheduled(tenant, timers, c, definition, holidays, n - 1); }
  }

  lemma {:induction false} OwnCancelled(
    tenant: string, timers: TimerMap, c: Case, definition: WorkflowDefinition, n: nat)
    requires n <= |definition.clocks|
    ensures OwnTimers(tenant, Cancelled(timers, c, definition, n))
      == if c.tenant == tenant then Cancelled(OwnTimers(tenant, timers), c, definition, n)
         else OwnTimers(tenant, timers)
  {
    if n > 0 { OwnCancelled(tenant, timers, c, definition, n - 1); }
  }

  lemma OwnEmitted(tenant: string, env: Env, events: seq<LifecycleEvent>, kind: LifecycleEventType, c: Case)
    ensures Filter(LifecycleOf(tenant), Emitted(env, events, kind, c))
      == if c.tenant == tenant then Emitted(env, Filter(LifecycleOf(tenant), events), kind, c)
         else Filter(LifecycleOf(tenant), events)
  {
    FilterSnoc(LifecycleOf(tenant), events, LifecycleEvent(kind, c.tenant, c.caseId, c.state, c.severity));
  }

  lemma OwnOpened(tenant: string, env: Env, s: System, c: Case, definition: WorkflowDefinition, o: Opening)
    ensures Own(tenant, Opened(env, s, c, definition, o))
      == if c.tenant == tenant then Opened(env, Own(tenant, s), c, definition, o) else Own(tenant, s)
  {
    OwnPutCase(tenant, s.cases, c);
    OwnScheduled(tenant, s.timers, c, definition, env.holidays, |definition.clocks|);
    OwnEmitted(tenant, env, s.events, CaseOpened, c);
    OwnRecord(tenant, s.console.audit, OpeningEvent(env.redact, c, o));
  }

  lemma OwnOpen(tenant: string, env: Env, s: System, o: Opening)
    ensures o.tenant == tenant ==>
      OpenCase(env, Own(tenant, s), o) == (Own(tenant, OpenCase(env, s, o).0), OpenCase(env, s, o).1)
    ensures o.tenant != tenant ==> Own(tenant, OpenCase(env, s, o).0) == Own(tenant, s)
  {
    if o.caseType in env.definitions {
      OwnOpened(tenant, env, s, OpeningOf(env, o), env.definitions[o.caseType], o);
    }
  }

  lemma OwnMoved(tenant: string, env: Env, s: System, c: Case, moved: Case, definition: WorkflowDefinition, m: Move)
    ensures Own(tenant, Moved(env, s, c, moved, definition, m))
      == if moved.tenant == tenant then Moved(env, Own(tenant, s), c, moved, definition, m) else Own(tenant, s)
  {
    OwnPutCase(tenant, s.cases, moved);
    OwnCancelled(tenant, s.timers, moved, definition, |definition.clocks|);
    OwnEmitted(tenant, env, s.events, CaseTransitioned, moved);
    OwnRecord(tenant, s.console.audit, MoveEvent(env.redact, c, moved, m));
  }

  lemma OwnMove(tenant: string, env: Env, s: System, m: Move)
    requires Consistent(s)
    ensures m.tenant == tenant ==>
      TransitionCase(env, Own(tenant, s), m) == (Own(tenant, TransitionCase(env, s, m).0), TransitionCase(env, s, m).1)
    ensures m.tenant != tenant ==> Own(tenant, TransitionCase(env, s, m).0) == Own(tenant, s)
  {
    if (m.tenant, m.caseId) in s.cases.rows && s.cases.rows[(m.tenant, m.caseId)].caseType in env.definitions {
      var c := s.cases.rows[(m.tenant, m.caseId)];
      var definition := env.definitions[c.caseType];
      var attempt := Transit(c, m.toState, m.actor, m.reason, m.at, definition);
      if attempt.Ok? {
        OwnMoved(tenant, env, s, c, attempt.value, definition, m);
      } else {
        OwnRecord(tenant, s.console.audit, RefusalEvent(env.redact, c, m));
      }
    }
  }

  lemma OwnEvaluated(tenant: string, env: Env, desk: Desk, st: ConsoleState, c: Case, a: CaseAssessment, l: Look)
    ensures OwnConsole(tenant, Evaluated(env, desk, st, c, a, l))
      == if c.tenant == tenant then Evaluated(env, desk, OwnConsole(tenant, st), c, a, l) else OwnConsole(tenant, st)
  {
    var recorded := Recorded(st, EvaluationEvent(env.redact, c, a, l));
    var request := EscalationRequest(desk, c, a, l);
    OwnRecord(tenant, st.audit, EvaluationEvent(env.redact, c, a, l));
    if c.tenant == tenant {
      assert OwnConsole(tenant, recorded) == Recorded(OwnConsole(tenant, st), EvaluationEvent(env.redact, c, a, l));
      OwnSubmit(tenant, desk, recorded, request);
    } else {
      assert OwnConsole(tenant, recorded) == OwnConsole(tenant, st);
      ForeignSubmit(tenant, desk, recorded, request);
    }
  }

  lemma OwnEvaluate(tenant: string, env: Env, desk: Desk, s: System, l: Look)
    requires Consistent(s)
    ensures l.tenant == tenant ==>
      EvaluateCase(env, desk, Own(tenant, s), l)
      == (Own(tenant, EvaluateCase(env, desk, s, l).0), EvaluateCase(env, desk, s, l).1)
    ensures l.tenant != tenant ==> Own(tenant, EvaluateCase(env, desk, s, l).0) == Own(tenant, s)
  {
    var r := EvaluateCase(env, desk, s, l).1;
    if r.Ok? {
      var c := s.cases.rows[(l.tenant, l.caseId)];
      OwnEvaluated(tenant, env, desk, s.console, c, r.value, l);
      OwnEmitted(tenant, env, s.events, CaseEscalatedEvent, c);
    }
  }

  lemma {:induction false} CasesAtAgree(keys: seq<CaseKey>, a: map<CaseKey, Case>, b: map<CaseKey, Case>)
    requires forall k :: k in keys ==> (k in a <==> k in b) && (k in a ==> a[k] == b[k])
    ensures CasesAt(keys, a) == CasesAt(keys, b)
  {
    if keys != [] { CasesAtAgree(keys[..|keys| - 1], a, b); }
  }

  // ---- the theorem -----------------------------------------------------------------------

  lemma OwnConsoleStep(tenant: string, env: Env, s: System, cmd: Command)
    requires Consistent(s) && TenantOf(cmd.op) == tenant
    requires cmd.op.SubmitOp? || cmd.op.SubmitOnceOp? || cmd.op.DisposeOp?
    ensures Step(env, Own(tenant, s), cmd) == (Own(tenant, Step(env, s, cmd).0), Step(env, s, cmd).1)
  {
    var desk := Desk(cmd.policy, env.redact);
    match cmd.op {
      case SubmitOp(request) => OwnSubmit(tenant, desk, s.console, request);
      case SubmitOnceOp(request) => OwnSubmitOnce(tenant, desk, s.console, request);
      case DisposeOp(reviewId, decision) => OwnDispose(tenant, desk, s.console, reviewId, decision);
    }
  }

  lemma OwnOpenStep(tenant: string, env: Env, s: System, cmd: Command)
    requires Consistent(s) && TenantOf(cmd.op) == tenant && cmd.op.OpenOp?
    ensures Step(env, Own(tenant, s), cmd) == (Own(tenant, Step(env, s, cmd).0), Step(env, s, cmd).1)
  {
    OwnOpen(tenant, env, s, cmd.op.opening);
  }

  lemma OwnMoveStep(tenant: string, env: Env, s: System, cmd: Command)
    requires Consistent(s) && TenantOf(cmd.op) == tenant && cmd.op.MoveOp?
    ensures Step(env, Own(tenant, s), cmd) == (Own(tenant, Step(env, s, cmd).0), Step(env, s, cmd).1)
  {
    OwnMove(tenant, env, s, cmd.op.move);
  }

  lemma OwnEvaluateStep(tenant: string, env: Env, s: System, cmd: Command)
    requires Consistent(s) && TenantOf(cmd.op) == tenant && cmd.op.EvaluateOp?
    ensures Step(env, Own(tenant, s), cmd) == (Own(tenant, Step(env, s, cmd).0), Step(env, s, cmd).1)
  {
    OwnEvaluate(tenant, env, Desk(cmd.policy, env.redact), s, cmd.op.look);
  }

  /** A tenant's own step, taken on its own part of the system, gives the same answer and the
      same part. */
  lemma OwnStep(tenant: string, env: Env, s: System, cmd: Command)
    requires Consistent(s) && TenantOf(cmd.op) == tenant
    ensures Step(env, Own(tenant, s), cmd) == (Own(tenant, Step(env, s, cmd).0), Step(env, s, cmd).1)
  {
    if cmd.op.SubmitOp? || cmd.op.SubmitOnceOp? || cmd.op.DisposeOp? {
      OwnConsoleStep(tenant, env, s, cmd);
    } else if cmd.op.OpenOp? {
      OwnOpenStep(tenant, env, s, cmd);
    } else if cmd.op.MoveOp? {
      OwnMoveStep(tenant, env, s, cmd);
    } else if cmd.op.EvaluateOp? {
      OwnEvaluateStep(tenant, env, s, cmd);
    } else {
      OwnRead(tenant, env, s, cmd);
    }
  }

  lemma OwnRead(tenant: string, env: Env, s: System, cmd: Command)
    requires TenantOf(cmd.op) == tenant
    requires !(cmd.op.SubmitOp? || cmd.op.SubmitOnceOp? || cmd.op.DisposeOp?)
    requires !(cmd.op.OpenOp? || cmd.op.MoveOp? || cmd.op.EvaluateOp?)
    ensures Step(env, Own(tenant, s), cmd) == (Own(tenant, Step(env, s, cmd).0), Step(env, s, cmd).1)
  {
    match cmd.op {
      case GetReviewOp(_, _) =>
      case FindOp(_, sourceKey) => OwnScan(tenant, s.console.reviews, sourceKey);
      case ListQueueOp(_) => OwnScan(tenant, s.console.reviews, "");
      case ListAllOp(_) => OwnScan(tenant, s.console.reviews, "");
      case GetCaseOp(_, _) =>
      case ListCasesOp(_) =>
        FilterTwice(KeyOfTenant(tenant), s.cases.order);
        CasesAtAgree(Filter(KeyOfTenant(tenant), s.cases.order), s.cases.rows, OwnCases(tenant, s.cases).rows);
    }
  }

  lemma ForeignConsoleStep(tenant: string, env: Env, s: System, cmd: Command)
    requires Consistent(s) && TenantOf(cmd.op) != tenant
    requires cmd.op.SubmitOp? || cmd.op.SubmitOnceOp? || cmd.op.DisposeOp?
    ensures Own(tenant, Step(env, s, cmd).0) == Own(tenant, s)
  {
    var desk := Desk(cmd.policy, env.redact);
    match cmd.op {
      case SubmitOp(request) => ForeignSubmit(tenant, desk, s.console, request);
      case SubmitOnceOp(request) => ForeignSubmitOnce(tenant, desk, s.console, request);
      case DisposeOp(reviewId, decision) => ForeignDispose(tenant, desk, s.console, reviewId, decision);
    }
  }

  /** Another tenant's step leaves this tenant's part alone. */
  lemma ForeignStep(tenant: string, env: Env, s: System, cmd: Command)
    requires Consistent(s) && TenantOf(cmd.op) != tenant
    ensures Own(tenant, Step(env, s, cmd).0) == Own(tenant, s)
  {
    if cmd.op.SubmitOp? || cmd.op.SubmitOnceOp? || cmd.op.DisposeOp? {
      ForeignConsoleStep(tenant, env, s, cmd);
    } else {
      match cmd.op {
        case OpenOp(opening) => OwnOpen(tenant, env, s, opening);
        case MoveOp(move) => OwnMove(tenant, env, s, move);
        case EvaluateOp(look) => OwnEvaluate(tenant, env, Desk(cmd.policy, env.redact), s, look);
        case _ =>
      }
    }
  }

  /** The run with every other tenant's commands deleted. */
  ghost function Purge(tenant: string, cmds: seq<Command>): seq<Command> {
    if cmds == [] then []
    else if TenantOf(cmds[0].op) == tenant then [cmds[0]] + Purge(tenant, cmds[1..])
    else Purge(tenant, cmds[1..])
  }

  /** The answers a tenant receives in the course of a run. */
  ghost function Observed(tenant: string, env: Env, s: System, cmds: seq<Command>): seq<Response>
    decreases |cmds|
  {
    if cmds == [] then []
    else
      var (s', r) := Step(env, s, cmds[0]);
      (if TenantOf(cmds[0].op) == tenant then [r] else []) + Observed(tenant, env, s', cmds[1..])
  }

  lemma {:induction false} ProjectionSimulates(tenant: string, env: Env, s: System, cmds: seq<Command>)
    requires Consistent(s)
    ensures Observed(tenant, env, s, cmds) == Observed(tenant, env, Own(tenant, s), Purge(tenant, cmds))
    ensures Own(tenant, Run(env, s, cmds)) == Run(env, Own(tenant, s), Purge(tenant, cmds))
    decreases |cmds|
  {
    if cmds != [] {
      var cmd, rest := cmds[0], cmds[1..];
      var s' := Step(env, s, cmd).0;
      StepKeepsConsistent(env, s, cmd);
      ProjectionSimulates(tenant, env, s', rest);
      if TenantOf(cmd.op) == tenant {
        OwnStep(tenant, env, s, cmd);
        var purged := Purge(tenant, cmds);
        assert purged[0] == cmd && purged[1..] == Purge(tenant, rest);
      } else {
        ForeignStep(tenant, env, s, cmd);
      }
    }
  }

  /** Non-interference: in any serial run of the service, with policies changing at will, every
      answer a tenant receives, and all that is stored, timed, published and audited under its
      name, is as if no other tenant existed. */
  lemma TenantNonInterference(tenant: string, env: Env, cmds: seq<Command>)
    ensures Observed(tenant, env, EMPTY, cmds) == Observed(tenant, env, EMPTY, Purge(tenant, cmds))
    ensures Own(tenant, Run(env, EMPTY, cmds)) == Run(env, EMPTY, Purge(tenant, cmds))
  {
    assert Own(tenant, EMPTY) == EMPTY;
    ProjectionSimulates(tenant, env, EMPTY, cmds);
  }
}
