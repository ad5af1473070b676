/** The case half of the audit trail: the accepted transitions on it are the case's history, and
    the lifecycle events mirror it. */
module CaseTrail {
  import opened Kernel
  import opened CaseModels
  import opened StateMachine
  import opened CasePorts
  import opened ReviewModels
  import opened Console
  import opened Workflow
  import opened Platform

  ghost function MovesOf(key: CaseKey): AuditEvent -> bool {
    (e: AuditEvent) =>
      e.CaseAction? && (e.tenant, e.caseId) == key && e.kind == TransitionAction && e.caseDecision == CaseAllowed
  }

  /** The redacted form of a text about a case, with the case's attributes. */
  ghost function CaseText(redact: string -> string, attributes: seq<(string, string)>, text: string): string {
    redact(text + " :: " + AttributeText(attributes))
  }

  /** The audited event and the history entry tell of the same move. */
  ghost predicate SameMove(
    redact: string -> string, attributes: seq<(string, string)>, e: AuditEvent, t: Transition)
  {
    && e.CaseAction? && e.actor == t.actor && e.fromState == t.fromState && e.toState == t.toState
    && e.redactedSummary == CaseText(redact, attributes, t.reason)
  }

  ghost predicate Mirrors(
    redact: string -> string, attributes: seq<(string, string)>, moves: seq<AuditEvent>, history: seq<Transition>)
  {
    |moves| == |history| && forall i :: 0 <= i < |moves| ==> SameMove(redact, attributes, moves[i], history[i])
  }

  /** A case's accepted transitions on the trail are, one for one and in order, its history; an
      unknown case has none. */
  ghost predicate CaseTrailMatches(redact: string -> string, s: System, key: CaseKey) {
    var moves := Filter(MovesOf(key), s.console.audit);
    if key in s.cases.rows then Mirrors(redact, s.cases.rows[key].attributes, moves, s.cases.rows[key].history)
    else moves == []
  }

  /** The test looks only at the case half of the trail. */
  ghost predicate IgnoresSignOffs(keep: AuditEvent -> bool) {
    forall e: AuditEvent :: e.SignOff? ==> !keep(e)
  }

  lemma SubmitFilters(keep: AuditEvent -> bool, desk: Desk, st: ConsoleState, request: ReviewRequest)
    requires IgnoresSignOffs(keep)
    ensures Filter(keep, Submit(desk, st, request).0.audit) == Filter(keep, st.audit)
    ensures Filter(keep, SubmitIdempotent(desk, st, request).0.audit) == Filter(keep, st.audit)
  {
    var item := NewItem(desk.policy, request);
    ProjectionLaws(desk.policy, item);
    FilterSnoc(keep, st.audit, SubmissionEvent(desk, item));
  }

  lemma DisposeFilters(keep: AuditEvent -> bool, desk: Desk, st: ConsoleState, reviewId: string, d: ReviewDecision)
    requires IgnoresSignOffs(keep)
    ensures Filter(keep, DisposeReview(desk, st, reviewId, d).0.audit) == Filter(keep, st.audit)
  {
    var r := DisposeReview(desk, st, reviewId, d).1;
    if r.Ok? { FilterSnoc(keep, st.audit, DispositionEvent(desk, r.value, d)); }
  }

  lemma EvaluatedFilters(
    keep: AuditEvent -> bool, env: Env, desk: Desk, st: ConsoleState, c: Case, a: CaseAssessment, l: Look)
    requires IgnoresSignOffs(keep)
    ensures var e := EvaluationEvent(env.redact, c, a, l);
      Filter(keep, Evaluated(env, desk, st, c, a, l).audit) == Filter(keep, st.audit) + if keep(e) then [e] else []
  {
    var e := EvaluationEvent(env.redact, c, a, l);
    FilterSnoc(keep, st.audit, e);
    SubmitFilters(keep, desk, Recorded(st, e), EscalationRequest(desk, c, a, l));
  }

  /** The console's own operations leave the case half of the trail, the cases and the lifecycle
      events alone. */
  lemma ConsoleOpsFilter(keep: AuditEvent -> bool, env: Env, s: System, cmd: Command)
    requires IgnoresSignOffs(keep) && !cmd.op.OpenOp? && !cmd.op.MoveOp? && !cmd.op.EvaluateOp?
    ensures var s' := Step(env, s, cmd).0;
      Filter(keep, s'.console.audit) == Filter(keep, s.console.audit) && s'.cases == s.cases && s'.events == s.events
  {
    var desk := Desk(cmd.policy, env.redact);
    match cmd.op {
      case SubmitOp(request) => SubmitFilters(keep, desk, s.console, request);
      case SubmitOnceOp(request) => SubmitFilters(keep, desk, s.console, request);
      case DisposeOp(reviewId, decision) => DisposeFilters(keep, desk, s.console, reviewId, decision);
      case _ =>
    }
  }

  lemma EvaluateKeepsTrail(env: Env, desk: Desk, s: System, l: Look, key: CaseKey)
    requires CaseTrailMatches(env.redact, s, key)
    ensures CaseTrailMatches(env.redact, EvaluateCase(env, desk, s, l).0, key)
  {
    var r := EvaluateCase(env, desk, s, l).1;
    if r.Ok? {
      EvaluatedFilters(MovesOf(key), env, desk, s.console, s.cases.rows[(l.tenant, l.caseId)], r.value, l);
    }
  }

  lemma OpenKeepsTrail(env: Env, s: System, o: Opening, key: CaseKey)
    requires CaseTrailMatches(env.redact, s, key) && (o.tenant, o.caseId) !in s.cases.rows
    ensures CaseTrailMatches(env.redact, OpenCase(env, s, o).0, key)
  {
    if o.caseType in env.definitions {
      FilterSnoc(MovesOf(key), s.console.audit, OpeningEvent(env.redact, OpeningOf(env, o), o));
    }
  }

  lemma MirrorsSnoc(
    redact: string -> string, attributes: seq<(string, string)>, moves: seq<AuditEvent>,
    history: seq<Transition>, e: AuditEvent, t: Transition)
    requires Mirrors(redact, attributes, moves, history) && SameMove(redact, attributes, e, t)
    ensures Mirrors(redact, attributes, moves + [e], history + [t])
  {}

  lemma MovedKeepsTrail(
    env: Env, s: System, c: Case, moved: Case, definition: WorkflowDefinition, m: Move, key: CaseKey)
    requires CaseTrailMatches(env.redact, s, key)
    requires CaseKeyOf(c) in s.cases.rows && s.cases.rows[CaseKeyOf(c)] == c
    requires Transit(c, m.toState, m.actor, m.reason, m.at, definition) == Ok(moved)
    ensures CaseTrailMatches(env.redact, Moved(env, s, c, moved, definition, m), key)
  {
    var e, moves := MoveEvent(env.redact, c, moved, m), Filter(MovesOf(key), s.console.audit);
    FilterSnoc(MovesOf(key), s.console.audit, e);
    if key == CaseKeyOf(c) {
      MirrorsSnoc(env.redact, c.attributes, moves, c.history, e, moved.history[|c.history|]);
    }
  }

  lemma MoveKeepsTrail(env: Env, s: System, m: Move, key: CaseKey)
    requires CaseTableInv(s.cases) && CaseTrailMatches(env.redact, s, key)
    ensures CaseTrailMatches(env.redact, TransitionCase(env, s, m).0, key)
  {
    var r := TransitionCase(env, s, m).1;
    if r.Ok? {
      var c := s.cases.rows[(m.tenant, m.caseId)];
      MovedKeepsTrail(env, s, c, r.value, env.definitions[c.caseType], m, key);
    } else if r.error.Refused? {
      FilterSnoc(MovesOf(key), s.console.audit, RefusalEvent(env.redact, s.cases.rows[(m.tenant, m.caseId)], m));
    }
  }

  lemma StepKeepsCaseTrail(env: Env, s: System, cmd: Command, key: CaseKey)
    requires Consistent(s) && CaseTrailMatches(env.redact, s, key) && FreshIds(s, cmd.op)
    ensures CaseTrailMatches(env.redact, Step(env, s, cmd).0, key)
  {
    match cmd.op {
      case OpenOp(o) => OpenKeepsTrail(env, s, o, key);
      case MoveOp(m) => MoveKeepsTrail(env, s, m, key);
      case EvaluateOp(l) => EvaluateKeepsTrail(env, Desk(cmd.policy, env.redact), s, l, key);
      case _ => ConsoleOpsFilter(MovesOf(key), env, s, cmd);
    }
  }

  lemma {:induction false} RunKeepsCaseTrail(env: Env, s: System, cmds: seq<Command>, key: CaseKey)
    requires Consistent(s) && CaseTrailMatches(env.redact, s, key) && FreshRun(env, s, cmds)
    ensures CaseTrailMatches(env.redact, Run(env, s, cmds), key)
    decreases |cmds|
  {
    if cmds != [] {
      StepKeepsConsistent(env, s, cmds[0]);
      StepKeepsCaseTrail(env, s, cmds[0], key);
      RunKeepsCaseTrail(env, Step(env, s, cmds[0]).0, cmds[1..], key);
    }
  }

  /** The trail determines each case's history: after any serial run its accepted transitions are
      the history, move for move, each with its reason redacted. */
  lemma TrailDeterminesHistory(env: Env, cmds: seq<Command>, key: CaseKey)
    requires FreshRun(env, EMPTY, cmds)
    ensures CaseTrailMatches(env.redact, Run(env, EMPTY, cmds), key)
  {
    RunKeepsCaseTrail(env, EMPTY, cmds, key);
  }

  // ---- lifecycle events ------------------------------------------------------------------

  /** What gets published: openings, accepted transitions and escalations. */
  ghost function Announced(): AuditEvent -> bool {
    (e: AuditEvent) => e.CaseAction? && match e.kind
                       case OpenAction => true
                       case TransitionAction => e.caseDecision == CaseAllowed
                       case EvaluateAction => e.caseDecision == CaseEscalated
  }

  /** The published event tells of the audited one, and nothing more. */
  ghost predicate Tells(published: LifecycleEvent, e: AuditEvent) {
    && e.CaseAction? && published.tenant == e.tenant && published.caseId == e.caseId
    && published.state == e.toState && published.severity == e.severity
    && published.eventType == match e.kind
                              case OpenAction => CaseOpened
                              case TransitionAction => CaseTransitioned
                              case EvaluateAction => CaseEscalatedEvent
  }

  ghost predicate EventsMirrorTrail(s: System) {
    var announced := Filter(Announced(), s.console.audit);
    |s.events| == |announced| && forall i :: 0 <= i < |s.events| ==> Tells(s.events[i], announced[i])
  }

  lemma OpenMirrors(env: Env, s: System, o: Opening)
    requires EventsMirrorTrail(s) && env.hasEvents
    ensures EventsMirrorTrail(OpenCase(env, s, o).0)
  {
    if o.caseType in env.definitions {
      FilterSnoc(Announced(), s.console.audit, OpeningEvent(env.redact, OpeningOf(env, o), o));
    }
  }

  lemma MoveMirrors(env: Env, s: System, m: Move)
    requires EventsMirrorTrail(s) && env.hasEvents
    ensures EventsMirrorTrail(TransitionCase(env, s, m).0)
  {
    var r := TransitionCase(env, s, m).1;
    if r.Ok? {
      FilterSnoc(Announced(), s.console.audit, MoveEvent(env.redact, s.cases.rows[(m.tenant, m.caseId)], r.value, m));
    } else if r.error.Refused? {
      FilterSnoc(Announced(), s.console.audit, RefusalEvent(env.redact, s.cases.rows[(m.tenant, m.caseId)], m));
    }
  }

  lemma EvaluateMirrors(env: Env, desk: Desk, s: System, l: Look)
    requires EventsMirrorTrail(s) && env.hasEvents
    ensures EventsMirrorTrail(EvaluateCase(env, desk, s, l).0)
  {
    var r := EvaluateCase(env, desk, s, l).1;
    if r.Ok? {
      EvaluatedFilters(Announced(), env, desk, s.console, s.cases.rows[(l.tenant, l.caseId)], r.value, l);
    }
  }

  /** With a publisher bound, the lifecycle stream of any run is, one for one and in order, the
      trail's openings, accepted transitions and escalations. */
  lemma {:induction false} LifecycleMirrorsTrail(env: Env, s: System, cmds: seq<Command>)
    requires EventsMirrorTrail(s) && env.hasEvents
    ensures EventsMirrorTrail(Run(env, s, cmds))
    decreases |cmds|
  {
    if cmds != [] {
      match cmds[0].op {
        case OpenOp(o) => OpenMirrors(env, s, o);
        case MoveOp(m) => MoveMirrors(env, s, m);
        case EvaluateOp(l) => EvaluateMirrors(env, Desk(cmds[0].policy, env.redact), s, l);
        case _ => ConsoleOpsFilter(Announced(), env, s, cmds[0]);
      }
      LifecycleMirrorsTrail(env, Step(env, s, cmds[0]).0, cmds[1..]);
    }
  }
}
