/** What the records on the audit trail say: each quotes the stored review or case it is about,
    with the summary and the reason redacted and the citations as they came. */
module TrailRecords {
  import opened Kernel
  import opened CaseModels
  import opened CasePorts
  import opened ReviewModels
  import opened MakerChecker
  import opened ReviewStore
  import opened Console
  import opened Workflow
  import opened Platform
  import opened ConsoleRuns
  import opened CaseRuns
  import opened CaseTrail

  /** A sign-off quotes its review: the redacted subject and summary, and the citations as they
      are; a submission gives the fixed reason. */
  ghost predicate QuotesReview(redact: string -> string, request: ReviewRequest, e: AuditEvent) {
    && e.SignOff?
    && e.redactedSummary == redact(request.subject + " :: " + request.summary)
    && e.citations == request.citations
    && (e.action == SubmitAction ==> e.redactedReason == redact("submitted for review"))
  }

  /** A case record quotes its case: the citations as they are, and for an evaluation the redacted
      case type. Only evaluations have findings. */
  ghost predicate QuotesCase(redact: string -> string, c: Case, e: AuditEvent) {
    && e.CaseAction? && e.citations == c.citations && e.severity == c.severity
    && (if e.kind == EvaluateAction then e.redactedSummary == CaseText(redact, c.attributes, c.caseType)
        else e.caseFindings == [])
  }

  /** The record is about a stored review or case and quotes it. */
  ghost predicate Quotes(redact: string -> string, t: Table, cases: map<CaseKey, Case>, e: AuditEvent) {
    if e.SignOff? then
      (e.tenant, e.reviewId) in t && QuotesReview(redact, t[(e.tenant, e.reviewId)].request, e)
    else
      (e.tenant, e.caseId) in cases && QuotesCase(redact, cases[(e.tenant, e.caseId)], e)
  }

  ghost predicate AllQuote(redact: string -> string, s: System) {
    forall e :: e in s.console.audit ==> Quotes(redact, s.console.reviews, s.cases.rows, e)
  }

  /** What the operation adds to the trail quotes what is stored after it. */
  ghost predicate Adds(redact: string -> string, before: seq<AuditEvent>, st: ConsoleState, cases: map<CaseKey, Case>) {
    && before <= st.audit
    && forall i :: |before| <= i < |st.audit| ==> Quotes(redact, st.reviews, cases, st.audit[i])
  }

  lemma SubmitAdds(desk: Desk, st: ConsoleState, request: ReviewRequest, cases: map<CaseKey, Case>)
    ensures Adds(desk.redact, st.audit, Submit(desk, st, request).0, cases)
    ensures Adds(desk.redact, st.audit, SubmitIdempotent(desk, st, request).0, cases)
  {
    var item := NewItem(desk.policy, request);
    ProjectionLaws(desk.policy, ReviewItem(request, Pending, [], ""));
    ProjectionLaws(desk.policy, item);
  }

  lemma DisposeAdds(desk: Desk, st: ConsoleState, reviewId: string, d: ReviewDecision, cases: map<CaseKey, Case>)
    requires TableInv(st.reviews)
    ensures Adds(desk.redact, st.audit, DisposeReview(desk, st, reviewId, d).0, cases)
  {
    var r := DisposeReview(desk, st, reviewId, d).1;
    DisposeShape(desk, st, reviewId, d);
    if r.Ok? {
      var row := st.reviews[(d.checkerTenant, reviewId)];
      ProjectionLaws(desk.policy, row);
      DisposeVerdict(desk.policy, WithEffectiveRouting(desk.policy, row), d, Some(d.decidedAt));
    }
  }

  lemma EvaluatedAdds(env: Env, desk: Desk, s: System, l: Look)
    requires Consistent(s) && desk.redact == env.redact
    ensures Adds(env.redact, s.console.audit, EvaluateCase(env, desk, s, l).0.console, s.cases.rows)
  {
    var r := EvaluateCase(env, desk, s, l).1;
    if r.Ok? {
      var c := s.cases.rows[(l.tenant, l.caseId)];
      var recorded := Recorded(s.console, EvaluationEvent(env.redact, c, r.value, l));
      SubmitAdds(desk, recorded, EscalationRequest(desk, c, r.value, l), s.cases.rows);
    }
  }

  lemma OpenAdds(env: Env, s: System, o: Opening)
    ensures var s' := OpenCase(env, s, o).0; Adds(env.redact, s.console.audit, s'.console, s'.cases.rows)
  {}

  lemma MoveAdds(env: Env, s: System, m: Move)
    requires Consistent(s)
    ensures var s' := TransitionCase(env, s, m).0; Adds(env.redact, s.console.audit, s'.console, s'.cases.rows)
  {}

  lemma StepAdds(env: Env, s: System, cmd: Command)
    requires Consistent(s)
    ensures var s' := Step(env, s, cmd).0;
      Adds(env.redact, s.console.audit, s'.console, s'.cases.rows)
  {
    var desk := Desk(cmd.policy, env.redact);
    if cmd.op.OpenOp? {
      OpenAdds(env, s, cmd.op.opening);
    } else if cmd.op.MoveOp? {
      MoveAdds(env, s, cmd.op.move);
    } else {
      OthersLeaveCasesAlone(env, s, cmd);
      match cmd.op {
        case SubmitOp(request) => SubmitAdds(desk, s.console, request, s.cases.rows);
        case SubmitOnceOp(request) => SubmitAdds(desk, s.console, request, s.cases.rows);
        case DisposeOp(reviewId, d) => DisposeAdds(desk, s.console, reviewId, d, s.cases.rows);
        case EvaluateOp(l) => EvaluatedAdds(env, desk, s, l);
        case _ =>
      }
    }
  }

  lemma MoveAdvancesCases(env: Env, s: System, m: Move)
    requires Consistent(s)
    ensures CasesAdvance(s.cases, TransitionCase(env, s, m).0.cases)
  {
    var r := TransitionCase(env, s, m).1;
    if r.Ok? { assert CaseAdvances(s.cases.rows[(m.tenant, m.caseId)], r.value); }
  }

  /** Every step on fresh ids only advances the cases. */
  lemma StepAdvancesCases(env: Env, s: System, cmd: Command)
    requires Consistent(s) && FreshIds(s, cmd.op)
    ensures CasesAdvance(s.cases, Step(env, s, cmd).0.cases)
  {
    if cmd.op.OpenOp? {
    } else if cmd.op.MoveOp? {
      MoveAdvancesCases(env, s, cmd.op.move);
    } else {
      OthersLeaveCasesAlone(env, s, cmd);
    }
  }

  lemma StepKeepsQuotes(env: Env, s: System, cmd: Command)
    requires ConsoleInv(s.console) && Consistent(s) && FreshIds(s, cmd.op) && AllQuote(env.redact, s)
    ensures AllQuote(env.redact, Step(env, s, cmd).0)
  {
    var s' := Step(env, s, cmd).0;
    StepKeeps(env, s, cmd);
    StepAdvancesCases(env, s, cmd);
    StepAdds(env, s, cmd);
    forall e | e in s'.console.audit ensures Quotes(env.redact, s'.console.reviews, s'.cases.rows, e) {
      var i :| 0 <= i < |s'.console.audit| && s'.console.audit[i] == e;
      if i < |s.console.audit| {
        assert s.console.audit[i] == e && Quotes(env.redact, s.console.reviews, s.cases.rows, e);
        QuoteStays(env.redact, s, s', e);
      }
    }
  }

  lemma QuoteStays(redact: string -> string, s: System, s': System, e: AuditEvent)
    requires Advances(s.console, s'.console) && CasesAdvance(s.cases, s'.cases)
    requires Quotes(redact, s.console.reviews, s.cases.rows, e)
    ensures Quotes(redact, s'.console.reviews, s'.cases.rows, e)
  {
    if e.SignOff? {
      assert RowAdvances(s.console.reviews[(e.tenant, e.reviewId)], s'.console.reviews[(e.tenant, e.reviewId)]);
    } else {
      assert CaseAdvances(s.cases.rows[(e.tenant, e.caseId)], s'.cases.rows[(e.tenant, e.caseId)]);
    }
  }

  /** After any run every record is about a stored review or case and quotes it: sign-offs its
      redacted subject and summary, case evaluations its redacted type, and all of them its
      citations as they came. */
  lemma {:induction false} RecordsQuoteWhatIsStored(env: Env, s: System, cmds: seq<Command>)
    requires ConsoleInv(s.console) && Consistent(s) && FreshRun(env, s, cmds) && AllQuote(env.redact, s)
    ensures AllQuote(env.redact, Run(env, s, cmds))
    decreases |cmds|
  {
    if cmds != [] {
      StepKeeps(env, s, cmds[0]);
      StepKeepsQuotes(env, s, cmds[0]);
      RecordsQuoteWhatIsStored(env, Step(env, s, cmds[0]).0, cmds[1..]);
    }
  }

  // ---- what is not redacted --------------------------------------------------------------

  /** Some citation text is not what redaction would leave of it. */
  ghost predicate Unredacted(redact: string -> string, citations: seq<Citation>) {
    exists c :: c in citations
      && (redact(c.sourceId) != c.sourceId || redact(c.title) != c.title || redact(c.snippet) != c.snippet)
  }

  /** A review's records carry unredacted citation text exactly when its intake did, whichever way
      it came in and whatever happened since. */
  lemma CitationsReachTheTrailIff(env: Env, s: System, first: Command, after: seq<Command>, key: ReviewKey)
    requires ConsoleInv(s.console) && Consistent(s) && AllQuote(env.redact, s)
    requires FreshRun(env, s, [first] + after)
    requires key !in s.console.reviews && key in Step(env, s, first).0.console.reviews
    ensures AskedFor(s, first.op).Some?
    ensures var trail := Filter(SignOffsOf(key), Run(env, s, [first] + after).console.audit);
      (exists e :: e in trail && Unredacted(env.redact, e.citations))
      <==> Unredacted(env.redact, AskedFor(s, first.op).value.citations)
  {
    var s1 := Step(env, s, first).0;
    NewRowIsIntake(env, s, first, key);
    RunSplit(env, s, first, after);
    StepKeeps(env, s, first);
    StepKeepsQuotes(env, s, first);
    LaterTrailCarries(env, s1, after, key);
  }

  lemma LaterTrailCarries(env: Env, s: System, after: seq<Command>, key: ReviewKey)
    requires ConsoleInv(s.console) && Consistent(s) && AllQuote(env.redact, s) && FreshRun(env, s, after)
    requires key in s.console.reviews
    ensures (exists e ::
        e in Filter(SignOffsOf(key), Run(env, s, after).console.audit) && Unredacted(env.redact, e.citations))
      <==> Unredacted(env.redact, s.console.reviews[key].request.citations)
  {
    var later := Run(env, s, after);
    RunKeeps(env, s, after);
    RecordsQuoteWhatIsStored(env, s, after);
    assert RowAdvances(s.console.reviews[key], later.console.reviews[key]);
    TrailCarries(env.redact, later, key);
  }

  lemma TrailCarries(redact: string -> string, s: System, key: ReviewKey)
    requires AllQuote(redact, s) && ConsoleInv(s.console) && key in s.console.reviews
    ensures (exists e :: e in Filter(SignOffsOf(key), s.console.audit) && Unredacted(redact, e.citations))
      <==> Unredacted(redact, s.console.reviews[key].request.citations)
  {
    var trail := Filter(SignOffsOf(key), s.console.audit);
    assert TrailMatches(s.console, key);
    assert trail[0] in trail;
    assert forall e :: e in trail ==> Quotes(redact, s.console.reviews, s.cases.rows, e);
  }

  /** One submission leaves any citation text at all on the trail as it came. */
  lemma CitationRecordedRaw(env: Env, policy: RoutingPolicy, request: ReviewRequest, raw: string)
    requires request.citations == [Citation(raw, raw, raw)]
    ensures var audit := Run(env, EMPTY, [Command(policy, SubmitOp(request))]).console.audit;
      |audit| == 1 && audit[0].citations == [Citation(raw, raw, raw)]
  {
    RunSplit(env, EMPTY, Command(policy, SubmitOp(request)), []);
    ProjectionLaws(policy, ReviewItem(request, Pending, [], ""));
  }

  ghost function CaseRecordsOf(key: CaseKey): AuditEvent -> bool {
    (e: AuditEvent) => e.CaseAction? && (e.tenant, e.caseId) == key
  }

  lemma {:induction false} RunAdvancesCases(env: Env, s: System, cmds: seq<Command>)
    requires Consistent(s) && FreshRun(env, s, cmds)
    ensures CasesAdvance(s.cases, Run(env, s, cmds).cases)
    decreases |cmds|
  {
    if cmds != [] {
      var s1 := Step(env, s, cmds[0]).0;
      StepKeepsConsistent(env, s, cmds[0]);
      StepAdvancesCases(env, s, cmds[0]);
      RunAdvancesCases(env, s1, cmds[1..]);
      CasesAdvanceTransitive(s.cases, s1.cases, Run(env, s, cmds).cases);
    }
  }

  /** A case's records carry unredacted citation text exactly when its opening did. */
  lemma CaseCitationsReachTheTrailIff(env: Env, s: System, first: Command, after: seq<Command>)
    requires ConsoleInv(s.console) && Consistent(s) && AllQuote(env.redact, s) && FreshRun(env, s, [first] + after)
    requires first.op.OpenOp? && first.op.opening.caseType in env.definitions
    ensures var o := first.op.opening;
      var trail := Filter(CaseRecordsOf((o.tenant, o.caseId)), Run(env, s, [first] + after).console.audit);
      (exists e :: e in trail && Unredacted(env.redact, e.citations)) <==> Unredacted(env.redact, o.citations)
  {
    var o, s1 := first.op.opening, Step(env, s, first).0;
    RunSplit(env, s, first, after);
    StepKeeps(env, s, first);
    StepKeepsQuotes(env, s, first);
    LaterCaseTrailCarries(env, s1, after, OpeningOf(env, o), OpeningEvent(env.redact, OpeningOf(env, o), o));
  }

  lemma LaterCaseTrailCarries(env: Env, s: System, after: seq<Command>, c: Case, opening: AuditEvent)
    requires ConsoleInv(s.console) && Consistent(s) && AllQuote(env.redact, s) && FreshRun(env, s, after)
    requires CaseKeyOf(c) in s.cases.rows && s.cases.rows[CaseKeyOf(c)] == c
    requires opening in s.console.audit && CaseRecordsOf(CaseKeyOf(c))(opening)
    ensures (exists e ::
        e in Filter(CaseRecordsOf(CaseKeyOf(c)), Run(env, s, after).console.audit)
        && Unredacted(env.redact, e.citations))
      <==> Unredacted(env.redact, c.citations)
  {
    var later := Run(env, s, after);
    RunKeeps(env, s, after);
    RunAdvancesCases(env, s, after);
    RecordsQuoteWhatIsStored(env, s, after);
    assert CaseAdvances(c, later.cases.rows[CaseKeyOf(c)]);
    assert opening in later.console.audit by {
      var i :| 0 <= i < |s.console.audit| && s.console.audit[i] == opening;
      assert later.console.audit[i] == opening;
    }
    var trail := Filter(CaseRecordsOf(CaseKeyOf(c)), later.console.audit);
    assert opening in trail;
    forall e | e in trail ensures e.citations == c.citations {
      assert Quotes(env.redact, later.console.reviews, later.cases.rows, e);
    }
  }

  /** And one opening leaves any citation text at all on the trail as it came. */
  lemma CaseCitationRecordedRaw(env: Env, policy: RoutingPolicy, o: Opening, raw: string)
    requires o.caseType in env.definitions && o.citations == [Citation(raw, raw, raw)]
    ensures var audit := Run(env, EMPTY, [Command(policy, OpenOp(o))]).console.audit;
      |audit| == 1 && audit[0].citations == [Citation(raw, raw, raw)]
  {
    RunSplit(env, EMPTY, Command(policy, OpenOp(o)), []);
  }
}
