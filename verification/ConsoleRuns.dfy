/** What every serial run of the service keeps about its reviews: the trail determines the
    store, items only advance, four-eyes holds, the requirement ratchets, and keyed intake
    happens once. */
module ConsoleRuns {
  import opened Kernel
  import opened CaseModels
  import opened CasePorts
  import opened ReviewModels
  import opened MakerChecker
  import opened ReviewStore
  import opened Console
  import opened Workflow
  import opened Platform

  // ---- the trail of one review -----------------------------------------------------------

  ghost function SignOffsOf(key: ReviewKey): AuditEvent -> bool {
    (e: AuditEvent) => e.SignOff? && (e.tenant, e.reviewId) == key
  }

  ghost function ActionsOf(key: ReviewKey, action: SignOffAction): AuditEvent -> bool {
    (e: AuditEvent) => e.SignOff? && (e.tenant, e.reviewId) == key && e.action == action
  }

  datatype Rebuilt = Unsubmitted | Rebuilt(state: ReviewState, approvers: seq<string>) | Malformed

  /** One more record. An allowed one must fit: a review is submitted once and first, only a pending
      one is disposed of, and nobody approves twice. */
  ghost function Fold(before: Rebuilt, e: AuditEvent): Rebuilt {
    if !e.SignOff? || e.decision == Denied then before
    else if e.action == SubmitAction then
      if before.Unsubmitted? then Rebuilt(Pending, []) else Malformed
    else if !before.Rebuilt? || before.state != Pending then Malformed
    else match e.disposition
         case Approve =>
           if e.checker in before.approvers || (e.state != Pending && e.state != Approved) then Malformed
           else Rebuilt(e.state, before.approvers + [e.checker])
         case Reject => Rebuilt(Rejected, before.approvers)
         case Amend => Rebuilt(Amended, before.approvers)
  }

  /** Fold the allowed sign-offs over the submission. */
  ghost function Rebuild(trail: seq<AuditEvent>): Rebuilt {
    if trail == [] then Unsubmitted else Fold(Rebuild(trail[..|trail| - 1]), trail[|trail| - 1])
  }

  lemma RebuildSnoc(trail: seq<AuditEvent>, e: AuditEvent)
    ensures Rebuild(trail + [e]) == Fold(Rebuild(trail), e)
  {
    assert (trail + [e])[..|trail|] == trail;
  }

  /** The trail of a stored review rebuilds its state and its approvers in order, ends in its
      state, submits it once and names its maker throughout; an unknown review has no trail. */
  ghost predicate TrailMatches(st: ConsoleState, key: ReviewKey) {
    var trail := Filter(SignOffsOf(key), st.audit);
    if key in st.reviews then
      var item := st.reviews[key];
      && Rebuild(trail) == Rebuilt(item.state, item.Approvers())
      && trail != [] && trail[|trail| - 1].SignOff? && trail[|trail| - 1].state == item.state
      && |Filter(ActionsOf(key, SubmitAction), st.audit)| == 1
      && (forall e :: e in trail ==> e.maker == item.request.maker && e.severity == item.request.severity)
    else
      trail == [] && Filter(ActionsOf(key, SubmitAction), st.audit) == []
  }

  ghost predicate ConsoleInv(st: ConsoleState) {
    && TableInv(st.reviews)
    && (forall key :: TrailMatches(st, key))
    && (forall key :: key in st.reviews ==> Sound(st.reviews[key]))
  }

  /** An item only advances: its request is fixed but for a requirement that never drops, its
      approvals only grow, and once terminal it never changes. */
  ghost predicate RowAdvances(a: ReviewItem, b: ReviewItem) {
    && b.request == a.request.(requiredApprovals := b.request.requiredApprovals)
    && a.request.requiredApprovals <= b.request.requiredApprovals
    && a.approvals <= b.approvals
    && (a.IsTerminal() ==> b == a)
  }

  /** No review is ever lost or rolled back, and the audit trail is append-only. */
  ghost predicate Advances(a: ConsoleState, b: ConsoleState) {
    && a.audit <= b.audit
    && forall key :: key in a.reviews ==> key in b.reviews && RowAdvances(a.reviews[key], b.reviews[key])
  }

  lemma AdvancesTransitive(a: ConsoleState, b: ConsoleState, c: ConsoleState)
    requires Advances(a, b) && Advances(b, c)
    ensures Advances(a, c)
  {
    forall key | key in a.reviews
      ensures key in c.reviews && RowAdvances(a.reviews[key], c.reviews[key])
    {
      assert RowAdvances(a.reviews[key], b.reviews[key]) && RowAdvances(b.reviews[key], c.reviews[key]);
    }
  }

  // ---- one operation at a time -----------------------------------------------------------

  /** Filing `item` under its key together with one sign-off about it touches no other trail. */
  lemma OtherTrailsKept(st: ConsoleState, item: ReviewItem, e: AuditEvent, key: ReviewKey)
    requires e.SignOff? && (e.tenant, e.reviewId) == KeyOf(item) && key != KeyOf(item) && TrailMatches(st, key)
    ensures TrailMatches(ConsoleState(st.reviews[KeyOf(item) := item], st.audit + [e]), key)
  {
    FilterSnoc(SignOffsOf(key), st.audit, e);
    FilterSnoc(ActionsOf(key, SubmitAction), st.audit, e);
  }

  /** The item's own trail matches once the sign-off takes the fold where the item is. */
  lemma OwnTrailExtended(st: ConsoleState, item: ReviewItem, e: AuditEvent)
    requires e.SignOff? && (e.tenant, e.reviewId) == KeyOf(item) && TrailMatches(st, KeyOf(item))
    requires e.state == item.state && e.maker == item.request.maker && e.severity == item.request.severity
    requires e.action == SubmitAction <==> KeyOf(item) !in st.reviews
    requires KeyOf(item) in st.reviews ==>
      st.reviews[KeyOf(item)].request.maker == e.maker && st.reviews[KeyOf(item)].request.severity == e.severity
    requires Rebuild(Filter(SignOffsOf(KeyOf(item)), st.audit) + [e]) == Rebuilt(item.state, item.Approvers())
    ensures TrailMatches(ConsoleState(st.reviews[KeyOf(item) := item], st.audit + [e]), KeyOf(item))
  {
    FilterSnoc(SignOffsOf(KeyOf(item)), st.audit, e);
    FilterSnoc(ActionsOf(KeyOf(item), SubmitAction), st.audit, e);
  }

  lemma CaseEventKeeps(st: ConsoleState, e: AuditEvent)
    requires ConsoleInv(st) && e.CaseAction?
    ensures ConsoleInv(Recorded(st, e)) && Advances(st, Recorded(st, e))
  {
    forall key ensures TrailMatches(Recorded(st, e), key) {
      assert TrailMatches(st, key);
      FilterSnoc(SignOffsOf(key), st.audit, e);
      FilterSnoc(ActionsOf(key, SubmitAction), st.audit, e);
    }
  }

  lemma IntakeKeeps(desk: Desk, st: ConsoleState, item: ReviewItem)
    requires ConsoleInv(st) && KeyOf(item) !in st.reviews && !KeyTaken(st.reviews, item)
    requires item.state == Pending && item.approvals == [] && 1 <= item.request.requiredApprovals
    ensures var st' := ConsoleState(st.reviews[KeyOf(item) := item], st.audit + [SubmissionEvent(desk, item)]);
      ConsoleInv(st') && Advances(st, st')
  {
    var e := SubmissionEvent(desk, item);
    var st' := ConsoleState(st.reviews[KeyOf(item) := item], st.audit + [e]);
    PutKeepsInv(st.reviews, item);
    assert Sound(item) && item.Approvers() == [];
    forall key ensures TrailMatches(st', key) {
      assert TrailMatches(st, key) && TrailMatches(st, KeyOf(item));
      if key == KeyOf(item) {
        RebuildSnoc(Filter(SignOffsOf(key), st.audit), e);
        OwnTrailExtended(st, item, e);
      } else {
        OtherTrailsKept(st, item, e, key);
      }
    }
  }

  lemma SubmitKeeps(desk: Desk, st: ConsoleState, request: ReviewRequest)
    requires ConsoleInv(st) && (request.tenant, request.reviewId) !in st.reviews
    ensures ConsoleInv(Submit(desk, st, request).0) && Advances(st, Submit(desk, st, request).0)
  {
    if Submit(desk, st, request).1.Ok? {
      IntakeKeeps(desk, st, NewItem(desk.policy, request));
    }
  }

  lemma SubmitOnceKeeps(desk: Desk, st: ConsoleState, request: ReviewRequest)
    requires ConsoleInv(st) && (request.tenant, request.reviewId) !in st.reviews
    ensures ConsoleInv(SubmitIdempotent(desk, st, request).0) && Advances(st, SubmitIdempotent(desk, st, request).0)
  {
    var item := NewItem(desk.policy, request);
    ProjectionLaws(desk.policy, item);
    if item.request.sourceKey != "" {
      LookupAgreesWithScan(st.reviews, item.request.tenant, item.request.sourceKey);
    }
    if FindBySourceKey(st.reviews, item.request.tenant, item.request.sourceKey).None? {
      assert !KeyTaken(st.reviews, item) by {
        if KeyTaken(st.reviews, item) {
          var k :| k in st.reviews && k != KeyOf(item) && k.0 == item.request.tenant
            && st.reviews[k].request.sourceKey == item.request.sourceKey;
          ScanMember(st.reviews, k);
        }
      }
      IntakeKeeps(desk, st, item);
    }
  }

  /** A stored row's own key is never taken by another row. */
  lemma OwnKeyFree(t: Table, item: ReviewItem)
    requires TableInv(t) && KeyOf(item) in t && item.request.sourceKey == t[KeyOf(item)].request.sourceKey
    ensures !KeyTaken(t, item)
  {}

  /** A disposition returns exactly on a stored pending item; then it records one sign-off and
      stores the outcome if it was allowed. Otherwise nothing changes at all. */
  lemma DisposeShape(desk: Desk, st: ConsoleState, reviewId: string, d: ReviewDecision)
    requires TableInv(st.reviews)
    ensures var (st', r) := DisposeReview(desk, st, reviewId, d);
      var key := (d.checkerTenant, reviewId);
      && (r.Ok? <==> key in st.reviews && !st.reviews[key].IsTerminal())
      && (r.Err? ==> st' == st && r.error != Integrity)
      && (r.Ok? ==>
            && Dispose(desk.policy, WithEffectiveRouting(desk.policy, st.reviews[key]), d, Some(d.decidedAt))
                 == Ok(r.value)
            && KeyOf(r.value.item) == key
            && st'.audit == st.audit + [DispositionEvent(desk, r.value, d)]
            && st'.reviews == (if r.value.decision == Allowed then st.reviews[key := r.value.item] else st.reviews))
  {
    var key := (d.checkerTenant, reviewId);
    if key in st.reviews && !st.reviews[key].IsTerminal() {
      var item := WithEffectiveRouting(desk.policy, st.reviews[key]);
      ProjectionLaws(desk.policy, st.reviews[key]);
      DisposeVerdict(desk.policy, item, d, Some(d.decidedAt));
      OwnKeyFree(st.reviews, Dispose(desk.policy, item, d, Some(d.decidedAt)).value.item);
    }
  }

  lemma DisposeKeeps(desk: Desk, st: ConsoleState, reviewId: string, d: ReviewDecision)
    requires ConsoleInv(st)
    ensures var st' := DisposeReview(desk, st, reviewId, d).0;
      ConsoleInv(st') && Advances(st, st')
  {
    var key := (d.checkerTenant, reviewId);
    DisposeShape(desk, st, reviewId, d);
    DisposeKeepsTableInv(desk, st, reviewId, d);
    if key in st.reviews && !st.reviews[key].IsTerminal() {
      var (st', r) := DisposeReview(desk, st, reviewId, d);
      var item := WithEffectiveRouting(desk.policy, st.reviews[key]);
      DispositionAdvances(desk, st.reviews[key], r.value, d);
      assert forall k: ReviewKey :: TrailMatches(st', k) by {
        ProjectionLaws(desk.policy, st.reviews[key]);
        DispositionTrail(desk, st, item, r.value, d);
      }
    }
  }

  lemma DispositionAdvances(desk: Desk, stored: ReviewItem, outcome: DispositionOutcome, d: ReviewDecision)
    requires Sound(stored) && !stored.IsTerminal()
    requires Dispose(desk.policy, WithEffectiveRouting(desk.policy, stored), d, Some(d.decidedAt)) == Ok(outcome)
    ensures Sound(outcome.item) && RowAdvances(stored, outcome.item)
  {
    var item := WithEffectiveRouting(desk.policy, stored);
    ProjectionLaws(desk.policy, stored);
    DisposeVerdict(desk.policy, item, d, Some(d.decidedAt));
    DisposeKeepsSound(desk.policy, item, d, Some(d.decidedAt));
  }

  lemma DispositionTrail(desk: Desk, st: ConsoleState, item: ReviewItem, outcome: DispositionOutcome, d: ReviewDecision)
    requires ConsoleInv(st) && KeyOf(item) in st.reviews && !item.IsTerminal()
    requires item == WithEffectiveRouting(desk.policy, st.reviews[KeyOf(item)])
    requires Dispose(desk.policy, item, d, Some(d.decidedAt)) == Ok(outcome)
    ensures var st' := ConsoleState(
        if outcome.decision == Allowed then st.reviews[KeyOf(item) := outcome.item] else st.reviews,
        st.audit + [DispositionEvent(desk, outcome, d)]);
      forall key: ReviewKey :: TrailMatches(st', key)
  {
    var e := DispositionEvent(desk, outcome, d);
    var stored := st.reviews[KeyOf(item)];
    ProjectionLaws(desk.policy, stored);
    var row := if outcome.decision == Allowed then outcome.item else stored;
    DisposeVerdict(desk.policy, item, d, Some(d.decidedAt));
    assert st.reviews[KeyOf(item) := stored] == st.reviews;
    var st' := ConsoleState(st.reviews[KeyOf(item) := row], st.audit + [e]);
    assert TrailMatches(st, KeyOf(item));
    DispositionFolds(desk, Filter(SignOffsOf(KeyOf(item)), st.audit), item, outcome, d);
    assert row.Approvers() == outcome.item.Approvers();
    forall key: ReviewKey ensures TrailMatches(st', key) {
      assert TrailMatches(st, key);
      if key == KeyOf(item) {
        OwnTrailExtended(st, row, e);
      } else {
        OtherTrailsKept(st, row, e, key);
      }
    }
  }

  /** Appending the sign-off of a disposition to a trail that folds to the item folds to the
      outcome. */
  lemma DispositionFolds(
    desk: Desk, trail: seq<AuditEvent>, item: ReviewItem, outcome: DispositionOutcome, d: ReviewDecision)
    requires Rebuild(trail) == Rebuilt(item.state, item.Approvers()) && !item.IsTerminal()
    requires Dispose(desk.policy, item, d, Some(d.decidedAt)) == Ok(outcome)
    ensures Rebuild(trail + [DispositionEvent(desk, outcome, d)])
      == Rebuilt(outcome.item.state, outcome.item.Approvers())
  {
    DisposeVerdict(desk.policy, item, d, Some(d.decidedAt));
    RebuildSnoc(trail, DispositionEvent(desk, outcome, d));
    if outcome.decision == Allowed && d.disposition == Approve {
      ApproversSnoc(item, Approval(d.checker, d.reason, d.decidedAt), outcome.item.state);
      assert outcome.item.Approvers() == item.Approvers() + [d.checker];
    } else {
      assert outcome.item.Approvers() == item.Approvers();
    }
  }

  lemma EvaluatedKeeps(env: Env, desk: Desk, st: ConsoleState, c: Case, a: CaseAssessment, l: Look)
    requires ConsoleInv(st) && (c.tenant, l.reviewId) !in st.reviews
    ensures ConsoleInv(Evaluated(env, desk, st, c, a, l)) && Advances(st, Evaluated(env, desk, st, c, a, l))
  {
    var recorded := Recorded(st, EvaluationEvent(env.redact, c, a, l));
    CaseEventKeeps(st, EvaluationEvent(env.redact, c, a, l));
    SubmitKeeps(desk, recorded, EscalationRequest(desk, c, a, l));
    AdvancesTransitive(st, recorded, Submit(desk, recorded, EscalationRequest(desk, c, a, l)).0);
  }

  /** Opening and moving a case reach the console only as one case event on the trail. */
  lemma CaseStepRecordsOnly(env: Env, s: System, cmd: Command) returns (e: AuditEvent)
    requires cmd.op.OpenOp? || cmd.op.MoveOp?
    ensures Step(env, s, cmd).0.console == s.console
      || (e.CaseAction? && e.caseDecision != CaseEscalated && Step(env, s, cmd).0.console == Recorded(s.console, e))
  {
    var audit, audit' := s.console.audit, Step(env, s, cmd).0.console.audit;
    if |audit| < |audit'| {
      e := audit'[|audit|];
    } else {
      e :| true;
    }
  }

  /** Every step on fresh ids keeps the console's invariant and only advances its reviews. */
  lemma StepKeeps(env: Env, s: System, cmd: Command)
    requires ConsoleInv(s.console) && Consistent(s) && FreshIds(s, cmd.op)
    ensures var s' := Step(env, s, cmd).0;
      ConsoleInv(s'.console) && Consistent(s') && Advances(s.console, s'.console)
  {
    var desk := Desk(cmd.policy, env.redact);
    StepKeepsConsistent(env, s, cmd);
    if cmd.op.OpenOp? || cmd.op.MoveOp? {
      var e := CaseStepRecordsOnly(env, s, cmd);
      if Step(env, s, cmd).0.console != s.console { CaseEventKeeps(s.console, e); }
    } else {
      match cmd.op {
        case SubmitOp(request) => SubmitKeeps(desk, s.console, request);
        case SubmitOnceOp(request) => SubmitOnceKeeps(desk, s.console, request);
        case DisposeOp(reviewId, decision) => DisposeKeeps(desk, s.console, reviewId, decision);
        case EvaluateOp(l) =>
          var r := EvaluateCase(env, desk, s, l).1;
          if r.Ok? { EvaluatedKeeps(env, desk, s.console, s.cases.rows[(l.tenant, l.caseId)], r.value, l); }
        case _ =>
      }
    }
  }

  // ---- whole runs ------------------------------------------------------------------------

  lemma {:induction false} RunKeeps(env: Env, s: System, cmds: seq<Command>)
    requires ConsoleInv(s.console) && Consistent(s) && FreshRun(env, s, cmds)
    ensures var s' := Run(env, s, cmds);
      ConsoleInv(s'.console) && Consistent(s') && Advances(s.console, s'.console)
    decreases |cmds|
  {
    if cmds != [] {
      var s1 := Step(env, s, cmds[0]).0;
      StepKeeps(env, s, cmds[0]);
      RunKeeps(env, s1, cmds[1..]);
      AdvancesTransitive(s.console, s1.console, Run(env, s, cmds).console);
    }
  }

  /** The trail determines the store: after any serial run, folding a review's sign-offs gives
      exactly its stored state and its approvers in order. */
  lemma TrailDeterminesStore(env: Env, cmds: seq<Command>, key: ReviewKey)
    requires FreshRun(env, EMPTY, cmds)
    ensures TrailMatches(Run(env, EMPTY, cmds).console, key)
  {
    RunKeeps(env, EMPTY, cmds);
  }

  /** Four eyes in every serial run, whatever policies come and go. */
  lemma StoredReviewsAreSound(env: Env, cmds: seq<Command>, key: ReviewKey)
    requires FreshRun(env, EMPTY, cmds) && key in Run(env, EMPTY, cmds).console.reviews
    ensures Sound(Run(env, EMPTY, cmds).console.reviews[key])
  {
    RunKeeps(env, EMPTY, cmds);
  }

  /** Between any two points of a serial run reviews only advance. */
  lemma ReviewsOnlyAdvance(env: Env, before: seq<Command>, after: seq<Command>)
    requires FreshRun(env, EMPTY, before) && FreshRun(env, Run(env, EMPTY, before), after)
    ensures Advances(Run(env, EMPTY, before).console, Run(env, Run(env, EMPTY, before), after).console)
  {
    RunKeeps(env, EMPTY, before);
    RunKeeps(env, Run(env, EMPTY, before), after);
  }

  /** What a returned disposition leaves behind: one record that names the maker and the checker,
      gives the redacted reason, is allowed exactly when the checker was eligible, lists exactly
      the reasons that bar, and shows the state the store now holds. */
  lemma VerdictIsRecorded(desk: Desk, st: ConsoleState, reviewId: string, d: ReviewDecision)
    requires TableInv(st.reviews) && DisposeReview(desk, st, reviewId, d).1.Ok?
    ensures var key := (d.checkerTenant, reviewId);
      var st' := DisposeReview(desk, st, reviewId, d).0;
      && key in st.reviews && st'.reviews.Keys == st.reviews.Keys
      && |st'.audit| == |st.audit| + 1 && st.audit <= st'.audit
      && var row := st.reviews[key];
         var e := st'.audit[|st.audit|];
         && ActionsOf(key, DisposeAction)(e)
         && e.maker == row.request.maker && e.checker == d.checker && e.disposition == d.disposition
         && e.redactedReason == desk.redact(d.reason)
         && e.redactedSummary == desk.redact(row.request.subject + " :: " + row.request.summary)
         && e.severity == row.request.severity && e.citations == row.request.citations
         && (e.decision == Allowed <==> Eligible(desk.policy, row, d.checker, d.checkerTenant, d.checkerGroups))
         && (forall f :: f in e.findings <==> Bars(f, desk.policy, row, d.checker, d.checkerTenant, d.checkerGroups))
         && e.state == st'.reviews[key].state
         && (e.decision == Denied ==> st'.reviews == st.reviews)
  {
    var row := st.reviews[(d.checkerTenant, reviewId)];
    var item := WithEffectiveRouting(desk.policy, row);
    ProjectionLaws(desk.policy, row);
    DisposeVerdict(desk.policy, item, d, Some(d.decidedAt));
    NoFindingsIffEligible(desk.policy, item, d.checker, d.checkerTenant, d.checkerGroups);
    assert forall f ::
      Bars(f, desk.policy, item, d.checker, d.checkerTenant, d.checkerGroups)
      == Bars(f, desk.policy, row, d.checker, d.checkerTenant, d.checkerGroups);
  }

  // ---- one sign-off per disposition ------------------------------------------------------

  /** The command is a disposition of this review that returned a verdict. */
  ghost predicate Returned(env: Env, s: System, cmd: Command, key: ReviewKey) {
    cmd.op.DisposeOp? && (cmd.op.decision.checkerTenant, cmd.op.reviewId) == key
    && Step(env, s, cmd).1.outcome.Ok?
  }

  /** The dispositions of a review that returned a verdict, in order. */
  ghost function Answered(env: Env, s: System, cmds: seq<Command>, key: ReviewKey): seq<Command>
    decreases |cmds|
  {
    if cmds == [] then []
    else
      (if Returned(env, s, cmds[0], key) then [cmds[0]] else [])
      + Answered(env, Step(env, s, cmds[0]).0, cmds[1..], key)
  }

  ghost function DispositionsOn(st: ConsoleState, key: ReviewKey): seq<AuditEvent> {
    Filter(ActionsOf(key, DisposeAction), st.audit)
  }

  /** The record tells who disposed of what, how, and why in redacted form. */
  ghost predicate Records(redact: string -> string, e: AuditEvent, cmd: Command) {
    && e.SignOff? && cmd.op.DisposeOp?
    && e.checker == cmd.op.decision.checker && e.disposition == cmd.op.decision.disposition
    && e.redactedReason == redact(cmd.op.decision.reason)
  }

  /** The trail grows by one record for each of these commands, in order. */
  ghost predicate GrowsBy(
    redact: string -> string, was: seq<AuditEvent>, now: seq<AuditEvent>, answered: seq<Command>)
  {
    && |now| == |was| + |answered| && was <= now
    && forall i :: 0 <= i < |answered| ==> Records(redact, now[|was| + i], answered[i])
  }

  lemma GrowthAdds(
    redact: string -> string, a: seq<AuditEvent>, b: seq<AuditEvent>, c: seq<AuditEvent>, first: seq<Command>,
    after: seq<Command>)
    requires GrowsBy(redact, a, b, first) && GrowsBy(redact, b, c, after)
    ensures GrowsBy(redact, a, c, first + after)
  {
    forall i | 0 <= i < |first + after| ensures Records(redact, c[|a| + i], (first + after)[i]) {
      if i < |first| {
        assert c[|a| + i] == b[|a| + i];
      } else {
        assert c[|a| + i] == c[|b| + (i - |first|)];
      }
    }
  }

  lemma SubmitAddsNoDisposition(desk: Desk, st: ConsoleState, request: ReviewRequest, key: ReviewKey)
    ensures DispositionsOn(Submit(desk, st, request).0, key) == DispositionsOn(st, key)
    ensures DispositionsOn(SubmitIdempotent(desk, st, request).0, key) == DispositionsOn(st, key)
  {
    var item := NewItem(desk.policy, request);
    ProjectionLaws(desk.policy, item);
    FilterSnoc(ActionsOf(key, DisposeAction), st.audit, SubmissionEvent(desk, item));
  }

  lemma EvaluatedAddsNoDisposition(
    env: Env, desk: Desk, st: ConsoleState, c: Case, a: CaseAssessment, l: Look, key: ReviewKey)
    ensures DispositionsOn(Evaluated(env, desk, st, c, a, l), key) == DispositionsOn(st, key)
  {
    var e := EvaluationEvent(env.redact, c, a, l);
    FilterSnoc(ActionsOf(key, DisposeAction), st.audit, e);
    SubmitAddsNoDisposition(desk, Recorded(st, e), EscalationRequest(desk, c, a, l), key);
  }

  lemma DisposeAddsOne(desk: Desk, st: ConsoleState, cmd: Command, key: ReviewKey)
    requires TableInv(st.reviews) && cmd.op.DisposeOp?
    ensures var d := cmd.op.decision;
      var (st', r) := DisposeReview(desk, st, cmd.op.reviewId, d);
      GrowsBy(desk.redact, DispositionsOn(st, key), DispositionsOn(st', key),
              if r.Ok? && (d.checkerTenant, cmd.op.reviewId) == key then [cmd] else [])
  {
    var r := DisposeReview(desk, st, cmd.op.reviewId, cmd.op.decision).1;
    DisposeShape(desk, st, cmd.op.reviewId, cmd.op.decision);
    if r.Ok? {
      FilterSnoc(ActionsOf(key, DisposeAction), st.audit, DispositionEvent(desk, r.value, cmd.op.decision));
    }
  }

  lemma StepAddsDispositions(env: Env, s: System, cmd: Command, key: ReviewKey)
    requires Consistent(s)
    ensures GrowsBy(env.redact, DispositionsOn(s.console, key), DispositionsOn(Step(env, s, cmd).0.console, key),
                    if Returned(env, s, cmd, key) then [cmd] else [])
  {
    var desk := Desk(cmd.policy, env.redact);
    if cmd.op.OpenOp? || cmd.op.MoveOp? {
      var e := CaseStepRecordsOnly(env, s, cmd);
      FilterSnoc(ActionsOf(key, DisposeAction), s.console.audit, e);
    } else {
      match cmd.op {
        case SubmitOp(request) => SubmitAddsNoDisposition(desk, s.console, request, key);
        case SubmitOnceOp(request) => SubmitAddsNoDisposition(desk, s.console, request, key);
        case DisposeOp(_, _) => DisposeAddsOne(desk, s.console, cmd, key);
        case EvaluateOp(l) =>
          var r := EvaluateCase(env, desk, s, l).1;
          if r.Ok? {
            EvaluatedAddsNoDisposition(env, desk, s.console, s.cases.rows[(l.tenant, l.caseId)], r.value, l, key);
          }
        case _ =>
      }
    }
  }

  /** The trail of a review gains exactly one record per disposition that returned, allowed or
      denied, in order and with the redacted reason, and none for one that raised. */
  lemma {:induction false} OneSignOffPerDisposition(env: Env, s: System, cmds: seq<Command>, key: ReviewKey)
    requires Consistent(s)
    ensures GrowsBy(env.redact, DispositionsOn(s.console, key), DispositionsOn(Run(env, s, cmds).console, key),
                    Answered(env, s, cmds, key))
    decreases |cmds|
  {
    if cmds != [] {
      var s1 := Step(env, s, cmds[0]).0;
      StepKeepsConsistent(env, s, cmds[0]);
      StepAddsDispositions(env, s, cmds[0], key);
      OneSignOffPerDisposition(env, s1, cmds[1..], key);
      GrowthAdds(
        env.redact, DispositionsOn(s.console, key), DispositionsOn(s1.console, key),
        DispositionsOn(Run(env, s, cmds).console, key), if Returned(env, s, cmds[0], key) then [cmds[0]] else [],
        Answered(env, s1, cmds[1..], key));
    }
  }

  // ---- the requirement ratchets ----------------------------------------------------------

  /** The command is an applied disposition of this review. */
  ghost predicate Applied(env: Env, s: System, cmd: Command, key: ReviewKey) {
    Returned(env, s, cmd, key) && Step(env, s, cmd).1.outcome.value.decision == Allowed
  }

  /** The largest of a starting requirement and the floors in force at a review's applied
      dispositions. */
  ghost function Raised(env: Env, s: System, cmds: seq<Command>, key: ReviewKey, severity: Severity, required: int): int
    decreases |cmds|
  {
    if cmds == [] then required
    else
      var floor := cmds[0].policy.Floor(severity);
      var next := if Applied(env, s, cmds[0], key) && required < floor then floor else required;
      Raised(env, Step(env, s, cmds[0]).0, cmds[1..], key, severity, next)
  }

  lemma StepRaises(env: Env, s: System, cmd: Command, key: ReviewKey)
    requires ConsoleInv(s.console) && Consistent(s) && FreshIds(s, cmd.op) && key in s.console.reviews
    ensures var s' := Step(env, s, cmd).0;
      var request := s.console.reviews[key].request;
      var required, floor := request.requiredApprovals, cmd.policy.Floor(request.severity);
      && key in s'.console.reviews
      && s'.console.reviews[key].request.requiredApprovals
           == if Applied(env, s, cmd, key) && required < floor then floor else required
  {
    if cmd.op.DisposeOp? {
      var desk, d := Desk(cmd.policy, env.redact), cmd.op.decision;
      DisposeShape(desk, s.console, cmd.op.reviewId, d);
      if Returned(env, s, cmd, key) {
        var item := WithEffectiveRouting(desk.policy, s.console.reviews[key]);
        ProjectionLaws(desk.policy, s.console.reviews[key]);
        DisposeVerdict(desk.policy, item, d, Some(d.decidedAt));
      }
    } else {
      OthersKeepRows(env, s, cmd, key);
    }
  }

  /** Only a disposition changes a stored review. */
  lemma OthersKeepRows(env: Env, s: System, cmd: Command, key: ReviewKey)
    requires !cmd.op.DisposeOp? && FreshIds(s, cmd.op) && key in s.console.reviews && Consistent(s)
    ensures var t := Step(env, s, cmd).0.console.reviews;
      key in t && t[key] == s.console.reviews[key]
  {
    var desk := Desk(cmd.policy, env.redact);
    if cmd.op.OpenOp? || cmd.op.MoveOp? {
      var e := CaseStepRecordsOnly(env, s, cmd);
    } else {
      match cmd.op {
        case SubmitOp(request) => IntakeKeepsRows(desk, s.console, request, key);
        case SubmitOnceOp(request) => IntakeKeepsRows(desk, s.console, request, key);
        case EvaluateOp(l) =>
          var r := EvaluateCase(env, desk, s, l).1;
          if r.Ok? { EvaluatedKeepsRows(env, desk, s.console, s.cases.rows[(l.tenant, l.caseId)], r.value, l, key); }
        case _ =>
      }
    }
  }

  lemma EvaluatedKeepsRows(env: Env, desk: Desk, st: ConsoleState, c: Case, a: CaseAssessment, l: Look, key: ReviewKey)
    requires (c.tenant, l.reviewId) !in st.reviews && key in st.reviews
    ensures var t := Evaluated(env, desk, st, c, a, l).reviews; key in t && t[key] == st.reviews[key]
  {
    IntakeKeepsRows(desk, Recorded(st, EvaluationEvent(env.redact, c, a, l)), EscalationRequest(desk, c, a, l), key);
  }

  lemma IntakeKeepsRows(desk: Desk, st: ConsoleState, request: ReviewRequest, key: ReviewKey)
    requires (request.tenant, request.reviewId) !in st.reviews && key in st.reviews
    ensures var t := Submit(desk, st, request).0.reviews; key in t && t[key] == st.reviews[key]
    ensures var t := SubmitIdempotent(desk, st, request).0.reviews; key in t && t[key] == st.reviews[key]
  {
    ProjectionLaws(desk.policy, ReviewItem(request, Pending, [], ""));
  }

  /** The stored requirement is at every point exactly that largest value; so it never drops,
      and an item is approved with exactly that many approvals. */
  lemma {:induction false} RequirementIsTheMaximum(env: Env, s: System, cmds: seq<Command>, key: ReviewKey)
    requires ConsoleInv(s.console) && Consistent(s) && FreshRun(env, s, cmds) && key in s.console.reviews
    ensures var start := s.console.reviews[key].request;
      var s' := Run(env, s, cmds);
      var maximum := Raised(env, s, cmds, key, start.severity, start.requiredApprovals);
      && key in s'.console.reviews
      && s'.console.reviews[key].request.requiredApprovals == maximum
      && (s'.console.reviews[key].state == Approved ==> s'.console.reviews[key].ApprovalsCount() == maximum)
      && (s'.console.reviews[key].state == Pending ==> s'.console.reviews[key].ApprovalsCount() < maximum)
    decreases |cmds|
  {
    if cmds != [] {
      StepKeeps(env, s, cmds[0]);
      StepRaises(env, s, cmds[0], key);
      assert RowAdvances(s.console.reviews[key], Step(env, s, cmds[0]).0.console.reviews[key]);
      RequirementIsTheMaximum(env, Step(env, s, cmds[0]).0, cmds[1..], key);
    }
  }

  // ---- intake ----------------------------------------------------------------------------

  /** What an operation would have the console take in. */
  datatype Asked = Asked(key: ReviewKey, severity: Severity, approvals: int, citations: seq<Citation>)

  ghost function AskedIn(request: ReviewRequest): Asked {
    Asked((request.tenant, request.reviewId), request.severity, request.requiredApprovals, request.citations)
  }

  /** Reviews come in from users, from other services and from escalated cases. */
  ghost function AskedFor(s: System, op: Op): Option<Asked> {
    match op
    case SubmitOp(request) => Some(AskedIn(request))
    case SubmitOnceOp(request) => Some(AskedIn(request))
    case EvaluateOp(look) =>
      (match GetCase(s.cases, look.tenant, look.caseId)
       case None => None
       case Some(c) => Some(Asked((look.tenant, look.reviewId), c.severity, 1, c.citations)))
    case _ => None
  }

  /** The review as it is first stored. */
  ghost predicate StartsAs(policy: RoutingPolicy, asked: Asked, item: ReviewItem) {
    && KeyOf(item) == asked.key && item.state == Pending && item.approvals == []
    && item.request.severity == asked.severity && item.request.citations == asked.citations
    && item.request.requiredApprovals == policy.RequiredApprovals(asked.severity, asked.approvals)
  }

  lemma IntakeStarts(desk: Desk, st: ConsoleState, request: ReviewRequest, key: ReviewKey)
    requires key !in st.reviews
    ensures var t := Submit(desk, st, request).0.reviews;
      key in t ==> AskedIn(request).key == key && StartsAs(desk.policy, AskedIn(request), t[key])
    ensures var t := SubmitIdempotent(desk, st, request).0.reviews;
      key in t ==> AskedIn(request).key == key && StartsAs(desk.policy, AskedIn(request), t[key])
  {
    ProjectionLaws(desk.policy, ReviewItem(request, Pending, [], ""));
  }

  /** However a review comes to be stored, it was asked for and starts pending, without approvals,
      at the larger of its request and the floor. */
  lemma NewRowIsIntake(env: Env, s: System, cmd: Command, key: ReviewKey)
    requires Consistent(s) && key !in s.console.reviews && key in Step(env, s, cmd).0.console.reviews
    ensures AskedFor(s, cmd.op).Some? && AskedFor(s, cmd.op).value.key == key
    ensures StartsAs(cmd.policy, AskedFor(s, cmd.op).value, Step(env, s, cmd).0.console.reviews[key])
  {
    var desk := Desk(cmd.policy, env.redact);
    if cmd.op.OpenOp? || cmd.op.MoveOp? {
      var _ := CaseStepRecordsOnly(env, s, cmd);
    } else {
      match cmd.op {
        case SubmitOp(request) => IntakeStarts(desk, s.console, request, key);
        case SubmitOnceOp(request) => IntakeStarts(desk, s.console, request, key);
        case DisposeOp(reviewId, d) => DisposeShape(desk, s.console, reviewId, d);
        case EvaluateOp(l) =>
          var r := EvaluateCase(env, desk, s, l).1;
          if r.Ok? {
            var c := s.cases.rows[(l.tenant, l.caseId)];
            IntakeStarts(
              desk, Recorded(s.console, EvaluationEvent(env.redact, c, r.value, l)),
              EscalationRequest(desk, c, r.value, l), key);
          }
        case _ =>
      }
    }
  }

  /** Counted from its intake, whether by a user, by another service or by an escalation: the
      largest of one, what was asked, the floor then, and the floors at the applied dispositions. */
  lemma RequirementSinceIntake(env: Env, s: System, first: Command, after: seq<Command>, key: ReviewKey)
    requires ConsoleInv(s.console) && Consistent(s) && FreshRun(env, s, [first] + after)
    requires key !in s.console.reviews && key in Step(env, s, first).0.console.reviews
    ensures AskedFor(s, first.op).Some? && AskedFor(s, first.op).value.key == key
    ensures var asked := AskedFor(s, first.op).value;
      var start := first.policy.RequiredApprovals(asked.severity, asked.approvals);
      var maximum := Raised(env, Step(env, s, first).0, after, key, asked.severity, start);
      var later := Run(env, s, [first] + after).console.reviews;
      && key in later
      && later[key].request.requiredApprovals == maximum
      && (later[key].state == Approved ==> later[key].ApprovalsCount() == maximum)
      && (later[key].state == Pending ==> later[key].ApprovalsCount() < maximum)
  {
    RunSplit(env, s, first, after);
    StepKeeps(env, s, first);
    NewRowIsIntake(env, s, first, key);
    RequirementIsTheMaximum(env, Step(env, s, first).0, after, key);
  }

  // ---- exactly-once intake ---------------------------------------------------------------

  /** A producer's retry, after any run of other operations, returns the review its first call
      created, in its current state, and changes nothing. */
  lemma RetryReturnsTheOriginal(
    env: Env, s: System, first: Command, between: seq<Command>, retry: Command)
    requires ConsoleInv(s.console) && Consistent(s) && FreshRun(env, s, [first] + between)
    requires first.op.SubmitOnceOp? && retry.op.SubmitOnceOp? && first.op.request.sourceKey != ""
    requires retry.op.request.tenant == first.op.request.tenant
    requires retry.op.request.sourceKey == first.op.request.sourceKey
    requires Step(env, s, first).1.item.Ok?
    ensures var original := Step(env, s, first).1.item.value;
      var s1 := Run(env, s, [first] + between);
      var (s2, reply) := Step(env, s1, retry);
      && s2 == s1
      && KeyOf(original) in s1.console.reviews
      && reply.item == Ok(WithEffectiveRouting(retry.policy, s1.console.reviews[KeyOf(original)]))
      && KeyOf(reply.item.value) == KeyOf(original)
      && reply.item.value.state == s1.console.reviews[KeyOf(original)].state
  {
    var s0, original := Step(env, s, first).0, Step(env, s, first).1.item.value;
    RunSplit(env, s, first, between);
    StepKeeps(env, s, first);
    FirstIntakeStored(env, s, first);
    RunKeeps(env, s0, between);
    var s1 := Run(env, s0, between);
    assert RowAdvances(s0.console.reviews[KeyOf(original)], s1.console.reviews[KeyOf(original)]);
    RetryFinds(env, s1, retry, KeyOf(original));
  }

  /** A keyed submission whose key a stored row holds returns that row and changes nothing. */
  lemma RetryFinds(env: Env, s: System, retry: Command, key: ReviewKey)
    requires TableInv(s.console.reviews) && retry.op.SubmitOnceOp? && retry.op.request.sourceKey != ""
    requires key in s.console.reviews && key.0 == retry.op.request.tenant
    requires s.console.reviews[key].request.sourceKey == retry.op.request.sourceKey
    ensures Step(env, s, retry).0 == s
    ensures Step(env, s, retry).1.item == Ok(WithEffectiveRouting(retry.policy, s.console.reviews[key]))
    ensures KeyOf(WithEffectiveRouting(retry.policy, s.console.reviews[key])) == key
  {
    LookupAgreesWithScan(s.console.reviews, key.0, retry.op.request.sourceKey);
    ScanMember(s.console.reviews, key);
    ProjectionLaws(retry.policy, s.console.reviews[key]);
  }

  lemma FirstIntakeStored(env: Env, s: System, first: Command)
    requires TableInv(s.console.reviews) && first.op.SubmitOnceOp? && first.op.request.sourceKey != ""
    requires Step(env, s, first).1.item.Ok?
    ensures var original := Step(env, s, first).1.item.value;
      var t := Step(env, s, first).0.console.reviews;
      && KeyOf(original) in t && KeyOf(original).0 == first.op.request.tenant
      && t[KeyOf(original)].request.sourceKey == first.op.request.sourceKey
  {
    var item := NewItem(first.policy, first.op.request);
    ProjectionLaws(first.policy, item);
    LookupAgreesWithScan(s.console.reviews, item.request.tenant, item.request.sourceKey);
    var found := FindBySourceKey(s.console.reviews, item.request.tenant, item.request.sourceKey);
    if found.Some? {
      ProjectionLaws(first.policy, found.value);
    }
  }

  /** In every reachable state a tenant's source key names at most one stored review, that
      review has exactly one submission on the trail, and a query by key answers with it, or with
      nothing exactly when no review has the key. */
  lemma KeyedIntakeHappensOnce(env: Env, cmds: seq<Command>, query: Command)
    requires FreshRun(env, EMPTY, cmds) && query.op.FindOp? && query.op.sourceKey != ""
    ensures var s := Run(env, EMPTY, cmds);
      var rows := Scan(s.console.reviews, query.op.tenant, query.op.sourceKey);
      var found := Step(env, s, query).1.found;
      && (found.None? ==> rows == {})
      && (found.Some? ==>
            && rows == {found.value} && KeyOf(found.value).0 == query.op.tenant
            && Get(s.console.reviews, query.op.tenant, found.value.request.reviewId) == found
            && |Filter(ActionsOf(KeyOf(found.value), SubmitAction), s.console.audit)| == 1)
  {
    RunKeeps(env, EMPTY, cmds);
    var st := Run(env, EMPTY, cmds).console;
    LookupAgreesWithScan(st.reviews, query.op.tenant, query.op.sourceKey);
    var found := FindBySourceKey(st.reviews, query.op.tenant, query.op.sourceKey);
    if found.Some? {
      assert TrailMatches(st, KeyOf(found.value));
    }
  }
}
