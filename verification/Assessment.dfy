/** The case assessment: every clock, the findings in canonical order, and the escalation
    decision (domain/cases/assessment.py). */
module Assessment {
  import opened Kernel
  import opened CaseModels
  import opened Clock
  import opened ClockLaws
  import opened StateMachine

  /** The status of the i-th clock of the definition, anchored in the case's history. */
  ghost function ClockStatus(
    c: Case, definition: WorkflowDefinition, asOf: Instant, holidays: set<int>, i: nat): DeadlineStatus
    requires i < |definition.clocks|
  {
    var spec := definition.clocks[i];
    DeadlineOf(spec, c.FirstEntered(spec.startState, definition.initial), asOf, holidays)
  }

  /** What each finding means for a case at an instant. */
  ghost predicate Holds(
    f: CaseFinding, c: Case, definition: WorkflowDefinition, asOf: Instant, holidays: set<int>)
  {
    match f
    case SlaBreach =>
      exists i :: 0 <= i < |definition.clocks| && ClockStatus(c, definition, asOf, holidays, i).breached
    case ApproachingDeadline =>
      exists i :: 0 <= i < |definition.clocks| && ClockStatus(c, definition, asOf, holidays, i).approaching
    case StuckInState =>
      && !definition.IsTerminal(c.state)
      && c.state in definition.stuckAfterDays
      && definition.stuckAfterDays[c.state] <= CalendarDaysBetween(c.EnteredCurrentAt(), asOf)
    case IllegalEdge => false
  }

  /** The found findings, most urgent first. */
  function InCanonicalOrder(found: set<CaseFinding>): seq<CaseFinding> {
    (if SlaBreach in found then [SlaBreach] else [])
    + (if ApproachingDeadline in found then [ApproachingDeadline] else [])
    + (if StuckInState in found then [StuckInState] else [])
  }

  ghost function FoundSet(c: Case, definition: WorkflowDefinition, asOf: Instant, holidays: set<int>)
    : set<CaseFinding>
  {
    set f | f in {SlaBreach, ApproachingDeadline, StuckInState} && Holds(f, c, definition, asOf, holidays)
  }

  ghost predicate NeedsReview(c: Case, definition: WorkflowDefinition, asOf: Instant, holidays: set<int>) {
    exists f :: f in definition.escalateOn && Holds(f, c, definition, asOf, holidays)
  }

  ghost function AssessmentOf(c: Case, definition: WorkflowDefinition, asOf: Instant, holidays: set<int>)
    : CaseAssessment
  {
    CaseAssessment(
      c.caseId, c.state, c.severity,
      seq(|definition.clocks|, i requires 0 <= i < |definition.clocks| =>
        ClockStatus(c, definition, asOf, holidays, i)),
      InCanonicalOrder(FoundSet(c, definition, asOf, holidays)),
      NeedsReview(c, definition, asOf, holidays))
  }

  /** Zero is the most urgent. */
  function Urgency(f: CaseFinding): nat {
    match f
    case SlaBreach => 0
    case ApproachingDeadline => 1
    case StuckInState => 2
    case IllegalEdge => 3
  }

  /** A finding is reported exactly when it holds, each once and most urgent first. */
  lemma ReportedIffHolds(c: Case, definition: WorkflowDefinition, asOf: Instant, holidays: set<int>, f: CaseFinding)
    ensures f in AssessmentOf(c, definition, asOf, holidays).findings <==> Holds(f, c, definition, asOf, holidays)
    ensures AssessmentOf(c, definition, asOf, holidays).requiresHumanReview <==>
      exists g :: g in AssessmentOf(c, definition, asOf, holidays).findings && g in definition.escalateOn
    ensures var listed := AssessmentOf(c, definition, asOf, holidays).findings;
      forall i, j :: 0 <= i < j < |listed| ==> Urgency(listed[i]) < Urgency(listed[j])
  {
    var found := FoundSet(c, definition, asOf, holidays);
    assert forall g :: g in InCanonicalOrder(found) <==> g in found && g != IllegalEdge;
    assert forall g :: g in found <==> Holds(g, c, definition, asOf, holidays);
  }

  method Assess(c: Case, definition: WorkflowDefinition, asOf: Instant, holidays: set<int>)
    returns (assessment: CaseAssessment)
    ensures assessment == AssessmentOf(c, definition, asOf, holidays)
  {
    var deadlines: seq<DeadlineStatus> := [];
    var found: set<CaseFinding> := {};
    for i := 0 to |definition.clocks|
      invariant |deadlines| == i
      invariant forall j :: 0 <= j < i ==> deadlines[j] == ClockStatus(c, definition, asOf, holidays, j)
      invariant found <= {SlaBreach, ApproachingDeadline}
      invariant SlaBreach in found <==> exists j :: 0 <= j < i && ClockStatus(c, definition, asOf, holidays, j).breached
      invariant ApproachingDeadline in found <==>
        exists j :: 0 <= j < i && ClockStatus(c, definition, asOf, holidays, j).approaching
    {
      var spec := definition.clocks[i];
      var anchor := c.FirstEntered(spec.startState, definition.initial);
      var status := DeadlineFor(spec, anchor, asOf, holidays);
      assert status == ClockStatus(c, definition, asOf, holidays, i);
      deadlines := deadlines + [status];
      if status.breached {
        found := found + {SlaBreach};
      } else if status.approaching {
        found := found + {ApproachingDeadline};
      }
    }
    if !definition.IsTerminal(c.state) && c.state in definition.stuckAfterDays {
      var daysInState := CalendarDaysBetween(c.EnteredCurrentAt(), asOf);
      if daysInState >= definition.stuckAfterDays[c.state] {
        found := found + {StuckInState};
      }
    }
    assert forall f :: f in found <==> Holds(f, c, definition, asOf, holidays);
    assert found == FoundSet(c, definition, asOf, holidays);
    var findings := InCanonicalOrder(found);
    var requiresHumanReview := exists f :: f in findings && f in definition.escalateOn;
    ReportedIffHolds(c, definition, asOf, holidays, SlaBreach);
    assessment := CaseAssessment(c.caseId, c.state, c.severity, deadlines, findings, requiresHumanReview);
    assert deadlines == AssessmentOf(c, definition, asOf, holidays).deadlines;
  }

  // ---- the findings in plain fields ------------------------------------------------------

  /** A clock whose start state the case has never been in says nothing but its duration. */
  lemma UnstartedClockIsSilent(
    c: Case, definition: WorkflowDefinition, asOf: Instant, holidays: set<int>, i: nat)
    requires i < |definition.clocks| && definition.clocks[i].startState != definition.initial
    requires forall t :: t in c.history ==> t.toState != definition.clocks[i].startState
    ensures var spec := definition.clocks[i];
      ClockStatus(c, definition, asOf, holidays, i)
      == DeadlineStatus(spec.name, spec.kind, None, spec.durationDays, false, false)
  {
    FirstArrivalIsEarliest(c.history, definition.clocks[i].startState);
  }

  /** A clock of the initial state is anchored at the opening, any other at the first entry into its
      start state. */
  lemma StartedClockIsAnchored(
    c: Case, definition: WorkflowDefinition, asOf: Instant, holidays: set<int>, i: nat, j: nat)
    requires i < |definition.clocks|
    ensures definition.clocks[i].startState == definition.initial ==>
      ClockStatus(c, definition, asOf, holidays, i)
      == DeadlineOf(definition.clocks[i], Some(c.openedAt), asOf, holidays)
    ensures
      && definition.clocks[i].startState != definition.initial && j < |c.history|
      && c.history[j].toState == definition.clocks[i].startState
      && (forall k :: 0 <= k < j ==> c.history[k].toState != definition.clocks[i].startState) ==>
      ClockStatus(c, definition, asOf, holidays, i)
      == DeadlineOf(definition.clocks[i], Some(c.history[j].at), asOf, holidays)
  {
    FirstArrivalIsEarliest(c.history, definition.clocks[i].startState);
  }

  /** So a breach or a warning is that of a clock that has started. */
  lemma OnlyStartedClocksReport(c: Case, definition: WorkflowDefinition, asOf: Instant, holidays: set<int>, i: nat)
    requires i < |definition.clocks|
    requires var status := ClockStatus(c, definition, asOf, holidays, i); status.breached || status.approaching
    ensures definition.clocks[i].startState == definition.initial
      || exists t :: t in c.history && t.toState == definition.clocks[i].startState
  {
    if definition.clocks[i].startState != definition.initial
       && forall t :: t in c.history ==> t.toState != definition.clocks[i].startState {
      UnstartedClockIsSilent(c, definition, asOf, holidays, i);
    }
  }

  /** A case that was never moved has dwelt since its opening. */
  lemma NewCaseStuckIff(
    caseId: string, tenant: string, definition: WorkflowDefinition, severity: Severity, openedAt: Instant,
    attributes: seq<(string, string)>, citations: seq<Citation>, asOf: Instant, holidays: set<int>)
    ensures var c := NewCase(caseId, tenant, definition, severity, openedAt, attributes, citations);
      Holds(StuckInState, c, definition, asOf, holidays) <==>
        definition.initial !in definition.terminal && definition.initial in definition.stuckAfterDays
        && openedAt.day + definition.stuckAfterDays[definition.initial] <= asOf.day
  {}

  /** The assessment names the case and gives one status per clock, in the definition's order. */
  lemma AssessmentIsOfTheCase(c: Case, definition: WorkflowDefinition, asOf: Instant, holidays: set<int>)
    ensures var a := AssessmentOf(c, definition, asOf, holidays);
      && a.caseId == c.caseId && a.state == c.state && a.severity == c.severity
      && |a.deadlines| == |definition.clocks|
      && (forall i :: 0 <= i < |a.deadlines| ==> a.deadlines[i] == ClockStatus(c, definition, asOf, holidays, i))
      && (forall i :: 0 <= i < |a.deadlines| ==>
            a.deadlines[i].clock == definition.clocks[i].name && a.deadlines[i].kind == definition.clocks[i].kind)
  {}

  /** What is reported, from the statuses and the dwell time alone. */
  lemma ReportedFromStatuses(c: Case, definition: WorkflowDefinition, asOf: Instant, holidays: set<int>)
    ensures var a := AssessmentOf(c, definition, asOf, holidays);
      && (SlaBreach in a.findings <==> exists i :: 0 <= i < |a.deadlines| && a.deadlines[i].breached)
      && (ApproachingDeadline in a.findings <==> exists i :: 0 <= i < |a.deadlines| && a.deadlines[i].approaching)
      && IllegalEdge !in a.findings
      && (a.requiresHumanReview <==> exists f :: f in a.findings && f in definition.escalateOn)
  {
    var a := AssessmentOf(c, definition, asOf, holidays);
    AssessmentIsOfTheCase(c, definition, asOf, holidays);
    ReportedIffHolds(c, definition, asOf, holidays, SlaBreach);
    ReportedIffHolds(c, definition, asOf, holidays, ApproachingDeadline);
    ReportedIffHolds(c, definition, asOf, holidays, IllegalEdge);
    assert forall i :: 0 <= i < |a.deadlines| ==>
      a.deadlines[i].breached == ClockStatus(c, definition, asOf, holidays, i).breached
      && a.deadlines[i].approaching == ClockStatus(c, definition, asOf, holidays, i).approaching;
  }

  // ---- urgency over time -----------------------------------------------------------------

  /** For a fixed case, a breach and a stall persist, and an approach persists or becomes a breach. */
  lemma FindingsPersist(c: Case, definition: WorkflowDefinition, earlier: Instant, later: Instant, holidays: set<int>)
    requires AtMost(earlier, later)
    ensures Holds(SlaBreach, c, definition, earlier, holidays) ==> Holds(SlaBreach, c, definition, later, holidays)
    ensures Holds(StuckInState, c, definition, earlier, holidays) ==>
      Holds(StuckInState, c, definition, later, holidays)
    ensures Holds(ApproachingDeadline, c, definition, earlier, holidays) ==>
      Holds(ApproachingDeadline, c, definition, later, holidays) || Holds(SlaBreach, c, definition, later, holidays)
  {
    forall i | 0 <= i < |definition.clocks|
      ensures var was := ClockStatus(c, definition, earlier, holidays, i);
        var now := ClockStatus(c, definition, later, holidays, i);
        (was.breached ==> now.breached) && (was.approaching ==> now.approaching || now.breached)
    {
      var spec := definition.clocks[i];
      StatusMonotone(spec, c.FirstEntered(spec.startState, definition.initial), earlier, later, holidays);
    }
  }

  /** Every move restarts the dwell time: the moved case is stuck exactly when the new state's
      allowance has run out since the move. A move back to the same state counts as well. */
  lemma MoveRestartsDwell(
    c: Case, toState: string, actor: string, reason: string, at: Instant, definition: WorkflowDefinition,
    asOf: Instant, holidays: set<int>)
    requires Transit(c, toState, actor, reason, at, definition).Ok?
    ensures var moved := Transit(c, toState, actor, reason, at, definition).value;
      Holds(StuckInState, moved, definition, asOf, holidays) <==>
        toState !in definition.terminal && toState in definition.stuckAfterDays
        && at.day + definition.stuckAfterDays[toState] <= asOf.day
  {}

  /** A review once needed stays needed as time passes, for every case and definition with these
      triggers. */
  ghost predicate ReviewPersists(escalateOn: set<CaseFinding>) {
    forall c: Case, definition: WorkflowDefinition, earlier: Instant, later: Instant, holidays: set<int> ::
      (definition.escalateOn == escalateOn && AtMost(earlier, later) && NeedsReview(c, definition, earlier, holidays))
      ==> NeedsReview(c, definition, later, holidays)
  }

  /** The escalation decision persists exactly when the triggers that include the warning also
      include the breach it turns into. */
  lemma ReviewPersistsIff(escalateOn: set<CaseFinding>)
    ensures ReviewPersists(escalateOn) <==> (ApproachingDeadline in escalateOn ==> SlaBreach in escalateOn)
  {
    if ApproachingDeadline in escalateOn ==> SlaBreach in escalateOn {
      forall c: Case, definition: WorkflowDefinition, earlier: Instant, later: Instant, holidays: set<int>
        | definition.escalateOn == escalateOn && AtMost(earlier, later)
          && NeedsReview(c, definition, earlier, holidays)
        ensures NeedsReview(c, definition, later, holidays)
      {
        FindingsPersist(c, definition, earlier, later, holidays);
      }
    } else {
      WarningLapses(escalateOn);
    }
  }

  /** A one-day clock whose warning escalates and whose breach does not. */
  lemma WarningLapses(escalateOn: set<CaseFinding>)
    requires ApproachingDeadline in escalateOn && SlaBreach !in escalateOn
    ensures !ReviewPersists(escalateOn)
  {
    var clock := ClockSpec("reply", Calendar, 1, "received", 0.0);
    var definition := WorkflowDefinition("t", ["received"], "received", {}, {}, [clock], escalateOn, map[]);
    var start, overdue := Instant(1, 0), Instant(3, 0);
    var c := NewCase("c", "t", definition, Low, start, [], []);
    assert WarnThreshold(clock) == 1;
    assert ClockStatus(c, definition, start, {}, 0).approaching;
    assert NeedsReview(c, definition, start, {});
    assert ClockStatus(c, definition, overdue, {}, 0).breached;
    assert !NeedsReview(c, definition, overdue, {});
  }
}
