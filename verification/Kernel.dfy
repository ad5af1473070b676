/** Taxonomies, provenance and audit events shared by both halves of the service, with
    the small value types (optional values, results, instants) every module uses. */
module Kernel {

  datatype Option<+T> = None | Some(value: T)

  datatype Result<+T, +E> = Ok(value: T) | Err(error: E)

  /** A datetime in the one zone the model works in: a day number (1 is a Monday) and a time
      of day. */
  datatype Instant = Instant(day: int, time: nat)

  predicate Before(a: Instant, b: Instant) {
    a.day < b.day || (a.day == b.day && a.time < b.time)
  }

  predicate AtMost(a: Instant, b: Instant) {
    a == b || Before(a, b)
  }

  datatype Severity = Low | Medium | High | Critical

  datatype Disposition = Approve | Reject | Amend

  datatype ReviewState = Pending | Approved | Rejected | Amended

  datatype EligibilityFinding =
    | WrongTenant
    | SelfApproval
    | SegregationOfDuties
    | InsufficientRole
    | DuplicateApprover

  datatype Decision = Allowed | Denied

  datatype Citation = Citation(sourceId: string, title: string, snippet: string)

  datatype ClockKind = Calendar | Business

  datatype CaseFinding = SlaBreach | ApproachingDeadline | StuckInState | IllegalEdge

  datatype CaseDecision = CaseAllowed | CaseEscalated | CaseRejected

  datatype SignOffAction = SubmitAction | DisposeAction

  datatype CaseActionKind = OpenAction | TransitionAction | EvaluateAction

  /** One record of the shared append-only audit sink. The summary and the reason are redacted
      texts; citations and state names are recorded as they came. */
  datatype AuditEvent =
    | SignOff(
        tenant: string, reviewId: string, action: SignOffAction, maker: string, checker: string,
        disposition: Disposition, decision: Decision, state: ReviewState, severity: Severity,
        redactedReason: string, redactedSummary: string, findings: seq<EligibilityFinding>,
        citations: seq<Citation>)
    | CaseAction(
        tenant: string, caseId: string, kind: CaseActionKind, actor: string, fromState: string,
        toState: string, caseDecision: CaseDecision, severity: Severity, redactedSummary: string,
        caseFindings: seq<CaseFinding>, citations: seq<Citation>)

  datatype LifecycleEventType = CaseOpened | CaseTransitioned | CaseEscalatedEvent

  /** A content-free lifecycle event. */
  datatype LifecycleEvent = LifecycleEvent(
    eventType: LifecycleEventType, tenant: string, caseId: string, state: string, severity: Severity)

  /** The elements of a sequence that satisfy a test, in order. */
  ghost function Filter<T(!new)>(keep: T -> bool, s: seq<T>): (r: seq<T>)
    ensures forall x :: x in r <==> x in s && keep(x)
  {
    if s == [] then []
    else
      var rest := Filter(keep, s[..|s| - 1]);
      assert s == s[..|s| - 1] + [s[|s| - 1]];
      if keep(s[|s| - 1]) then rest + [s[|s| - 1]] else rest
  }

  lemma FilterSnoc<T(!new)>(keep: T -> bool, s: seq<T>, x: T)
    ensures Filter(keep, s + [x]) == if keep(x) then Filter(keep, s) + [x] else Filter(keep, s)
  {
    assert (s + [x])[..|s|] == s;
  }

  lemma HeadFirst<T>(a: seq<T>, b: seq<T>)
    requires a != []
    ensures [a[0]] + (a[1..] + b) == a + b
  {}

  /** Filtering twice with the same test is filtering once. */
  lemma {:induction false} FilterTwice<T(!new)>(keep: T -> bool, s: seq<T>)
    ensures Filter(keep, Filter(keep, s)) == Filter(keep, s)
  {
    if s != [] {
      var init, last := s[..|s| - 1], s[|s| - 1];
      FilterTwice(keep, init);
      FilterSnoc(keep, Filter(keep, init), last);
    }
  }
}
