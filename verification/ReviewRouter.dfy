/** The in-process join of the two engines: an escalated case becomes a submission to the same
    console (adapters/review_router.py). */
module ReviewRouting {
  import opened Kernel
  import opened CaseModels
  import opened ReviewModels
  import opened Console

  function FindingName(f: CaseFinding): string {
    match f
    case SlaBreach => "sla_breach"
    case ApproachingDeadline => "approaching_deadline"
    case StuckInState => "stuck_in_state"
    case IllegalEdge => "illegal_transition"
  }

  function JoinNames(findings: seq<CaseFinding>): string {
    if findings == [] then ""
    else if |findings| == 1 then FindingName(findings[0])
    else FindingName(findings[0]) + ", " + JoinNames(findings[1..])
  }

  function SubjectOf(c: Case): string { "Case " + c.caseId + " (" + c.caseType + ") in state " + c.state }

  function SummaryOf(assessment: CaseAssessment): string {
    var names := JoinNames(assessment.findings);
    "Escalated on: " + if names == "" then "escalated" else names
  }

  /** The review an escalated case is turned into. The source key stays empty, so every
      escalation is a new review. */
  function RoutedRequest(
    redact: string -> string, c: Case, assessment: CaseAssessment, maker: string, reviewId: string,
    submittedAt: Instant): ReviewRequest
  {
    ReviewRequest(
      reviewId, c.tenant, "case_review:" + c.caseType, maker,
      redact(SubjectOf(c)), redact(SummaryOf(assessment)),
      c.severity, 1, "", c.caseId, c.citations, "", submittedAt)
  }

  class InProcessReviewRouter {
    const console: ConsoleService

    constructor (console: ConsoleService)
      ensures this.console == console
    {
      this.console := console;
    }

    method Route(c: Case, assessment: CaseAssessment, maker: string, reviewId: string, submittedAt: Instant)
      requires console.Valid()
      modifies console.store, console.audit
      ensures console.Valid()
      ensures console.State() == Submit(console.desk, old(console.State()),
        RoutedRequest(console.desk.redact, c, assessment, maker, reviewId, submittedAt)).0
    {
      var _ := console.SubmitItem(
        RoutedRequest(console.desk.redact, c, assessment, maker, reviewId, submittedAt));
    }
  }
}
