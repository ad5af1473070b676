/** The review request and the queue aggregate (domain/models.py). */
module ReviewModels {
  import opened Kernel

  datatype ReviewRequest = ReviewRequest(
    reviewId: string, tenant: string, action: string, maker: string, subject: string, summary: string,
    severity: Severity, requiredApprovals: int, sodGroup: string, caseRef: string,
    citations: seq<Citation>, sourceKey: string, submittedAt: Instant)

  datatype Approval = Approval(checker: string, reason: string, at: Instant)

  datatype ReviewDecision = ReviewDecision(
    checker: string, checkerTenant: string, checkerGroups: seq<string>, disposition: Disposition,
    reason: string, decidedAt: Instant)

  /** The approval a decision to approve casts. */
  function VoteOf(d: ReviewDecision): Approval { Approval(d.checker, d.reason, d.decidedAt) }

  datatype ReviewItem = ReviewItem(
    request: ReviewRequest, state: ReviewState, approvals: seq<Approval>, terminalReason: string)
  {
    function ApprovalsCount(): nat { |approvals| }

    function Approvers(): seq<string> {
      seq(|approvals|, i requires 0 <= i < |approvals| => approvals[i].checker)
    }

    predicate IsTerminal() { state != Pending }

    function WithApproval(approval: Approval, newState: ReviewState): ReviewItem {
      this.(approvals := approvals + [approval], state := newState)
    }

    function Resolved(newState: ReviewState, reason: string): ReviewItem {
      this.(state := newState, terminalReason := reason)
    }
  }

  lemma ApproversSnoc(item: ReviewItem, approval: Approval, newState: ReviewState)
    ensures item.WithApproval(approval, newState).Approvers() == item.Approvers() + [approval.checker]
  {}

  ghost predicate Distinct(names: seq<string>) {
    forall i, j :: 0 <= i < j < |names| ==> names[i] != names[j]
  }
}
