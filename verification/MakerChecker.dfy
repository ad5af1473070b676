/** The four-eyes, segregation-of-duties and N-eyes engine (domain/maker_checker_service.py). */
module MakerChecker {
  import opened Kernel
  import opened ReviewModels

  datatype RoutingPolicy = RoutingPolicy(
    minApprovalsBySeverity: map<Severity, int>, enforceSod: bool, approverGroup: string)
  {
    function Floor(severity: Severity): int {
      if severity in minApprovalsBySeverity then minApprovalsBySeverity[severity] else 1
    }

    /** The least number that satisfies the request, the floor and the minimum of one. */
    function RequiredApprovals(severity: Severity, requested: int): (r: int)
      ensures 1 <= r && requested <= r && Floor(severity) <= r
      ensures r == 1 || r == requested || r == Floor(severity)
    {
      var atLeastOne := if requested < 1 then 1 else requested;
      if Floor(severity) < atLeastOne then atLeastOne else Floor(severity)
    }
  }

  /** What each finding says about a checker and an item. */
  predicate Bars(
    f: EligibilityFinding, policy: RoutingPolicy, item: ReviewItem,
    checker: string, tenant: string, groups: seq<string>)
  {
    match f
    case WrongTenant => tenant != item.request.tenant
    case SelfApproval => checker == item.request.maker
    case SegregationOfDuties =>
      policy.enforceSod && item.request.sodGroup != "" && item.request.sodGroup in groups
    case InsufficientRole => policy.approverGroup !in groups
    case DuplicateApprover => checker in item.Approvers()
  }

  function AppendIf(found: seq<EligibilityFinding>, barred: bool, f: EligibilityFinding): (r: seq<EligibilityFinding>)
    ensures forall x :: x in r <==> x in found || (barred && x == f)
    ensures r == [] <==> found == [] && !barred
  {
    if barred then found + [f] else found
  }

  /** Every reason this checker may not act on the item, in the order the reasons are declared. */
  function Findings(policy: RoutingPolicy, item: ReviewItem, checker: string, tenant: string, groups: seq<string>)
    : seq<EligibilityFinding>
  {
    var tenancy := AppendIf([], Bars(WrongTenant, policy, item, checker, tenant, groups), WrongTenant);
    var fourEyes := AppendIf(tenancy, Bars(SelfApproval, policy, item, checker, tenant, groups), SelfApproval);
    var duties := AppendIf(
      fourEyes, Bars(SegregationOfDuties, policy, item, checker, tenant, groups), SegregationOfDuties);
    var role := AppendIf(duties, Bars(InsufficientRole, policy, item, checker, tenant, groups), InsufficientRole);
    AppendIf(role, Bars(DuplicateApprover, policy, item, checker, tenant, groups), DuplicateApprover)
  }

  ghost predicate Eligible(
    policy: RoutingPolicy, item: ReviewItem, checker: string, tenant: string, groups: seq<string>)
  {
    forall f :: !Bars(f, policy, item, checker, tenant, groups)
  }

  /** Every reason is reported, and none means eligible. */
  lemma NoFindingsIffEligible(
    policy: RoutingPolicy, item: ReviewItem, checker: string, tenant: string, groups: seq<string>)
    ensures forall f ::
      (f in Findings(policy, item, checker, tenant, groups)) == Bars(f, policy, item, checker, tenant, groups)
    ensures (Findings(policy, item, checker, tenant, groups) == []) == Eligible(policy, item, checker, tenant, groups)
  {
    forall f
      ensures (f in Findings(policy, item, checker, tenant, groups))
        == Bars(f, policy, item, checker, tenant, groups)
    {
      match f {
        case WrongTenant =>
        case SelfApproval =>
        case SegregationOfDuties =>
        case InsufficientRole =>
        case DuplicateApprover =>
      }
    }
    if Findings(policy, item, checker, tenant, groups) == [] {
      assert forall f :: f !in Findings(policy, item, checker, tenant, groups);
    } else {
      assert Findings(policy, item, checker, tenant, groups)[0] in Findings(policy, item, checker, tenant, groups);
    }
  }

  /** The declared order of the reasons. */
  function Rank(f: EligibilityFinding): nat {
    match f
    case WrongTenant => 0
    case SelfApproval => 1
    case SegregationOfDuties => 2
    case InsufficientRole => 3
    case DuplicateApprover => 4
  }

  ghost predicate InRankOrder(found: seq<EligibilityFinding>, limit: nat) {
    && (forall i, j :: 0 <= i < j < |found| ==> Rank(found[i]) < Rank(found[j]))
    && forall i :: 0 <= i < |found| ==> Rank(found[i]) < limit
  }

  /** Each reason is listed at most once, in declared order. */
  lemma FindingsInDeclaredOrder(
    policy: RoutingPolicy, item: ReviewItem, checker: string, tenant: string, groups: seq<string>)
    ensures InRankOrder(Findings(policy, item, checker, tenant, groups), 5)
  {
    StepwiseInOrder(
      Bars(WrongTenant, policy, item, checker, tenant, groups),
      Bars(SelfApproval, policy, item, checker, tenant, groups),
      Bars(SegregationOfDuties, policy, item, checker, tenant, groups),
      Bars(InsufficientRole, policy, item, checker, tenant, groups),
      Bars(DuplicateApprover, policy, item, checker, tenant, groups));
  }

  lemma StepwiseInOrder(tenant: bool, self: bool, duties: bool, role: bool, twice: bool)
    ensures InRankOrder(
      AppendIf(AppendIf(AppendIf(AppendIf(AppendIf([], tenant, WrongTenant), self, SelfApproval),
        duties, SegregationOfDuties), role, InsufficientRole), twice, DuplicateApprover), 5)
  {
    var s1 := AppendIf([], tenant, WrongTenant);
    var s2 := AppendIf(s1, self, SelfApproval);
    var s3 := AppendIf(s2, duties, SegregationOfDuties);
    var s4 := AppendIf(s3, role, InsufficientRole);
    AppendInOrder(s1, self, SelfApproval);
    AppendInOrder(s2, duties, SegregationOfDuties);
    AppendInOrder(s3, role, InsufficientRole);
    AppendInOrder(s4, twice, DuplicateApprover);
  }

  lemma AppendInOrder(found: seq<EligibilityFinding>, barred: bool, f: EligibilityFinding)
    requires InRankOrder(found, Rank(f))
    ensures InRankOrder(AppendIf(found, barred, f), Rank(f) + 1)
  {}

  /** All findings are collected, not just the first. */
  method CheckEligibility(
    policy: RoutingPolicy, item: ReviewItem, checker: string, tenant: string, groups: seq<string>)
    returns (findings: seq<EligibilityFinding>)
    ensures findings == Findings(policy, item, checker, tenant, groups)
  {
    findings := [];
    var req := item.request;
    if tenant != req.tenant {
      findings := findings + [WrongTenant];
    }
    if checker == req.maker {
      findings := findings + [SelfApproval];
    }
    if policy.enforceSod && req.sodGroup != "" && req.sodGroup in groups {
      findings := findings + [SegregationOfDuties];
    }
    if policy.approverGroup !in groups {
      findings := findings + [InsufficientRole];
    }
    if checker in item.Approvers() {
      findings := findings + [DuplicateApprover];
    }
  }

  datatype DispositionOutcome = DispositionOutcome(
    item: ReviewItem, decision: Decision, findings: seq<EligibilityFinding>)

  datatype AlreadyResolved = AlreadyResolved

  /** Apply a disposition, fail-closed. `asOf` defaults to the decision's own timestamp. */
  function Dispose(policy: RoutingPolicy, item: ReviewItem, d: ReviewDecision, asOf: Option<Instant>)
    : Result<DispositionOutcome, AlreadyResolved>
  {
    if item.IsTerminal() then Err(AlreadyResolved)
    else
      var findings := Findings(policy, item, d.checker, d.checkerTenant, d.checkerGroups);
      if findings != [] then Ok(DispositionOutcome(item, Denied, findings))
      else
        var stamp := if asOf.Some? then asOf.value else d.decidedAt;
        var newItem :=
          match d.disposition
          case Approve =>
            var newCount := item.ApprovalsCount() + 1;
            var required := policy.RequiredApprovals(item.request.severity, item.request.requiredApprovals);
            item.WithApproval(Approval(d.checker, d.reason, stamp), if newCount >= required then Approved else Pending)
          case Reject => item.Resolved(Rejected, d.reason)
          case Amend => item.Resolved(Amended, d.reason);
        Ok(DispositionOutcome(newItem, Allowed, []))
  }

  // ---- what the engine keeps -------------------------------------------------------------

  /** The four-eyes and N-eyes condition on an item: distinct approvers, none the maker, and
      exactly the required number of them when approved and fewer before. */
  ghost predicate Sound(item: ReviewItem) {
    && 1 <= item.request.requiredApprovals
    && Distinct(item.Approvers())
    && item.request.maker !in item.Approvers()
    && (if item.state == Approved then item.ApprovalsCount() == item.request.requiredApprovals
        else item.ApprovalsCount() < item.request.requiredApprovals)
  }

  /** The item already carries the active floor. */
  ghost predicate Routed(policy: RoutingPolicy, item: ReviewItem) {
    item.request.requiredApprovals
      == policy.RequiredApprovals(item.request.severity, item.request.requiredApprovals)
  }

  /** A disposition is refused exactly on a terminal item; otherwise it is applied exactly when
      the checker is eligible, and a denial changes nothing. An applied approval is final exactly
      when it completes the required number. */
  lemma DisposeVerdict(policy: RoutingPolicy, item: ReviewItem, d: ReviewDecision, asOf: Option<Instant>)
    ensures Dispose(policy, item, d, asOf).Err? <==> item.IsTerminal()
    ensures !item.IsTerminal() ==>
      var outcome := Dispose(policy, item, d, asOf).value;
      && (outcome.decision == Allowed <==> Eligible(policy, item, d.checker, d.checkerTenant, d.checkerGroups))
      && (outcome.decision == Denied ==> outcome.item == item && outcome.findings != [])
      && outcome.item.request == item.request
      && (outcome.decision == Allowed ==>
            match d.disposition
            case Approve =>
              && outcome.item.approvals
                   == item.approvals + [Approval(d.checker, d.reason, if asOf.Some? then asOf.value else d.decidedAt)]
              && outcome.item.terminalReason == item.terminalReason
              && (Sound(item) && Routed(policy, item) ==>
                    outcome.item.state
                      == if outcome.item.ApprovalsCount() == item.request.requiredApprovals then Approved else Pending)
            case Reject => outcome.item == item.(state := Rejected, terminalReason := d.reason)
            case Amend => outcome.item == item.(state := Amended, terminalReason := d.reason))
  {
    NoFindingsIffEligible(policy, item, d.checker, d.checkerTenant, d.checkerGroups);
  }

  /** A decision to approve by someone entitled to: in the tenant, not the maker, holding the
      approver group, and outside the maker's duty group when duties are segregated. */
  ghost predicate Entitled(policy: RoutingPolicy, request: ReviewRequest, d: ReviewDecision) {
    && d.disposition == Approve
    && d.checkerTenant == request.tenant
    && d.checker != request.maker
    && policy.approverGroup in d.checkerGroups
    && (policy.enforceSod && request.sodGroup != "" ==> request.sodGroup !in d.checkerGroups)
  }

  /** Whoever's approval is applied was entitled to it under the policy that applied it. */
  lemma AppliedApprovalWasEntitled(policy: RoutingPolicy, item: ReviewItem, d: ReviewDecision, asOf: Option<Instant>)
    requires !item.IsTerminal() && Dispose(policy, item, d, asOf).value.decision == Allowed && d.disposition == Approve
    ensures Entitled(policy, item.request, d)
  {
    DisposeVerdict(policy, item, d, asOf);
    assert !Bars(WrongTenant, policy, item, d.checker, d.checkerTenant, d.checkerGroups);
    assert !Bars(SelfApproval, policy, item, d.checker, d.checkerTenant, d.checkerGroups);
    assert !Bars(SegregationOfDuties, policy, item, d.checker, d.checkerTenant, d.checkerGroups);
    assert !Bars(InsufficientRole, policy, item, d.checker, d.checkerTenant, d.checkerGroups);
  }

  /** `r` is the largest of the values. */
  ghost predicate IsLargest(r: int, values: set<int>) { r in values && forall v :: v in values ==> v <= r }

  /** The required number on the configured map: the largest of one, the request and, if the severity
      is configured, its floor. */
  lemma RequiredApprovalsIs(policy: RoutingPolicy, severity: Severity, requested: int)
    ensures var floors := policy.minApprovalsBySeverity;
      IsLargest(policy.RequiredApprovals(severity, requested),
                if severity in floors then {1, requested, floors[severity]} else {1, requested})
  {}

  /** The reasons in the fields they read, in the order they are given. */
  ghost function Reasons(policy: RoutingPolicy, item: ReviewItem, checker: string, tenant: string, groups: seq<string>)
    : seq<EligibilityFinding>
  {
    (if tenant != item.request.tenant then [WrongTenant] else [])
    + (if checker == item.request.maker then [SelfApproval] else [])
    + (if policy.enforceSod && item.request.sodGroup != "" && item.request.sodGroup in groups
       then [SegregationOfDuties] else [])
    + (if policy.approverGroup !in groups then [InsufficientRole] else [])
    + (if exists i :: 0 <= i < |item.approvals| && item.approvals[i].checker == checker
       then [DuplicateApprover] else [])
  }

  lemma FindingsAre(policy: RoutingPolicy, item: ReviewItem, checker: string, tenant: string, groups: seq<string>)
    ensures Findings(policy, item, checker, tenant, groups) == Reasons(policy, item, checker, tenant, groups)
  {
    ApproverIff(item, checker);
  }

  lemma ApproverIff(item: ReviewItem, checker: string)
    ensures checker in item.Approvers()
      <==> exists i :: 0 <= i < |item.approvals| && item.approvals[i].checker == checker
  {
    forall i | 0 <= i < |item.approvals| ensures item.Approvers()[i] == item.approvals[i].checker {}
  }

  /** A disposition of a pending item, of whichever kind, is applied exactly when the checker is in
      the tenant, is not the maker, holds the approver group, has not approved yet, and shares no
      duty group that is to be kept apart. */
  lemma AllowedIff(policy: RoutingPolicy, item: ReviewItem, d: ReviewDecision, asOf: Option<Instant>)
    requires item.state == Pending
    ensures Dispose(policy, item, d, asOf).Ok?
    ensures Dispose(policy, item, d, asOf).value.decision == Allowed <==>
      && d.checkerTenant == item.request.tenant
      && d.checker != item.request.maker
      && policy.approverGroup in d.checkerGroups
      && (forall i :: 0 <= i < |item.approvals| ==> item.approvals[i].checker != d.checker)
      && !(policy.enforceSod && item.request.sodGroup != "" && item.request.sodGroup in d.checkerGroups)
  {
    FindingsAre(policy, item, d.checker, d.checkerTenant, d.checkerGroups);
  }

  /** The four-eyes condition survives every disposition of an item that carries the floor. */
  lemma DisposeKeepsSound(policy: RoutingPolicy, item: ReviewItem, d: ReviewDecision, asOf: Option<Instant>)
    requires Sound(item) && Routed(policy, item) && !item.IsTerminal()
    ensures Sound(Dispose(policy, item, d, asOf).value.item)
  {
    NoFindingsIffEligible(policy, item, d.checker, d.checkerTenant, d.checkerGroups);
    var outcome := Dispose(policy, item, d, asOf).value;
    if outcome.decision == Allowed && d.disposition == Approve {
      assert !Bars(SelfApproval, policy, item, d.checker, d.checkerTenant, d.checkerGroups);
      assert !Bars(DuplicateApprover, policy, item, d.checker, d.checkerTenant, d.checkerGroups);
      var approval := outcome.item.approvals[|item.approvals|];
      ApproversSnoc(item, approval, outcome.item.state);
      assert outcome.item.Approvers() == item.Approvers() + [d.checker];
    } else {
      assert outcome.item.Approvers() == item.Approvers();
    }
  }
}
