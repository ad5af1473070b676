/** Who approved: over whole runs, under changing policies, a review's approvals are exactly the
    votes of the approving dispositions applied to it, each by someone entitled under the policy
    then in force. */
module ApprovalRuns {
  import opened Kernel
  import opened ReviewModels
  import opened MakerChecker
  import opened ReviewStore
  import opened Console
  import opened Workflow
  import opened Platform
  import opened ConsoleRuns

  ghost predicate Grants(env: Env, s: System, cmd: Command, key: ReviewKey) {
    Applied(env, s, cmd, key) && cmd.op.decision.disposition == Approve
  }

  /** An applied approving disposition and the policy in force. */
  datatype Grant = Grant(policy: RoutingPolicy, decision: ReviewDecision)

  /** What the command grants the review. */
  ghost function GrantOf(env: Env, s: System, cmd: Command, key: ReviewKey): seq<Grant> {
    if Grants(env, s, cmd, key) then [Grant(cmd.policy, cmd.op.decision)] else []
  }

  /** The approving dispositions applied to a review, in order. */
  ghost function Granted(env: Env, s: System, cmds: seq<Command>, key: ReviewKey): seq<Grant>
    decreases |cmds|
  {
    if cmds == [] then []
    else GrantOf(env, s, cmds[0], key) + Granted(env, Step(env, s, cmds[0]).0, cmds[1..], key)
  }

  ghost function Votes(granted: seq<Grant>): seq<Approval> {
    seq(|granted|, i requires 0 <= i < |granted| => VoteOf(granted[i].decision))
  }

  ghost function ApprovalsAt(t: Table, key: ReviewKey): seq<Approval> {
    if key in t then t[key].approvals else []
  }

  /** One step adds the vote it grants and nothing else, and grants it only to someone entitled. */
  lemma StepVotes(env: Env, s: System, cmd: Command, key: ReviewKey)
    requires Consistent(s) && FreshIds(s, cmd.op)
    ensures ApprovalsAt(Step(env, s, cmd).0.console.reviews, key)
      == ApprovalsAt(s.console.reviews, key) + Votes(GrantOf(env, s, cmd, key))
    ensures Grants(env, s, cmd, key) ==>
      key in s.console.reviews && Entitled(cmd.policy, s.console.reviews[key].request, cmd.op.decision)
  {
    if cmd.op.DisposeOp? {
      DisposeVotes(env, s, cmd, key);
    } else if key in s.console.reviews {
      OthersKeepRows(env, s, cmd, key);
    } else if key in Step(env, s, cmd).0.console.reviews {
      NewRowIsIntake(env, s, cmd, key);
    }
  }

  lemma DisposeVotes(env: Env, s: System, cmd: Command, key: ReviewKey)
    requires Consistent(s) && cmd.op.DisposeOp?
    ensures ApprovalsAt(Step(env, s, cmd).0.console.reviews, key)
      == ApprovalsAt(s.console.reviews, key) + Votes(GrantOf(env, s, cmd, key))
    ensures Grants(env, s, cmd, key) ==>
      key in s.console.reviews && Entitled(cmd.policy, s.console.reviews[key].request, cmd.op.decision)
  {
    var desk, d := Desk(cmd.policy, env.redact), cmd.op.decision;
    DisposeShape(desk, s.console, cmd.op.reviewId, d);
    if Returned(env, s, cmd, key) {
      var item := WithEffectiveRouting(desk.policy, s.console.reviews[key]);
      ProjectionLaws(desk.policy, s.console.reviews[key]);
      DisposeVerdict(desk.policy, item, d, Some(d.decidedAt));
      if Grants(env, s, cmd, key) { AppliedApprovalWasEntitled(desk.policy, item, d, Some(d.decidedAt)); }
    }
  }

  lemma VotesAddUp(a: seq<Approval>, b: seq<Approval>, c: seq<Approval>, first: seq<Grant>, after: seq<Grant>)
    requires b == a + Votes(first) && c == b + Votes(after)
    ensures c == a + Votes(first + after)
  {
    assert Votes(first + after) == Votes(first) + Votes(after);
  }

  /** Between any two points of a run a review gains exactly the votes granted to it, in order. */
  lemma {:induction false} ApprovalsAreTheGrantedVotes(env: Env, s: System, cmds: seq<Command>, key: ReviewKey)
    requires Consistent(s) && FreshRun(env, s, cmds)
    ensures ApprovalsAt(Run(env, s, cmds).console.reviews, key)
      == ApprovalsAt(s.console.reviews, key) + Votes(Granted(env, s, cmds, key))
    decreases |cmds|
  {
    if cmds != [] {
      var s1 := Step(env, s, cmds[0]).0;
      StepKeepsConsistent(env, s, cmds[0]);
      StepVotes(env, s, cmds[0], key);
      ApprovalsAreTheGrantedVotes(env, s1, cmds[1..], key);
      VotesAddUp(
        ApprovalsAt(s.console.reviews, key), ApprovalsAt(s1.console.reviews, key),
        ApprovalsAt(Run(env, s1, cmds[1..]).console.reviews, key), GrantOf(env, s, cmds[0], key),
        Granted(env, s1, cmds[1..], key));
    }
  }

  /** Each was granted to someone entitled to approve this very request under the policy then in
      force. */
  lemma {:induction false} GrantedWereEntitled(
    env: Env, s: System, cmds: seq<Command>, key: ReviewKey, grant: Grant)
    requires ConsoleInv(s.console) && Consistent(s) && FreshRun(env, s, cmds) && grant in Granted(env, s, cmds, key)
    ensures var t := Run(env, s, cmds).console.reviews;
      key in t && Entitled(grant.policy, t[key].request, grant.decision)
    decreases |cmds|
  {
    var s1 := Step(env, s, cmds[0]).0;
    StepKeeps(env, s, cmds[0]);
    if grant in Granted(env, s1, cmds[1..], key) {
      GrantedWereEntitled(env, s1, cmds[1..], key, grant);
    } else {
      StepVotes(env, s, cmds[0], key);
      RunKeeps(env, s, cmds);
      assert RowAdvances(s.console.reviews[key], Run(env, s, cmds).console.reviews[key]);
    }
  }

  /** In every run from the empty system, whatever policies come and go, each approval of a stored
      review is the vote of an applied disposition by someone entitled when it was applied; the
      approvers are distinct, and as many as required once the review is approved. */
  lemma EveryApprovalWasGranted(env: Env, cmds: seq<Command>, key: ReviewKey)
    requires FreshRun(env, EMPTY, cmds) && key in Run(env, EMPTY, cmds).console.reviews
    ensures var item := Run(env, EMPTY, cmds).console.reviews[key];
      var granted := Granted(env, EMPTY, cmds, key);
      && item.approvals == Votes(granted) && Distinct(item.Approvers())
      && (forall g :: g in granted ==> Entitled(g.policy, item.request, g.decision))
      && (item.state == Approved ==> |granted| == item.request.requiredApprovals)
  {
    StoredReviewsAreSound(env, cmds, key);
    ApprovalsAreTheGrantedVotes(env, EMPTY, cmds, key);
    assert [] + Votes(Granted(env, EMPTY, cmds, key)) == Votes(Granted(env, EMPTY, cmds, key));
    forall g | g in Granted(env, EMPTY, cmds, key)
      ensures Entitled(g.policy, Run(env, EMPTY, cmds).console.reviews[key].request, g.decision)
    {
      GrantedWereEntitled(env, EMPTY, cmds, key, g);
    }
  }

  // ---- a floor raised after the approval -------------------------------------------------

  ghost function WithFloor(floor: int): RoutingPolicy { RoutingPolicy(map[Low := floor], false, "approver") }

  /** A reachable approved review that shows fewer approvals than it demands: approved by one under
      a floor of one, then read under a floor of two. */
  lemma ApprovedShowsTooFew(env: Env)
    ensures var request := ReviewRequest("r", "t", "", "maker", "", "", Low, 1, "", "", [], "", Instant(0, 0));
      var d := ReviewDecision("ann", "t", ["approver"], Approve, "", Instant(1, 0));
      var cmds := [Command(WithFloor(1), SubmitOp(request)), Command(WithFloor(1), DisposeOp("r", d))];
      var s := Run(env, EMPTY, cmds);
      var shown := Step(env, s, Command(WithFloor(2), GetReviewOp("t", "r"))).1.item;
      && FreshRun(env, EMPTY, cmds) && shown.Ok? && shown.value.state == Approved
      && shown.value.ApprovalsCount() == 1 && shown.value.request.requiredApprovals == 2
  {
    var request := ReviewRequest("r", "t", "", "maker", "", "", Low, 1, "", "", [], "", Instant(0, 0));
    var d := ReviewDecision("ann", "t", ["approver"], Approve, "", Instant(1, 0));
    var submit, dispose := Command(WithFloor(1), SubmitOp(request)), Command(WithFloor(1), DisposeOp("r", d));
    var item := ReviewItem(request, Pending, [], "");
    var s1 := Step(env, EMPTY, submit).0;
    assert item.Approvers() == [] && "approver" in d.checkerGroups;
    NoFindingsIffEligible(WithFloor(1), item, "ann", "t", ["approver"]);
    assert s1.console.reviews == map[("t", "r") := item];
    DisposeVerdict(WithFloor(1), item, d, Some(d.decidedAt));
    RunSplit(env, EMPTY, submit, [dispose]);
    RunSplit(env, s1, dispose, []);
    assert [submit] + [dispose] == [submit, dispose] && [dispose] + [] == [dispose];
    var approved := Step(env, s1, dispose).0.console.reviews;
    assert ("t", "r") in approved && approved[("t", "r")].state == Approved;
  }
}
