/** What overlapping dispositions lose from the table. The last writer wins. Refusing to replace a
    resolved item is the exact check that keeps items resolved, but it still loses approvals. */
module StaleWrites {
  import opened Kernel
  import opened ReviewModels
  import opened MakerChecker
  import opened ReviewStore
  import opened Console
  import opened ConsoleRuns
  import opened Interleaving

  /** Ids of new reviews are minted fresh. */
  ghost predicate FreshIntake(s: Shared, a: Action) {
    match a
    case Intake(request) => (request.tenant, request.reviewId) !in s.table
    case IntakeOnce(request) => (request.tenant, request.reviewId) !in s.table
    case _ => true
  }

  /** Every step of the execution passes the check. */
  ghost predicate Throughout(desk: Desk, s: Shared, actions: seq<Action>, check: (Shared, Action) -> bool)
    decreases |actions|
  {
    actions == []
    || (check(s, actions[0]) && Throughout(desk, Next(desk, s, actions[0]), actions[1..], check))
  }

  // ---- calls in flight fit the table -----------------------------------------------------

  /** A pending item has no closing reason yet. */
  ghost predicate Open(item: ReviewItem) { !item.IsTerminal() ==> item.terminalReason == "" }

  /** The call is about a stored review of the same request; what it will write is the verdict on
      what it loaded. */
  ghost predicate Fits(policy: RoutingPolicy, t: Table, flight: Flight) {
    && KeyOf(flight.item) in t && t[KeyOf(flight.item)].request == flight.item.request
    && flight.decision.checkerTenant == flight.item.request.tenant
    && match flight
       case Loaded(item, _) => Open(item)
       case Writing(item, d, loaded) =>
         && loaded.request == item.request && !loaded.IsTerminal() && Open(loaded)
         && Dispose(policy, loaded, d, Some(d.decidedAt)) == Ok(DispositionOutcome(item, Allowed, []))
  }

  ghost predicate Anchored(policy: RoutingPolicy, s: Shared) {
    && TableInv(s.table) && AllRouted(policy, s)
    && (forall k :: k in s.table ==> Open(s.table[k]))
    && (forall call :: call in s.flights ==> Fits(policy, s.table, s.flights[call]))
  }

  /** Storing an item of an already stored request never collides. */
  lemma RewriteSucceeds(t: Table, item: ReviewItem)
    requires TableInv(t) && KeyOf(item) in t && t[KeyOf(item)].request == item.request
    ensures Put(t, item) == Ok(t[KeyOf(item) := item])
  {
    OwnKeyFree(t, item);
  }

  lemma IntakeKeepsAnchored(policy: RoutingPolicy, s: Shared, item: ReviewItem)
    requires Anchored(policy, s) && KeyOf(item) !in s.table && !KeyTaken(s.table, item)
    requires Routed(policy, item) && Open(item)
    ensures Anchored(policy, s.(table := s.table[KeyOf(item) := item]))
  {
    PutKeepsInv(s.table, item);
    var t := s.table[KeyOf(item) := item];
    forall call | call in s.flights ensures Fits(policy, t, s.flights[call]) {
      assert Fits(policy, s.table, s.flights[call]);
    }
  }

  lemma VerdictFits(policy: RoutingPolicy, t: Table, item: ReviewItem, d: ReviewDecision)
    requires Fits(policy, t, Loaded(item, d)) && Routed(policy, item) && !item.IsTerminal()
    requires Dispose(policy, item, d, Some(d.decidedAt)).value.decision == Allowed
    ensures var outcome := Dispose(policy, item, d, Some(d.decidedAt)).value;
      Fits(policy, t, Writing(outcome.item, d, item)) && Routed(policy, outcome.item)
  {
    DisposeVerdict(policy, item, d, Some(d.decidedAt));
  }

  lemma DecideKeepsAnchored(desk: Desk, s: Shared, call: nat)
    requires Anchored(desk.policy, s)
    ensures Anchored(desk.policy, AfterDecide(desk, s, call))
  {
    if call in s.flights && s.flights[call].Loaded? {
      var item, d := s.flights[call].item, s.flights[call].decision;
      assert Fits(desk.policy, s.table, s.flights[call]);
      if !item.IsTerminal() && Dispose(desk.policy, item, d, Some(d.decidedAt)).value.decision == Allowed {
        VerdictFits(desk.policy, s.table, item, d);
        DecideWrites(desk, s, call, item, d);
      } else {
        var s' := AfterDecide(desk, s, call);
        assert s' == s.(flights := s.flights - {call}, unrecorded := s'.unrecorded);
      }
    }
  }

  lemma WriteKeepsAnchored(desk: Desk, s: Shared, call: nat)
    requires Anchored(desk.policy, s)
    ensures Anchored(desk.policy, AfterWrite(desk, s, call))
  {
    if call in s.flights && s.flights[call].Writing? {
      var flight := s.flights[call];
      assert Fits(desk.policy, s.table, flight);
      RewriteSucceeds(s.table, flight.item);
      PutKeepsInv(s.table, flight.item);
      DisposeVerdict(desk.policy, flight.loaded, flight.decision, Some(flight.decision.decidedAt));
      var s' := AfterWrite(desk, s, call);
      forall other | other in s'.flights ensures Fits(desk.policy, s'.table, s'.flights[other]) {
        assert Fits(desk.policy, s.table, s.flights[other]);
      }
    }
  }

  lemma LoadKeepsAnchored(desk: Desk, s: Shared, call: nat, reviewId: string, d: ReviewDecision)
    requires Anchored(desk.policy, s)
    ensures Anchored(desk.policy, AfterLoad(desk, s, call, reviewId, d))
  {
    var s' := AfterLoad(desk, s, call, reviewId, d);
    forall other | other in s'.flights ensures Fits(desk.policy, s'.table, s'.flights[other]) {
      if other in s.flights { assert Fits(desk.policy, s.table, s.flights[other]); }
    }
  }

  lemma IntakeActionKeepsAnchored(desk: Desk, s: Shared, request: ReviewRequest)
    requires Anchored(desk.policy, s) && (request.tenant, request.reviewId) !in s.table
    ensures Anchored(desk.policy, AfterIntake(desk, s, request))
  {
    var item := NewItem(desk.policy, request);
    ProjectionLaws(desk.policy, ReviewItem(request, Pending, [], ""));
    if Put(s.table, item).Ok? { IntakeKeepsAnchored(desk.policy, s, item); }
  }

  lemma IntakeOnceKeepsAnchored(desk: Desk, s: Shared, request: ReviewRequest)
    requires Anchored(desk.policy, s) && (request.tenant, request.reviewId) !in s.table
    ensures Anchored(desk.policy, AfterIntakeOnce(desk, s, request))
  {
    var item := NewItem(desk.policy, request);
    ProjectionLaws(desk.policy, ReviewItem(request, Pending, [], ""));
    if PutIfAbsent(s.table, item).Ok? && PutIfAbsent(s.table, item).value.2 {
      NewKeyFree(s.table, item);
      IntakeKeepsAnchored(desk.policy, s, item);
    }
  }

  lemma NextKeepsAnchored(desk: Desk, s: Shared, a: Action)
    requires Anchored(desk.policy, s) && FreshIntake(s, a)
    ensures Anchored(desk.policy, Next(desk, s, a))
  {
    match a {
      case Intake(request) => IntakeActionKeepsAnchored(desk, s, request);
      case IntakeOnce(request) => IntakeOnceKeepsAnchored(desk, s, request);
      case Load(call, reviewId, d) => LoadKeepsAnchored(desk, s, call, reviewId, d);
      case Decide(call) => DecideKeepsAnchored(desk, s, call);
      case Write(call) => WriteKeepsAnchored(desk, s, call);
      case Record(_) =>
    }
  }

  /** A keyed insert that goes through takes no key another row holds. */
  lemma NewKeyFree(t: Table, item: ReviewItem)
    requires TableInv(t) && KeyOf(item) !in t && PutIfAbsent(t, item).Ok? && PutIfAbsent(t, item).value.2
    ensures !KeyTaken(t, item)
  {
    if item.request.sourceKey != "" && KeyTaken(t, item) {
      LookupAgreesWithScan(t, item.request.tenant, item.request.sourceKey);
      var k :| k in t && k != KeyOf(item) && k.0 == item.request.tenant
        && t[k].request.sourceKey == item.request.sourceKey;
      ScanMember(t, k);
    }
  }

  lemma {:induction false} ExecuteKeepsAnchored(desk: Desk, s: Shared, actions: seq<Action>)
    requires Anchored(desk.policy, s) && Throughout(desk, s, actions, FreshIntake)
    ensures Anchored(desk.policy, Execute(desk, s, actions))
    decreases |actions|
  {
    if actions != [] {
      NextKeepsAnchored(desk, s, actions[0]);
      ExecuteKeepsAnchored(desk, Next(desk, s, actions[0]), actions[1..]);
    }
  }

  /** However calls overlap, a write is never refused by the store. */
  lemma WritesNeverFail(desk: Desk, actions: seq<Action>, call: nat)
    requires Throughout(desk, NOTHING, actions, FreshIntake)
    requires call in Execute(desk, NOTHING, actions).flights
    ensures var s := Execute(desk, NOTHING, actions); Put(s.table, s.flights[call].item).Ok?
  {
    ExecuteKeepsAnchored(desk, NOTHING, actions);
    var s := Execute(desk, NOTHING, actions);
    assert Fits(desk.policy, s.table, s.flights[call]);
    RewriteSucceeds(s.table, s.flights[call].item);
  }

  // ---- the last writer wins --------------------------------------------------------------

  /** Two calls load the same review and decide before either writes. */
  ghost function BothDecided(
    desk: Desk, s: Shared, first: nat, second: nat, reviewId: string, a: ReviewDecision,
    b: ReviewDecision): Shared
  {
    var loaded := AfterLoad(desk, AfterLoad(desk, s, first, reviewId, a), second, reviewId, b);
    AfterDecide(desk, AfterDecide(desk, loaded, first), second)
  }

  lemma BothDecidedWrites(
    desk: Desk, s: Shared, first: nat, second: nat, key: ReviewKey, a: ReviewDecision, b: ReviewDecision)
    requires first != second && first !in s.flights && second !in s.flights
    requires key in s.table && Routed(desk.policy, s.table[key]) && !s.table[key].IsTerminal()
    requires a.checkerTenant == b.checkerTenant == key.0
    requires Dispose(desk.policy, s.table[key], a, Some(a.decidedAt)).value.decision == Allowed
    requires Dispose(desk.policy, s.table[key], b, Some(b.decidedAt)).value.decision == Allowed
    ensures var row, decided := s.table[key], BothDecided(desk, s, first, second, key.1, a, b);
      && decided.table == s.table && first in decided.flights && second in decided.flights
      && decided.flights[first] == Writing(Dispose(desk.policy, row, a, Some(a.decidedAt)).value.item, a, row)
      && decided.flights[second] == Writing(Dispose(desk.policy, row, b, Some(b.decidedAt)).value.item, b, row)
  {
    var row := s.table[key];
    var one := AfterLoad(desk, s, first, key.1, a);
    assert one.flights == s.flights[first := Loaded(row, a)];
    var both := AfterLoad(desk, one, second, key.1, b);
    assert both.flights == one.flights[second := Loaded(row, b)];
    DecideWrites(desk, both, first, row, a);
    DecideWrites(desk, AfterDecide(desk, both, first), second, row, b);
  }

  lemma WriteStores(desk: Desk, s: Shared, call: nat, row: ReviewItem, d: ReviewDecision, item: ReviewItem)
    requires TableInv(s.table) && call in s.flights && s.flights[call] == Writing(item, d, row)
    requires KeyOf(item) in s.table && s.table[KeyOf(item)].request == item.request
    ensures var s' := AfterWrite(desk, s, call);
      && s'.table == s.table[KeyOf(item) := item] && TableInv(s'.table) && s'.flights == s.flights - {call}
  {
    RewriteSucceeds(s.table, item);
    PutKeepsInv(s.table, item);
  }

  /** Of two overlapping allowed dispositions, only the second to be written is left in the table,
      as if the first had never been made. */
  lemma LastWriterWins(
    desk: Desk, s: Shared, first: nat, second: nat, key: ReviewKey, a: ReviewDecision, b: ReviewDecision)
    requires Anchored(desk.policy, s) && first != second && first !in s.flights && second !in s.flights
    requires key in s.table && !s.table[key].IsTerminal() && a.checkerTenant == b.checkerTenant == key.0
    requires Dispose(desk.policy, s.table[key], a, Some(a.decidedAt)).value.decision == Allowed
    requires Dispose(desk.policy, s.table[key], b, Some(b.decidedAt)).value.decision == Allowed
    ensures var s1 := AfterWrite(desk, BothDecided(desk, s, first, second, key.1, a, b), first);
      && s1.table == s.table[key := Dispose(desk.policy, s.table[key], a, Some(a.decidedAt)).value.item]
      && second in s1.flights && s1.flights[second]
           == Writing(Dispose(desk.policy, s.table[key], b, Some(b.decidedAt)).value.item, b, s.table[key])
      && AfterWrite(desk, s1, second).table
           == s.table[key := Dispose(desk.policy, s.table[key], b, Some(b.decidedAt)).value.item]
  {
    var row, decided := s.table[key], BothDecided(desk, s, first, second, key.1, a, b);
    DisposeVerdict(desk.policy, row, a, Some(a.decidedAt));
    DisposeVerdict(desk.policy, row, b, Some(b.decidedAt));
    BothDecidedWrites(desk, s, first, second, key, a, b);
    WriteStores(desk, decided, first, row, a, Dispose(desk.policy, row, a, Some(a.decidedAt)).value.item);
    WriteStores(
      desk, AfterWrite(desk, decided, first), second, row, b,
      Dispose(desk.policy, row, b, Some(b.decidedAt)).value.item);
  }

  // ---- keeping resolved items ------------------------------------------------------------

  /** The check the write does not make: the row it replaces is still pending, or is already what
      it writes. */
  ghost predicate Guarded(s: Shared, a: Action) {
    a.Write? && a.call in s.flights && s.flights[a.call].Writing? ==>
      var item := s.flights[a.call].item;
      KeyOf(item) in s.table && s.table[KeyOf(item)].IsTerminal() ==> s.table[KeyOf(item)] == item
  }

  ghost predicate KeepsResolved(before: Table, after: Table) {
    forall key :: key in before && before[key].IsTerminal() ==> key in after && after[key] == before[key]
  }

  lemma WriteKeepsResolvedIff(desk: Desk, s: Shared, call: nat)
    requires Anchored(desk.policy, s) && call in s.flights && s.flights[call].Writing?
    ensures KeepsResolved(s.table, AfterWrite(desk, s, call).table) <==> Guarded(s, Write(call))
  {
    assert Fits(desk.policy, s.table, s.flights[call]);
    RewriteSucceeds(s.table, s.flights[call].item);
  }

  lemma IntakeKeepsResolved(desk: Desk, s: Shared, request: ReviewRequest)
    requires (request.tenant, request.reviewId) !in s.table
    ensures KeepsResolved(s.table, AfterIntake(desk, s, request).table)
  {
    ProjectionLaws(desk.policy, ReviewItem(request, Pending, [], ""));
  }

  lemma IntakeOnceKeepsResolved(desk: Desk, s: Shared, request: ReviewRequest)
    requires (request.tenant, request.reviewId) !in s.table
    ensures KeepsResolved(s.table, AfterIntakeOnce(desk, s, request).table)
  {
    ProjectionLaws(desk.policy, ReviewItem(request, Pending, [], ""));
  }

  /** A step keeps resolved items as they are exactly when it passes that check. */
  lemma StepKeepsResolvedIff(desk: Desk, s: Shared, a: Action)
    requires Anchored(desk.policy, s) && FreshIntake(s, a)
    ensures KeepsResolved(s.table, Next(desk, s, a).table) <==> Guarded(s, a)
  {
    if a.Intake? {
      IntakeKeepsResolved(desk, s, a.request);
    } else if a.IntakeOnce? {
      IntakeOnceKeepsResolved(desk, s, a.request);
    } else if a.Write? && a.call in s.flights && s.flights[a.call].Writing? {
      WriteKeepsResolvedIff(desk, s, a.call);
    } else {
      assert Next(desk, s, a).table == s.table;
    }
  }

  /** With the check on every write, resolved items stay resolved under every interleaving. */
  lemma {:induction false} GuardedRunsKeepResolved(desk: Desk, s: Shared, actions: seq<Action>)
    requires Anchored(desk.policy, s)
    requires Throughout(desk, s, actions, FreshIntake) && Throughout(desk, s, actions, Guarded)
    ensures KeepsResolved(s.table, Execute(desk, s, actions).table)
    decreases |actions|
  {
    if actions != [] {
      StepKeepsResolvedIff(desk, s, actions[0]);
      NextKeepsAnchored(desk, s, actions[0]);
      GuardedRunsKeepResolved(desk, Next(desk, s, actions[0]), actions[1..]);
    }
  }

  /** A console without floors or duty groups. */
  ghost function Plain(redact: string -> string): Desk { Desk(RoutingPolicy(map[], false, "approver"), redact) }

  ghost function Verdict(checker: string, disposition: Disposition): ReviewDecision {
    ReviewDecision(checker, "t", ["approver"], disposition, "", Instant(1, 0))
  }

  /** Approver and rejecter both load a new item; the approval is stored, and the stale rejection
      then overwrites the resolved item. */
  lemma StaleWriteOverturnsApproval(redact: string -> string)
    ensures var request := ReviewRequest("r", "t", "", "maker", "", "", Low, 1, "", "", [], "", Instant(0, 0));
      var s := AfterIntake(Plain(redact), NOTHING, request);
      var ann, bob := Verdict("ann", Approve), Verdict("bob", Reject);
      var s1 := AfterWrite(Plain(redact), BothDecided(Plain(redact), s, 0, 1, "r", ann, bob), 0);
      var s2 := AfterWrite(Plain(redact), s1, 1);
      && ("t", "r") in s1.table && s1.table[("t", "r")].state == Approved
      && s1.table[("t", "r")].approvals == [VoteOf(ann)]
      && ("t", "r") in s2.table && s2.table[("t", "r")].state == Rejected && s2.table[("t", "r")].approvals == []
  {
    var desk := Plain(redact);
    var request := ReviewRequest("r", "t", "", "maker", "", "", Low, 1, "", "", [], "", Instant(0, 0));
    var s := AfterIntake(desk, NOTHING, request);
    var ann, bob := Verdict("ann", Approve), Verdict("bob", Reject);
    NextKeepsAnchored(desk, NOTHING, Intake(request));
    NewcomersAreEligible(redact, request, ann, bob);
    LastWriterWins(desk, s, 0, 1, ("t", "r"), ann, bob);
    DisposeVerdict(desk.policy, s.table[("t", "r")], ann, Some(ann.decidedAt));
    DisposeVerdict(desk.policy, s.table[("t", "r")], bob, Some(bob.decidedAt));
  }

  /** That check does not protect approvals: of two overlapping votes, neither of which completes
      the required number, the second replaces the first and passes it. */
  lemma OverlappingVotesLoseOne(
    desk: Desk, s: Shared, first: nat, second: nat, key: ReviewKey, a: ReviewDecision, b: ReviewDecision)
    requires Anchored(desk.policy, s) && first != second && first !in s.flights && second !in s.flights
    requires key in s.table && !s.table[key].IsTerminal() && a.checkerTenant == b.checkerTenant == key.0
    requires Dispose(desk.policy, s.table[key], a, Some(a.decidedAt)).value.decision == Allowed
    requires Dispose(desk.policy, s.table[key], b, Some(b.decidedAt)).value.decision == Allowed
    requires a.disposition == b.disposition == Approve
    requires s.table[key].ApprovalsCount() + 1 < s.table[key].request.requiredApprovals
    ensures var row := s.table[key];
      var s1 := AfterWrite(desk, BothDecided(desk, s, first, second, key.1, a, b), first);
      var s2 := AfterWrite(desk, s1, second);
      && Guarded(s1, Write(second)) && key in s1.table && key in s2.table
      && s1.table[key] == row.WithApproval(VoteOf(a), Pending)
      && s2.table[key] == row.WithApproval(VoteOf(b), Pending)
  {
    LastWriterWins(desk, s, first, second, key, a, b);
    var row := s.table[key];
    DisposeVerdict(desk.policy, row, a, Some(a.decidedAt));
    DisposeVerdict(desk.policy, row, b, Some(b.decidedAt));
  }

  /** It happens to any new review that needs two approvals. */
  lemma GuardLosesAnApproval(redact: string -> string)
    ensures var request := ReviewRequest("r", "t", "", "maker", "", "", Low, 2, "", "", [], "", Instant(0, 0));
      var s := AfterIntake(Plain(redact), NOTHING, request);
      var ann, bob := Verdict("ann", Approve), Verdict("bob", Approve);
      var s1 := AfterWrite(Plain(redact), BothDecided(Plain(redact), s, 0, 1, "r", ann, bob), 0);
      var s2 := AfterWrite(Plain(redact), s1, 1);
      && Guarded(s1, Write(1))
      && ("t", "r") in s1.table && s1.table[("t", "r")].approvals == [VoteOf(ann)]
      && ("t", "r") in s2.table && s2.table[("t", "r")].approvals == [VoteOf(bob)]
  {
    var desk := Plain(redact);
    var request := ReviewRequest("r", "t", "", "maker", "", "", Low, 2, "", "", [], "", Instant(0, 0));
    var s := AfterIntake(desk, NOTHING, request);
    var ann, bob := Verdict("ann", Approve), Verdict("bob", Approve);
    NextKeepsAnchored(desk, NOTHING, Intake(request));
    NewcomersAreEligible(redact, request, ann, bob);
    OverlappingVotesLoseOne(desk, s, 0, 1, ("t", "r"), ann, bob);
  }

  lemma NewcomersAreEligible(redact: string -> string, request: ReviewRequest, a: ReviewDecision, b: ReviewDecision)
    requires request.tenant == a.checkerTenant == b.checkerTenant && request.requiredApprovals >= 1
    requires request.maker != a.checker && request.maker != b.checker
    requires "approver" in a.checkerGroups && "approver" in b.checkerGroups
    ensures var item := ReviewItem(request, Pending, [], "");
      && AfterIntake(Plain(redact), NOTHING, request).table == map[(request.tenant, request.reviewId) := item]
      && Dispose(Plain(redact).policy, item, a, Some(a.decidedAt)).value.decision == Allowed
      && Dispose(Plain(redact).policy, item, b, Some(b.decidedAt)).value.decision == Allowed
  {
    var item := ReviewItem(request, Pending, [], "");
    assert item.Approvers() == [];
    NoFindingsIffEligible(Plain(redact).policy, item, a.checker, a.checkerTenant, a.checkerGroups);
    NoFindingsIffEligible(Plain(redact).policy, item, b.checker, b.checkerTenant, b.checkerGroups);
  }
}
