/** Calls that overlap. A disposition is a load, a decision, a write and a record, an intake a write
    and a record, and any number of them may be in flight over stale snapshots; one routing policy
    is in force. Four-eyes safety survives every interleaving. */
module Interleaving {
  import opened Kernel
  import opened ReviewModels
  import opened MakerChecker
  import opened ReviewStore
  import opened Console

  /** A call that has loaded an item, or has decided what to write over the one it loaded. */
  datatype Flight =
    | Loaded(item: ReviewItem, decision: ReviewDecision)
    | Writing(item: ReviewItem, decision: ReviewDecision, loaded: ReviewItem)

  /** The table and the trail, the calls in flight, the records of calls that have taken effect and
      not yet recorded it, and a history of the decisions taken on each review id. */
  datatype Shared = Shared(
    table: Table, audit: seq<AuditEvent>, flights: map<nat, Flight>, unrecorded: multiset<AuditEvent>,
    taken: set<(string, ReviewDecision)>)

  datatype Action =
    | Intake(request: ReviewRequest)
    | IntakeOnce(request: ReviewRequest)
    | Load(call: nat, reviewId: string, decision: ReviewDecision)
    | Decide(call: nat)
    | Write(call: nat)
    | Record(event: AuditEvent)

  /** What a call that writes has left to record. */
  function WriteRecord(desk: Desk, item: ReviewItem, d: ReviewDecision): AuditEvent {
    DispositionEvent(desk, DispositionOutcome(item, Allowed, []), d)
  }

  // ---- the steps of a call; one that cannot be taken changes nothing -----------------------

  ghost function AfterIntake(desk: Desk, s: Shared, request: ReviewRequest): Shared {
    var item := NewItem(desk.policy, request);
    match Put(s.table, item)
    case Ok(t) => s.(table := t, unrecorded := s.unrecorded + multiset{SubmissionEvent(desk, item)})
    case Err(_) => s
  }

  ghost function AfterIntakeOnce(desk: Desk, s: Shared, request: ReviewRequest): Shared {
    match PutIfAbsent(s.table, NewItem(desk.policy, request))
    case Ok((t, row, created)) =>
      if !created then s
      else
        var persisted := WithEffectiveRouting(desk.policy, row);
        s.(table := t, unrecorded := s.unrecorded + multiset{SubmissionEvent(desk, persisted)})
    case Err(_) => s
  }

  ghost function AfterLoad(desk: Desk, s: Shared, call: nat, reviewId: string, d: ReviewDecision): Shared {
    if call in s.flights then s
    else
      match Get(s.table, d.checkerTenant, reviewId)
      case None => s
      case Some(stored) => s.(flights := s.flights[call := Loaded(WithEffectiveRouting(desk.policy, stored), d)])
  }

  ghost function AfterDecide(desk: Desk, s: Shared, call: nat): Shared {
    if call !in s.flights || !s.flights[call].Loaded? then s
    else
      var item, d := s.flights[call].item, s.flights[call].decision;
      var landed := s.(flights := s.flights - {call});
      match Dispose(desk.policy, item, d, Some(d.decidedAt))
      case Err(_) => landed
      case Ok(outcome) =>
        if outcome.decision == Denied
        then landed.(unrecorded := s.unrecorded + multiset{DispositionEvent(desk, outcome, d)})
        else s.(flights := s.flights[call := Writing(outcome.item, d, item)],
                taken := s.taken + {(item.request.reviewId, d)})
  }

  ghost function AfterWrite(desk: Desk, s: Shared, call: nat): Shared {
    if call !in s.flights || !s.flights[call].Writing? then s
    else
      var item, d := s.flights[call].item, s.flights[call].decision;
      var landed := s.(flights := s.flights - {call});
      match Put(s.table, item)
      case Ok(t) => landed.(table := t, unrecorded := s.unrecorded + multiset{WriteRecord(desk, item, d)})
      case Err(_) => landed
  }

  ghost function AfterRecord(s: Shared, event: AuditEvent): Shared {
    if event in s.unrecorded then s.(audit := s.audit + [event], unrecorded := s.unrecorded - multiset{event}) else s
  }

  /** One atomic step of one call. */
  ghost function Next(desk: Desk, s: Shared, a: Action): Shared {
    match a
    case Intake(request) => AfterIntake(desk, s, request)
    case IntakeOnce(request) => AfterIntakeOnce(desk, s, request)
    case Load(call, reviewId, decision) => AfterLoad(desk, s, call, reviewId, decision)
    case Decide(call) => AfterDecide(desk, s, call)
    case Write(call) => AfterWrite(desk, s, call)
    case Record(event) => AfterRecord(s, event)
  }

  ghost function Execute(desk: Desk, s: Shared, actions: seq<Action>): Shared
    decreases |actions|
  {
    if actions == [] then s else Execute(desk, Next(desk, s, actions[0]), actions[1..])
  }

  // ---- safety ----------------------------------------------------------------------------

  /** The approval was cast in a recorded decision on this review by someone entitled to it. */
  ghost predicate Cast(
    policy: RoutingPolicy, taken: set<(string, ReviewDecision)>, request: ReviewRequest, a: Approval)
  {
    exists d :: (request.reviewId, d) in taken && VoteOf(d) == a && Entitled(policy, request, d)
  }

  /** Every approval on the item was so cast. */
  ghost predicate Vouched(policy: RoutingPolicy, taken: set<(string, ReviewDecision)>, item: ReviewItem) {
    forall a :: a in item.approvals ==> Cast(policy, taken, item.request, a)
  }

  ghost predicate Safe(policy: RoutingPolicy, taken: set<(string, ReviewDecision)>, item: ReviewItem) {
    Sound(item) && Vouched(policy, taken, item)
  }

  ghost predicate Invariant(policy: RoutingPolicy, s: Shared) {
    && TableInv(s.table)
    && (forall k :: k in s.table ==> Safe(policy, s.taken, s.table[k]))
    && (forall call :: call in s.flights ==>
          (s.flights[call].Loaded? ==>
             && Routed(policy, s.flights[call].item)
             && Vouched(policy, s.taken, s.flights[call].item)
             && (!s.flights[call].item.IsTerminal() ==> Sound(s.flights[call].item))))
    && (forall call :: call in s.flights && s.flights[call].Writing? ==> Safe(policy, s.taken, s.flights[call].item))
  }

  lemma VouchedGrows(
    policy: RoutingPolicy, taken: set<(string, ReviewDecision)>, more: set<(string, ReviewDecision)>, item: ReviewItem)
    requires taken <= more && Vouched(policy, taken, item)
    ensures Vouched(policy, more, item)
  {
    forall a | a in item.approvals
      ensures Cast(policy, more, item.request, a)
    {
      assert Cast(policy, taken, item.request, a);
      var d :| (item.request.reviewId, d) in taken && VoteOf(d) == a && Entitled(policy, item.request, d);
      assert (item.request.reviewId, d) in more;
    }
  }

  /** Projection changes neither the approvals nor what entitles an approver. */
  lemma ProjectionVouched(policy: RoutingPolicy, taken: set<(string, ReviewDecision)>, item: ReviewItem)
    requires Vouched(policy, taken, item)
    ensures Vouched(policy, taken, WithEffectiveRouting(policy, item))
  {
    var projected := WithEffectiveRouting(policy, item);
    ProjectionLaws(policy, item);
    forall a | a in projected.approvals
      ensures Cast(policy, taken, projected.request, a)
    {
      assert Cast(policy, taken, item.request, a);
      var d :| (item.request.reviewId, d) in taken && VoteOf(d) == a && Entitled(policy, item.request, d);
      assert Entitled(policy, projected.request, d);
    }
  }

  /** An allowed decision on a sound pending snapshot yields a safe item, once it is recorded. */
  lemma DecisionIsSafe(policy: RoutingPolicy, taken: set<(string, ReviewDecision)>, item: ReviewItem, d: ReviewDecision)
    requires Sound(item) && Routed(policy, item) && !item.IsTerminal() && Vouched(policy, taken, item)
    requires Dispose(policy, item, d, Some(d.decidedAt)).value.decision == Allowed
    ensures Safe(policy, taken + {(item.request.reviewId, d)}, Dispose(policy, item, d, Some(d.decidedAt)).value.item)
  {
    var decided := Dispose(policy, item, d, Some(d.decidedAt)).value.item;
    var more := taken + {(item.request.reviewId, d)};
    DisposeKeepsSound(policy, item, d, Some(d.decidedAt));
    DisposeVerdict(policy, item, d, Some(d.decidedAt));
    VouchedGrows(policy, taken, more, item);
    if d.disposition == Approve { AppliedApprovalWasEntitled(policy, item, d, Some(d.decidedAt)); }
    forall a | a in decided.approvals
      ensures Cast(policy, more, decided.request, a)
    {
      if a !in item.approvals {
        assert Entitled(policy, decided.request, d) && (decided.request.reviewId, d) in more;
      }
    }
  }

  lemma DecideKeeps(desk: Desk, s: Shared, call: nat)
    requires Invariant(desk.policy, s)
    ensures Invariant(desk.policy, AfterDecide(desk, s, call))
  {
    var s' := AfterDecide(desk, s, call);
    if call in s'.flights && s'.flights[call].Writing? && s.flights[call].Loaded? {
      var flight := s.flights[call];
      DecisionIsSafe(desk.policy, s.taken, flight.item, flight.decision);
    }
    forall item: ReviewItem | Vouched(desk.policy, s.taken, item) ensures Vouched(desk.policy, s'.taken, item) {
      VouchedGrows(desk.policy, s.taken, s'.taken, item);
    }
  }

  lemma StoringKeeps(policy: RoutingPolicy, s: Shared, t: Table, item: ReviewItem)
    requires Invariant(policy, s) && Safe(policy, s.taken, item)
    requires TableInv(t) && t == s.table[KeyOf(item) := item]
    ensures Invariant(policy, s.(table := t))
  {}

  lemma NewItemIsSafe(policy: RoutingPolicy, taken: set<(string, ReviewDecision)>, request: ReviewRequest)
    ensures Safe(policy, taken, NewItem(policy, request))
  {
    assert NewItem(policy, request).approvals == [];
    assert NewItem(policy, request).Approvers() == [];
  }

  lemma LoadKeeps(desk: Desk, s: Shared, call: nat, reviewId: string, decision: ReviewDecision)
    requires Invariant(desk.policy, s)
    ensures Invariant(desk.policy, AfterLoad(desk, s, call, reviewId, decision))
  {
    if call !in s.flights && (decision.checkerTenant, reviewId) in s.table {
      var stored := s.table[(decision.checkerTenant, reviewId)];
      ProjectionLaws(desk.policy, stored);
      ProjectionVouched(desk.policy, s.taken, stored);
    }
  }

  lemma WriteKeeps(desk: Desk, s: Shared, call: nat)
    requires Invariant(desk.policy, s)
    ensures Invariant(desk.policy, AfterWrite(desk, s, call))
  {
    if call in s.flights && s.flights[call].Writing? {
      var item := s.flights[call].item;
      PutKeepsInv(s.table, item);
      if Put(s.table, item).Ok? { StoringKeeps(desk.policy, s, Put(s.table, item).value, item); }
    }
  }

  lemma NextKeeps(desk: Desk, s: Shared, a: Action)
    requires Invariant(desk.policy, s)
    ensures Invariant(desk.policy, Next(desk, s, a))
  {
    match a {
      case Intake(request) =>
        var item := NewItem(desk.policy, request);
        NewItemIsSafe(desk.policy, s.taken, request);
        PutKeepsInv(s.table, item);
        if Put(s.table, item).Ok? { StoringKeeps(desk.policy, s, Put(s.table, item).value, item); }
      case IntakeOnce(request) =>
        var item := NewItem(desk.policy, request);
        NewItemIsSafe(desk.policy, s.taken, request);
        PutIfAbsentKeepsInv(s.table, item);
        if PutIfAbsent(s.table, item).Ok? && PutIfAbsent(s.table, item).value.2 {
          StoringKeeps(desk.policy, s, PutIfAbsent(s.table, item).value.0, item);
        }
      case Load(call, reviewId, decision) => LoadKeeps(desk, s, call, reviewId, decision);
      case Decide(call) => DecideKeeps(desk, s, call);
      case Write(call) => WriteKeeps(desk, s, call);
      case Record(_) =>
    }
  }

  lemma {:induction false} ExecuteKeeps(desk: Desk, s: Shared, actions: seq<Action>)
    requires Invariant(desk.policy, s)
    ensures Invariant(desk.policy, Execute(desk, s, actions))
    decreases |actions|
  {
    if actions != [] {
      NextKeeps(desk, s, actions[0]);
      ExecuteKeeps(desk, Next(desk, s, actions[0]), actions[1..]);
    }
  }

  const NOTHING: Shared := Shared(map[], [], map[], multiset{}, {})

  /** Four-eyes safety under every interleaving: whatever snapshots go stale, a stored approved
      item carries exactly the required number of approvals, by pairwise distinct people, none
      the maker, each of whom decided it while entitled to. */
  lemma FourEyesSurvivesInterleaving(desk: Desk, actions: seq<Action>, key: ReviewKey)
    requires key in Execute(desk, NOTHING, actions).table
    requires Execute(desk, NOTHING, actions).table[key].state == Approved
    ensures var s := Execute(desk, NOTHING, actions);
      var item := s.table[key];
      && item.ApprovalsCount() == item.request.requiredApprovals
      && desk.policy.Floor(item.request.severity) <= item.request.requiredApprovals
      && Distinct(item.Approvers())
      && item.request.maker !in item.Approvers()
      && Vouched(desk.policy, s.taken, item)
  {
    ExecuteKeeps(desk, NOTHING, actions);
    ExecuteKeepsRouted(desk, NOTHING, actions);
  }

  /** Everything stored under one policy carries its floor. */
  ghost predicate AllRouted(policy: RoutingPolicy, s: Shared) {
    && (forall k :: k in s.table ==> Routed(policy, s.table[k]))
    && (forall call :: call in s.flights ==> Routed(policy, s.flights[call].item))
  }

  lemma IntakeKeepsRouted(desk: Desk, s: Shared, request: ReviewRequest)
    requires AllRouted(desk.policy, s)
    ensures AllRouted(desk.policy, AfterIntake(desk, s, request))
    ensures AllRouted(desk.policy, AfterIntakeOnce(desk, s, request))
  {
    ProjectionLaws(desk.policy, ReviewItem(request, Pending, [], ""));
  }

  lemma LoadKeepsRouted(desk: Desk, s: Shared, call: nat, reviewId: string, d: ReviewDecision)
    requires AllRouted(desk.policy, s)
    ensures AllRouted(desk.policy, AfterLoad(desk, s, call, reviewId, d))
  {
    if (d.checkerTenant, reviewId) in s.table { ProjectionLaws(desk.policy, s.table[(d.checkerTenant, reviewId)]); }
  }

  lemma DecideKeepsRouted(desk: Desk, s: Shared, call: nat)
    requires AllRouted(desk.policy, s)
    ensures AllRouted(desk.policy, AfterDecide(desk, s, call))
  {
    if call in s.flights && s.flights[call].Loaded? {
      var d := s.flights[call].decision;
      DisposeVerdict(desk.policy, s.flights[call].item, d, Some(d.decidedAt));
    }
  }

  lemma WriteKeepsRouted(desk: Desk, s: Shared, call: nat)
    requires AllRouted(desk.policy, s)
    ensures AllRouted(desk.policy, AfterWrite(desk, s, call))
  {}

  lemma NextKeepsRouted(desk: Desk, s: Shared, a: Action)
    requires AllRouted(desk.policy, s)
    ensures AllRouted(desk.policy, Next(desk, s, a))
  {
    match a {
      case Intake(request) => IntakeKeepsRouted(desk, s, request);
      case IntakeOnce(request) => IntakeKeepsRouted(desk, s, request);
      case Load(call, reviewId, d) => LoadKeepsRouted(desk, s, call, reviewId, d);
      case Decide(call) => DecideKeepsRouted(desk, s, call);
      case Write(call) => WriteKeepsRouted(desk, s, call);
      case Record(_) =>
    }
  }

  lemma {:induction false} ExecuteKeepsRouted(desk: Desk, s: Shared, actions: seq<Action>)
    requires AllRouted(desk.policy, s)
    ensures AllRouted(desk.policy, Execute(desk, s, actions))
    decreases |actions|
  {
    if actions != [] {
      NextKeepsRouted(desk, s, actions[0]);
      ExecuteKeepsRouted(desk, Next(desk, s, actions[0]), actions[1..]);
    }
  }

  // ---- calls that do not overlap -----------------------------------------------------------

  /** The steps of a call with nothing in between. */
  ghost function Atomically(desk: Desk, s: Shared, call: nat, reviewId: string, d: ReviewDecision): Shared {
    var written := AfterWrite(desk, AfterDecide(desk, AfterLoad(desk, s, call, reviewId, d), call), call);
    match DisposeReview(desk, ConsoleState(s.table, s.audit), reviewId, d).1
    case Err(_) => written
    case Ok(outcome) => AfterRecord(written, DispositionEvent(desk, outcome, d))
  }

  /** An allowed verdict leaves the call with its item to write. */
  lemma DecideWrites(desk: Desk, s: Shared, call: nat, item: ReviewItem, d: ReviewDecision)
    requires call in s.flights && s.flights[call] == Loaded(item, d) && !item.IsTerminal()
    requires Dispose(desk.policy, item, d, Some(d.decidedAt)).value.decision == Allowed
    ensures AfterDecide(desk, s, call) == s.(
      flights := s.flights[call := Writing(Dispose(desk.policy, item, d, Some(d.decidedAt)).value.item, d, item)],
      taken := s.taken + {(item.request.reviewId, d)})
  {}

  lemma WriteThenRecord(desk: Desk, s: Shared, call: nat, item: ReviewItem, d: ReviewDecision, loaded: ReviewItem)
    requires call in s.flights && s.flights[call] == Writing(item, d, loaded) && Put(s.table, item).Ok?
    ensures AfterRecord(AfterWrite(desk, s, call), WriteRecord(desk, item, d)) == s.(
      table := s.table[KeyOf(item) := item], audit := s.audit + [WriteRecord(desk, item, d)],
      flights := s.flights - {call})
  {
    assert s.unrecorded + multiset{WriteRecord(desk, item, d)} - multiset{WriteRecord(desk, item, d)} == s.unrecorded;
  }

  lemma DenyThenRecord(desk: Desk, s: Shared, call: nat, item: ReviewItem, d: ReviewDecision)
    requires call in s.flights && s.flights[call] == Loaded(item, d) && !item.IsTerminal()
    requires Dispose(desk.policy, item, d, Some(d.decidedAt)).value.decision == Denied
    ensures var e := DispositionEvent(desk, Dispose(desk.policy, item, d, Some(d.decidedAt)).value, d);
      AfterRecord(AfterWrite(desk, AfterDecide(desk, s, call), call), e)
      == s.(audit := s.audit + [e], flights := s.flights - {call})
  {
    var e := DispositionEvent(desk, Dispose(desk.policy, item, d, Some(d.decidedAt)).value, d);
    assert s.unrecorded + multiset{e} - multiset{e} == s.unrecorded;
  }

  lemma UninterruptedDenial(desk: Desk, s: Shared, call: nat, item: ReviewItem, d: ReviewDecision)
    requires call !in s.flights && !item.IsTerminal()
    requires Dispose(desk.policy, item, d, Some(d.decidedAt)).value.decision == Denied
    ensures var loaded := s.(flights := s.flights[call := Loaded(item, d)]);
      var e := DispositionEvent(desk, Dispose(desk.policy, item, d, Some(d.decidedAt)).value, d);
      AfterRecord(AfterWrite(desk, AfterDecide(desk, loaded, call), call), e) == s.(audit := s.audit + [e])
  {
    var loaded := s.(flights := s.flights[call := Loaded(item, d)]);
    assert loaded.flights - {call} == s.flights;
    DenyThenRecord(desk, loaded, call, item, d);
  }

  lemma UninterruptedWrite(desk: Desk, s: Shared, call: nat, item: ReviewItem, d: ReviewDecision)
    requires call !in s.flights && !item.IsTerminal()
    requires Dispose(desk.policy, item, d, Some(d.decidedAt)).value.decision == Allowed
    ensures var loaded := s.(flights := s.flights[call := Loaded(item, d)]);
      var outcome := Dispose(desk.policy, item, d, Some(d.decidedAt)).value;
      var written := AfterWrite(desk, AfterDecide(desk, loaded, call), call);
      var e := WriteRecord(desk, outcome.item, d);
      if Put(s.table, outcome.item).Ok?
      then AfterRecord(written, e) == s.(
        table := s.table[KeyOf(outcome.item) := outcome.item], audit := s.audit + [e],
        taken := s.taken + {(item.request.reviewId, d)})
      else written == s.(taken := s.taken + {(item.request.reviewId, d)})
  {
    var loaded := s.(flights := s.flights[call := Loaded(item, d)]);
    var outcome := Dispose(desk.policy, item, d, Some(d.decidedAt)).value;
    DecideWrites(desk, loaded, call, item, d);
    var decided := AfterDecide(desk, loaded, call);
    assert decided.flights - {call} == s.flights;
    if Put(s.table, outcome.item).Ok? { WriteThenRecord(desk, decided, call, outcome.item, d, item); }
  }

  /** Uninterrupted, a call does to the table and the trail what the serial disposition does, and
      leaves nothing behind. */
  lemma UninterruptedIsSerial(desk: Desk, s: Shared, call: nat, reviewId: string, d: ReviewDecision)
    requires call !in s.flights
    ensures var s' := Atomically(desk, s, call, reviewId, d);
      && ConsoleState(s'.table, s'.audit) == DisposeReview(desk, ConsoleState(s.table, s.audit), reviewId, d).0
      && s'.flights == s.flights && s'.unrecorded == s.unrecorded
  {
    if (d.checkerTenant, reviewId) in s.table {
      var item := WithEffectiveRouting(desk.policy, s.table[(d.checkerTenant, reviewId)]);
      var loaded := AfterLoad(desk, s, call, reviewId, d);
      assert loaded == s.(flights := s.flights[call := Loaded(item, d)]) && loaded.flights - {call} == s.flights;
      if !item.IsTerminal() {
        DisposeVerdict(desk.policy, item, d, Some(d.decidedAt));
        if Dispose(desk.policy, item, d, Some(d.decidedAt)).value.decision == Denied {
          UninterruptedDenial(desk, s, call, item, d);
        } else {
          UninterruptedWrite(desk, s, call, item, d);
        }
      }
    }
  }
}
