/** Recording in time. If each call also records before the next one writes to the same review, the
    trail of checked calls folds to what is stored; if not, checked writes can be recorded in an
    order that does not. */
module PromptRecording {
  import opened Kernel
  import opened ReviewModels
  import opened MakerChecker
  import opened ReviewStore
  import opened Console
  import opened Workflow
  import opened Platform
  import opened ConsoleRuns
  import opened Interleaving
  import opened StaleWrites
  import opened Linearization
  import opened TrailOrder

  // ---- recording promptly ----------------------------------------------------------------

  /** A call writes to a review only after every earlier change to it has been recorded. */
  ghost predicate Prompt(s: Shared, a: Action) {
    a.Write? && a.call in s.flights && s.flights[a.call].Writing? ==> Settled(s, KeyOf(s.flights[a.call].item))
  }

  /** The allowed record a step leaves to be made, if any. */
  ghost function Owed(desk: Desk, s: Shared, a: Action): seq<AuditEvent> {
    match a
    case Intake(request) =>
      if Put(s.table, NewItem(desk.policy, request)).Ok?
      then [SubmissionEvent(desk, NewItem(desk.policy, request))] else []
    case IntakeOnce(request) =>
      (match PutIfAbsent(s.table, NewItem(desk.policy, request))
       case Ok((_, row, created)) =>
         if created then [SubmissionEvent(desk, WithEffectiveRouting(desk.policy, row))] else []
       case Err(_) => [])
    case Write(call) =>
      if call in s.flights && s.flights[call].Writing?
      then [WriteRecord(desk, s.flights[call].item, s.flights[call].decision)] else []
    case _ => []
  }

  lemma WriteOwes(desk: Desk, s: Shared, sys: System, call: nat)
    requires Anchored(desk.policy, s) && Simulates(s, sys)
    requires call in s.flights && s.flights[call].Writing? && Current(s, Write(call))
    ensures var flight := s.flights[call];
      DisposeReview(desk, sys.console, flight.item.request.reviewId, flight.decision).0.audit
      == sys.console.audit + [WriteRecord(desk, flight.item, flight.decision)]
  {
    assert Fits(desk.policy, s.table, s.flights[call]);
    SerialDisposition(desk, sys.console, KeyOf(s.flights[call].item), s.flights[call].decision);
  }

  /** The serial run records at once what the step owes. */
  lemma SerialRecords(env: Env, desk: Desk, s: Shared, sys: System, a: Action)
    requires Anchored(desk.policy, s) && Simulates(s, sys) && env.redact == desk.redact && Current(s, a)
    ensures Run(env, sys, SerialStep(desk, s, a)).console.audit == sys.console.audit + Owed(desk, s, a)
  {
    var steps := SerialStep(desk, s, a);
    if steps != [] {
      OneCommand(env, sys, steps);
      if a.Write? { WriteOwes(desk, s, sys, a.call); }
    }
  }

  /** The trail is at most one allowed record of the review behind. */
  ghost predicate OneBehind(a: seq<AuditEvent>, b: seq<AuditEvent>) {
    a == b || (b != [] && a == b[..|b| - 1])
  }

  ghost predicate NearlyInOrder(s: Shared, serial: seq<AuditEvent>) {
    forall key :: OneBehind(Filter(AllowedOf(key), s.audit), Filter(AllowedOf(key), serial))
  }

  lemma LastCount(trail: seq<AuditEvent>, e: AuditEvent)
    requires trail != []
    ensures multiset(trail)[e]
      == multiset(trail[..|trail| - 1])[e] + if e == trail[|trail| - 1] then 1 else 0
  {
    assert trail == trail[..|trail| - 1] + [trail[|trail| - 1]];
  }

  lemma BehindCount(a: seq<AuditEvent>, b: seq<AuditEvent>, e: AuditEvent)
    requires OneBehind(a, b)
    ensures multiset(b)[e] == multiset(a)[e] + if a != b && e == b[|b| - 1] then 1 else 0
  {
    if a != b { LastCount(b, e); }
  }

  /** What is missing from the trail is what is still to be recorded. */
  lemma MissingIsUnrecorded(s: Shared, serial: seq<AuditEvent>, key: ReviewKey, e: AuditEvent)
    requires SameAllowed(s.audit, s.unrecorded, serial) && NearlyInOrder(s, serial) && AllowedOf(key)(e)
    ensures var a, b := Filter(AllowedOf(key), s.audit), Filter(AllowedOf(key), serial);
      s.unrecorded[e] == if a != b && e == b[|b| - 1] then 1 else 0
  {
    FilterCount(AllowedOf(key), s.audit, e);
    FilterCount(AllowedOf(key), serial, e);
    BehindCount(Filter(AllowedOf(key), s.audit), Filter(AllowedOf(key), serial), e);
    assert Allows()(e);
  }

  lemma SettledIff(s: Shared, serial: seq<AuditEvent>, key: ReviewKey)
    requires SameAllowed(s.audit, s.unrecorded, serial) && NearlyInOrder(s, serial)
    ensures Settled(s, key) <==> InWriteOrder(s, serial, key)
  {
    var a, b := Filter(AllowedOf(key), s.audit), Filter(AllowedOf(key), serial);
    assert OneBehind(a, b);
    if a != b {
      var last := b[|b| - 1];
      assert last in b;
      MissingIsUnrecorded(s, serial, key, last);
      assert last in s.unrecorded;
    } else {
      forall e | e in s.unrecorded ensures !AllowedOf(key)(e) {
        if AllowedOf(key)(e) { MissingIsUnrecorded(s, serial, key, e); }
      }
    }
  }

  lemma CatchesUp(a: seq<AuditEvent>, b: seq<AuditEvent>, e: AuditEvent)
    requires OneBehind(a, b) && a != b && e == b[|b| - 1]
    ensures a + [e] == b
  {}

  lemma RecordCatchesUp(s: Shared, serial: seq<AuditEvent>, e: AuditEvent)
    requires SameAllowed(s.audit, s.unrecorded, serial) && NearlyInOrder(s, serial) && e in s.unrecorded
    ensures NearlyInOrder(AfterRecord(s, e), serial)
  {
    forall key ensures OneBehind(Filter(AllowedOf(key), s.audit + [e]), Filter(AllowedOf(key), serial)) {
      FilterSnoc(AllowedOf(key), s.audit, e);
      assert OneBehind(Filter(AllowedOf(key), s.audit), Filter(AllowedOf(key), serial));
      if AllowedOf(key)(e) {
        MissingIsUnrecorded(s, serial, key, e);
        CatchesUp(Filter(AllowedOf(key), s.audit), Filter(AllowedOf(key), serial), e);
      }
    }
  }

  lemma OwingStaysNear(s: Shared, s': Shared, serial: seq<AuditEvent>, e: AuditEvent)
    requires SameAllowed(s.audit, s.unrecorded, serial) && NearlyInOrder(s, serial) && s'.audit == s.audit
    requires e.SignOff? && Settled(s, (e.tenant, e.reviewId))
    ensures NearlyInOrder(s', serial + [e])
  {
    forall key ensures OneBehind(Filter(AllowedOf(key), s'.audit), Filter(AllowedOf(key), serial + [e])) {
      FilterSnoc(AllowedOf(key), serial, e);
      assert OneBehind(Filter(AllowedOf(key), s.audit), Filter(AllowedOf(key), serial));
      if AllowedOf(key)(e) { SettledIff(s, serial, key); }
    }
  }

  lemma NewReviewIsSettled(s: Shared, key: ReviewKey)
    requires AllAbout(s) && key !in s.table
    ensures Settled(s, key)
  {}

  lemma OwedIsAboutSettled(desk: Desk, s: Shared, a: Action)
    requires Anchored(desk.policy, s) && AllAbout(s) && FreshIntake(s, a) && Prompt(s, a) && Owed(desk, s, a) != []
    ensures |Owed(desk, s, a)| == 1 && Owed(desk, s, a)[0].SignOff?
    ensures Settled(s, (Owed(desk, s, a)[0].tenant, Owed(desk, s, a)[0].reviewId))
    ensures Next(desk, s, a).audit == s.audit
  {
    if !a.Write? {
      ProjectionLaws(desk.policy, ReviewItem(a.request, Pending, [], ""));
      ProjectionLaws(desk.policy, NewItem(desk.policy, a.request));
      NewReviewIsSettled(s, (a.request.tenant, a.request.reviewId));
    }
  }

  lemma QuietStaysNear(desk: Desk, s: Shared, serial: seq<AuditEvent>, a: Action)
    requires SameAllowed(s.audit, s.unrecorded, serial) && NearlyInOrder(s, serial)
    ensures Owed(desk, s, a) == [] ==> NearlyInOrder(Next(desk, s, a), serial)
  {
    if a.Record? && a.event in s.unrecorded {
      RecordCatchesUp(s, serial, a.event);
    } else {
      assert Next(desk, s, a).audit == s.audit;
    }
  }

  lemma StepStaysNear(env: Env, desk: Desk, s: Shared, sys: System, a: Action)
    requires Anchored(desk.policy, s) && Simulates(s, sys) && env.redact == desk.redact && AllAbout(s)
    requires FreshIntake(s, a) && Current(s, a) && Prompt(s, a) && NearlyInOrder(s, sys.console.audit)
    ensures NearlyInOrder(Next(desk, s, a), Run(env, sys, SerialStep(desk, s, a)).console.audit)
  {
    var serial, owed := sys.console.audit, Owed(desk, s, a);
    SerialRecords(env, desk, s, sys, a);
    if owed == [] {
      QuietStaysNear(desk, s, serial, a);
      assert serial + owed == serial;
    } else {
      OwedIsAboutSettled(desk, s, a);
      assert owed == [owed[0]];
      OwingStaysNear(s, Next(desk, s, a), serial, owed[0]);
    }
  }

  lemma {:induction false} PromptRunsStayNear(env: Env, desk: Desk, s: Shared, sys: System, actions: seq<Action>)
    requires Anchored(desk.policy, s) && Simulates(s, sys) && env.redact == desk.redact && AllAbout(s)
    requires Throughout(desk, s, actions, FreshIntake) && Throughout(desk, s, actions, Current)
    requires Throughout(desk, s, actions, Prompt) && NearlyInOrder(s, sys.console.audit)
    ensures NearlyInOrder(Execute(desk, s, actions), Run(env, sys, Serial(desk, s, actions)).console.audit)
    decreases |actions|
  {
    if actions != [] {
      var s1 := Next(desk, s, actions[0]);
      NextKeepsAnchored(desk, s, actions[0]);
      NextKeepsAbout(desk, s, actions[0]);
      StepIsSerial(env, desk, s, sys, actions[0]);
      RunAppends(env, sys, SerialStep(desk, s, actions[0]), Serial(desk, s1, actions[1..]));
      StepStaysNear(env, desk, s, sys, actions[0]);
      PromptRunsStayNear(env, desk, s1, Run(env, sys, SerialStep(desk, s, actions[0])), actions[1..]);
    }
  }

  /** If calls also record promptly, the trail of every settled review folds to what is stored, as in
      serial runs. */
  lemma PromptRunsKeepTheFold(env: Env, desk: Desk, actions: seq<Action>, key: ReviewKey)
    requires env.redact == desk.redact
    requires Throughout(desk, NOTHING, actions, FreshIntake) && Throughout(desk, NOTHING, actions, Current)
    requires Throughout(desk, NOTHING, actions, Prompt)
    requires key in Execute(desk, NOTHING, actions).table && Settled(Execute(desk, NOTHING, actions), key)
    ensures var s := Execute(desk, NOTHING, actions);
      && Rebuild(Filter(SignOffsOf(key), s.audit)) == Rebuilt(s.table[key].state, s.table[key].Approvers())
      && (TrailMatches(ConsoleState(s.table, s.audit), key)
          <==> (LastIsDenial(s.audit, key) ==> s.table[key].state == Pending))
  {
    PromptRunsAreInOrder(env, desk, actions, key);
    TrailDeterminesStoreIff(env, desk, actions, key);
    CurrentRunsAreSerial(env, desk, NOTHING, EMPTY, actions);
    RunKeeps(env, EMPTY, Serial(desk, NOTHING, actions));
    var serial := Run(env, EMPTY, Serial(desk, NOTHING, actions)).console;
    assert TrailMatches(serial, key);
    FoldMatchesIff(Execute(desk, NOTHING, actions), serial, key);
  }

  lemma PromptRunsAreInOrder(env: Env, desk: Desk, actions: seq<Action>, key: ReviewKey)
    requires env.redact == desk.redact
    requires Throughout(desk, NOTHING, actions, FreshIntake) && Throughout(desk, NOTHING, actions, Current)
    requires Throughout(desk, NOTHING, actions, Prompt)
    ensures var serial := Run(env, EMPTY, Serial(desk, NOTHING, actions)).console.audit;
      Settled(Execute(desk, NOTHING, actions), key) <==> InWriteOrder(Execute(desk, NOTHING, actions), serial, key)
  {
    CurrentRunsAreSerial(env, desk, NOTHING, EMPTY, actions);
    PromptRunsStayNear(env, desk, NOTHING, EMPTY, actions);
    SettledIff(
      Execute(desk, NOTHING, actions), Run(env, EMPTY, Serial(desk, NOTHING, actions)).console.audit, key);
  }

  // ---- checked writes recorded out of order ----------------------------------------------

  /** Every write on the way there is checked. */
  ghost predicate Checked(desk: Desk, s: Shared, actions: seq<Action>, s': Shared)
    decreases |actions|
  {
    if actions == [] then s == s'
    else FreshIntake(s, actions[0]) && Current(s, actions[0])
         && Checked(desk, Next(desk, s, actions[0]), actions[1..], s')
  }

  ghost predicate Reaches(desk: Desk, s: Shared, s': Shared) { exists actions :: Checked(desk, s, actions, s') }

  lemma {:induction false} CheckedIsExecuted(desk: Desk, s: Shared, actions: seq<Action>, s': Shared)
    requires Checked(desk, s, actions, s')
    ensures Throughout(desk, s, actions, FreshIntake) && Throughout(desk, s, actions, Current)
    ensures Execute(desk, s, actions) == s'
    decreases |actions|
  {
    if actions != [] { CheckedIsExecuted(desk, Next(desk, s, actions[0]), actions[1..], s'); }
  }

  lemma StepReaches(desk: Desk, s: Shared, a: Action)
    requires FreshIntake(s, a) && Current(s, a)
    ensures Reaches(desk, s, Next(desk, s, a))
  {
    assert Checked(desk, s, [a], Next(desk, s, a));
  }

  lemma CheckedPrepends(desk: Desk, s: Shared, a: Action, after: seq<Action>, s': Shared)
    requires FreshIntake(s, a) && Current(s, a) && Checked(desk, Next(desk, s, a), after, s')
    ensures Checked(desk, s, [a] + after, s')
  {
    assert ([a] + after)[1..] == after;
  }

  lemma {:induction false} CheckedAppends(
    desk: Desk, s: Shared, a: seq<Action>, s1: Shared, b: seq<Action>, s2: Shared)
    requires Checked(desk, s, a, s1) && Checked(desk, s1, b, s2)
    ensures Checked(desk, s, a + b, s2)
    decreases |a|
  {
    if a == [] {
      assert a + b == b;
    } else {
      CheckedAppends(desk, Next(desk, s, a[0]), a[1..], s1, b, s2);
      CheckedPrepends(desk, s, a[0], a[1..] + b, s2);
      HeadFirst(a, b);
    }
  }

  lemma ReachesTransitive(desk: Desk, s: Shared, s1: Shared, s2: Shared)
    requires Reaches(desk, s, s1) && Reaches(desk, s1, s2)
    ensures Reaches(desk, s, s2)
  {
    var a :| Checked(desk, s, a, s1);
    var b :| Checked(desk, s1, b, s2);
    CheckedAppends(desk, s, a, s1, b, s2);
  }

  /** The state after an uninterrupted vote that has yet to be recorded. */
  ghost function Voted(desk: Desk, s: Shared, item: ReviewItem, d: ReviewDecision): Shared {
    s.(table := s.table[KeyOf(item) := item], unrecorded := s.unrecorded + multiset{WriteRecord(desk, item, d)},
       taken := s.taken + {(item.request.reviewId, d)})
  }

  lemma LoadReaches(desk: Desk, s: Shared, call: nat, row: ReviewItem, d: ReviewDecision)
    requires call !in s.flights && KeyOf(row) in s.table && s.table[KeyOf(row)] == row && Routed(desk.policy, row)
    requires row.request.tenant == d.checkerTenant
    ensures Reaches(desk, s, s.(flights := s.flights[call := Loaded(row, d)]))
  {
    StepReaches(desk, s, Load(call, row.request.reviewId, d));
  }

  lemma DecideReaches(desk: Desk, s: Shared, call: nat, row: ReviewItem, d: ReviewDecision, item: ReviewItem)
    requires call in s.flights && s.flights[call] == Loaded(row, d) && !row.IsTerminal()
    requires Dispose(desk.policy, row, d, Some(d.decidedAt)) == Ok(DispositionOutcome(item, Allowed, []))
    ensures Reaches(desk, s, s.(
      flights := s.flights[call := Writing(item, d, row)], taken := s.taken + {(row.request.reviewId, d)}))
  {
    StepReaches(desk, s, Decide(call));
    DecideWrites(desk, s, call, row, d);
  }

  lemma WriteReaches(desk: Desk, s: Shared, call: nat, row: ReviewItem, d: ReviewDecision, item: ReviewItem)
    requires call in s.flights && s.flights[call] == Writing(item, d, row) && Put(s.table, item).Ok?
    requires KeyOf(item) in s.table && s.table[KeyOf(item)] == row
    ensures Reaches(desk, s, s.(
      table := s.table[KeyOf(item) := item], unrecorded := s.unrecorded + multiset{WriteRecord(desk, item, d)},
      flights := s.flights - {call}))
  {
    StepReaches(desk, s, Write(call));
  }

  lemma VoteReaches(desk: Desk, s: Shared, row: ReviewItem, d: ReviewDecision, item: ReviewItem)
    requires s.flights == map[] && KeyOf(row) in s.table && s.table[KeyOf(row)] == row && Routed(desk.policy, row)
    requires row.request.tenant == d.checkerTenant && !row.IsTerminal()
    requires item.request == row.request && Put(s.table, item).Ok?
    requires Dispose(desk.policy, row, d, Some(d.decidedAt)) == Ok(DispositionOutcome(item, Allowed, []))
    ensures Reaches(desk, s, Voted(desk, s, item, d))
  {
    var loaded := s.(flights := map[0 := Loaded(row, d)]);
    LoadReaches(desk, s, 0, row, d);
    DecideReaches(desk, loaded, 0, row, d, item);
    var decided := s.(flights := map[0 := Writing(item, d, row)], taken := s.taken + {(row.request.reviewId, d)});
    assert loaded.flights[0 := Writing(item, d, row)] == decided.flights;
    WriteReaches(desk, decided, 0, row, d, item);
    assert decided.flights - {0} == map[];
    ReachesTransitive(desk, s, loaded, decided);
    ReachesTransitive(desk, s, decided, Voted(desk, s, item, d));
  }

  lemma RecordReaches(desk: Desk, s: Shared, e: AuditEvent)
    requires e in s.unrecorded
    ensures Reaches(desk, s, s.(audit := s.audit + [e], unrecorded := s.unrecorded - multiset{e}))
  {
    StepReaches(desk, s, Record(e));
  }

  /** A new review, stored and recorded. */
  ghost function Filed(desk: Desk, item: ReviewItem): Shared {
    NOTHING.(table := map[KeyOf(item) := item], audit := [SubmissionEvent(desk, item)])
  }

  lemma FirstIntake(desk: Desk, request: ReviewRequest)
    ensures var item := NewItem(desk.policy, request);
      AfterIntake(desk, NOTHING, request)
      == NOTHING.(table := map[KeyOf(item) := item], unrecorded := multiset{SubmissionEvent(desk, item)})
  {
    ProjectionLaws(desk.policy, ReviewItem(request, Pending, [], ""));
    assert NOTHING.unrecorded + multiset{SubmissionEvent(desk, NewItem(desk.policy, request))}
      == multiset{SubmissionEvent(desk, NewItem(desk.policy, request))};
  }

  lemma IntakeReaches(desk: Desk, s: Shared, request: ReviewRequest)
    requires (request.tenant, request.reviewId) !in s.table
    ensures Reaches(desk, s, AfterIntake(desk, s, request))
  {
    StepReaches(desk, s, Intake(request));
  }

  lemma FiledIsReached(desk: Desk, request: ReviewRequest)
    ensures Reaches(desk, NOTHING, Filed(desk, NewItem(desk.policy, request)))
  {
    var item := NewItem(desk.policy, request);
    var e := SubmissionEvent(desk, item);
    var stored := NOTHING.(table := map[KeyOf(item) := item], unrecorded := multiset{e});
    FirstIntake(desk, request);
    IntakeReaches(desk, NOTHING, request);
    RecordReaches(desk, stored, e);
    assert stored.unrecorded - multiset{e} == multiset{} && stored.audit + [e] == [e];
    ReachesTransitive(desk, NOTHING, stored, Filed(desk, item));
  }

  /** The checker may vote on an item it has neither made nor voted on. */
  lemma MayVote(redact: string -> string, item: ReviewItem, d: ReviewDecision)
    requires !item.IsTerminal() && item.request.tenant == d.checkerTenant && "approver" in d.checkerGroups
    requires item.request.maker != d.checker && d.checker !in item.Approvers() && d.disposition == Approve
    requires item.request.requiredApprovals >= 1
    ensures Dispose(Plain(redact).policy, item, d, Some(d.decidedAt)) == Ok(DispositionOutcome(
      item.WithApproval(VoteOf(d), if item.ApprovalsCount() + 1 >= item.request.requiredApprovals
                                   then Approved else Pending), Allowed, []))
  {
    NoFindingsIffEligible(Plain(redact).policy, item, d.checker, d.checkerTenant, d.checkerGroups);
    DisposeVerdict(Plain(redact).policy, item, d, Some(d.decidedAt));
  }

  /** Both may vote on the request, and two votes complete it. */
  ghost predicate TwoEyes(request: ReviewRequest, a: ReviewDecision, b: ReviewDecision) {
    && request.tenant == a.checkerTenant == b.checkerTenant && request.requiredApprovals == 2
    && request.maker != a.checker && request.maker != b.checker && a.checker != b.checker
    && "approver" in a.checkerGroups && "approver" in b.checkerGroups
    && a.disposition == b.disposition == Approve
  }

  ghost function NoVotes(request: ReviewRequest): ReviewItem { ReviewItem(request, Pending, [], "") }

  ghost function OneVote(request: ReviewRequest, a: ReviewDecision): ReviewItem {
    ReviewItem(request, Pending, [VoteOf(a)], "")
  }

  ghost function TwoVotes(request: ReviewRequest, a: ReviewDecision, b: ReviewDecision): ReviewItem {
    ReviewItem(request, Approved, [VoteOf(a), VoteOf(b)], "")
  }

  lemma VoteOnPlain(redact: string -> string, s: Shared, row: ReviewItem, d: ReviewDecision, item: ReviewItem)
    requires Reaches(Plain(redact), NOTHING, s) && s.flights == map[] && s.table == map[KeyOf(row) := row]
    requires !row.IsTerminal() && row.request.requiredApprovals >= 1
    requires row.request.tenant == d.checkerTenant && "approver" in d.checkerGroups && d.disposition == Approve
    requires row.request.maker != d.checker && d.checker !in row.Approvers()
    requires item == row.WithApproval(
      VoteOf(d), if row.ApprovalsCount() + 1 >= row.request.requiredApprovals then Approved else Pending)
    ensures Reaches(Plain(redact), NOTHING, Voted(Plain(redact), s, item, d))
  {
    MayVote(redact, row, d);
    VoteReaches(Plain(redact), s, row, d, item);
    ReachesTransitive(Plain(redact), NOTHING, s, Voted(Plain(redact), s, item, d));
  }

  lemma FirstVoteReached(redact: string -> string, request: ReviewRequest, a: ReviewDecision, b: ReviewDecision)
    requires TwoEyes(request, a, b)
    ensures Reaches(
      Plain(redact), NOTHING, Voted(Plain(redact), Filed(Plain(redact), NoVotes(request)), OneVote(request, a), a))
  {
    var none := NoVotes(request);
    FiledIsReached(Plain(redact), request);
    assert NewItem(Plain(redact).policy, request) == none && none.Approvers() == [];
    assert none.WithApproval(VoteOf(a), Pending) == OneVote(request, a);
    VoteOnPlain(redact, Filed(Plain(redact), none), none, a, OneVote(request, a));
  }

  /** Both votes, neither recorded yet. */
  ghost function BothVoted(desk: Desk, request: ReviewRequest, a: ReviewDecision, b: ReviewDecision): Shared {
    Voted(desk, Voted(desk, Filed(desk, NoVotes(request)), OneVote(request, a), a), TwoVotes(request, a, b), b)
  }

  /** Two votes in turn, both checked, complete a two-eyes review. */
  lemma VotesInTurn(redact: string -> string, request: ReviewRequest, a: ReviewDecision, b: ReviewDecision)
    requires TwoEyes(request, a, b)
    ensures Reaches(Plain(redact), NOTHING, BothVoted(Plain(redact), request, a, b))
  {
    var one := OneVote(request, a);
    FirstVoteReached(redact, request, a, b);
    assert one.Approvers() == [a.checker];
    assert one.WithApproval(VoteOf(b), Approved) == TwoVotes(request, a, b);
    VoteOnPlain(
      redact, Voted(Plain(redact), Filed(Plain(redact), NoVotes(request)), one, a), one, b, TwoVotes(request, a, b));
  }

  lemma BothVotedIs(desk: Desk, request: ReviewRequest, a: ReviewDecision, b: ReviewDecision)
    ensures var s := BothVoted(desk, request, a, b);
      && s.table == map[(request.tenant, request.reviewId) := TwoVotes(request, a, b)]
      && s.audit == [SubmissionEvent(desk, NoVotes(request))]
      && s.unrecorded
           == multiset{WriteRecord(desk, OneVote(request, a), a), WriteRecord(desk, TwoVotes(request, a, b), b)}
  {}

  /** Record the second of those votes before the first: every write was checked and everything is
      recorded, yet the trail does not give the stored review. */
  lemma RecordedOutOfOrder(redact: string -> string, request: ReviewRequest, a: ReviewDecision, b: ReviewDecision)
    returns (s: Shared)
    requires TwoEyes(request, a, b)
    ensures var key := (request.tenant, request.reviewId);
      && Reaches(Plain(redact), NOTHING, s)
      && s.table == map[key := TwoVotes(request, a, b)] && s.unrecorded == multiset{}
      && !TrailMatches(ConsoleState(s.table, s.audit), key)
  {
    var desk := Plain(redact);
    var none, one, two := NoVotes(request), OneVote(request, a), TwoVotes(request, a, b);
    var first, second := WriteRecord(desk, one, a), WriteRecord(desk, two, b);
    var voted := BothVoted(desk, request, a, b);
    VotesInTurn(redact, request, a, b);
    BothVotedIs(desk, request, a, b);
    RecordReaches(desk, voted, second);
    var late := voted.(audit := voted.audit + [second], unrecorded := voted.unrecorded - multiset{second});
    ReachesTransitive(desk, NOTHING, voted, late);
    RecordReaches(desk, late, first);
    s := late.(audit := late.audit + [first], unrecorded := late.unrecorded - multiset{first});
    ReachesTransitive(desk, NOTHING, late, s);
    SwappedTrailIsMalformed(desk, none, one, two, a, b);
  }

  lemma SwappedTrailIsMalformed(
    desk: Desk, item: ReviewItem, one: ReviewItem, two: ReviewItem, a: ReviewDecision, b: ReviewDecision)
    requires KeyOf(item) == KeyOf(one) == KeyOf(two) && two.state == Approved
    requires a.disposition == b.disposition == Approve
    ensures var x, y, z := SubmissionEvent(desk, item), WriteRecord(desk, two, b), WriteRecord(desk, one, a);
      Rebuild(Filter(SignOffsOf(KeyOf(item)), [x] + [y] + [z])) == Malformed
  {
    SwappedFold(desk, item, one, two, a, b);
    ThreeRecords(
      SignOffsOf(KeyOf(item)), SubmissionEvent(desk, item), WriteRecord(desk, two, b), WriteRecord(desk, one, a));
  }

  lemma SwappedFold(
    desk: Desk, item: ReviewItem, one: ReviewItem, two: ReviewItem, a: ReviewDecision, b: ReviewDecision)
    requires two.state == Approved && a.disposition == b.disposition == Approve
    ensures var x, y, z := SubmissionEvent(desk, item), WriteRecord(desk, two, b), WriteRecord(desk, one, a);
      Fold(Fold(Fold(Unsubmitted, x), y), z) == Malformed
  {
    assert Fold(Unsubmitted, SubmissionEvent(desk, item)) == Rebuilt(Pending, []);
    assert Fold(Rebuilt(Pending, []), WriteRecord(desk, two, b)) == Rebuilt(Approved, [b.checker]);
  }

  lemma ThreeRecords(keep: AuditEvent -> bool, x: AuditEvent, y: AuditEvent, z: AuditEvent)
    requires keep(x) && keep(y) && keep(z)
    ensures Rebuild(Filter(keep, [x] + [y] + [z])) == Fold(Fold(Fold(Unsubmitted, x), y), z)
  {
    FilterSnoc(keep, [], x);
    FilterSnoc(keep, [x], y);
    FilterSnoc(keep, [x] + [y], z);
    assert [] + [x] == [x];
    RebuildSnoc([], x);
    RebuildSnoc([x], y);
    RebuildSnoc([x] + [y], z);
  }
}
