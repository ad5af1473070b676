/** When the trail of overlapping calls still determines the store. Records are appended after the
    write they tell of, so even checked writes can be recorded out of order. Folding the trail then
    gives the stored review exactly when its allowed records stand in the order of their writes. */
module TrailOrder {
  import opened Kernel
  import opened ReviewModels
  import opened MakerChecker
  import opened ReviewStore
  import opened Console
  import opened Workflow
  import opened Platform
  import opened ConsoleRuns
  import opened Interleaving
  import opened StaleWrites
  import opened Linearization

  ghost function AllowedOf(key: ReviewKey): AuditEvent -> bool {
    (e: AuditEvent) => e.SignOff? && (e.tenant, e.reviewId) == key && e.decision == Allowed
  }

  // ---- the order decides the fold --------------------------------------------------------

  lemma {:induction false} FilterCount(keep: AuditEvent -> bool, trail: seq<AuditEvent>, e: AuditEvent)
    ensures multiset(Filter(keep, trail))[e] == if keep(e) then multiset(trail)[e] else 0
  {
    if trail != [] {
      var init, last := trail[..|trail| - 1], trail[|trail| - 1];
      assert trail == init + [last];
      FilterCount(keep, init, e);
      FilterSnoc(keep, init, last);
    }
  }

  /** Denials do not enter the fold. */
  lemma {:induction false} RebuildSkipsDenials(key: ReviewKey, audit: seq<AuditEvent>)
    ensures Rebuild(Filter(SignOffsOf(key), audit)) == Rebuild(Filter(AllowedOf(key), audit))
  {
    if audit != [] {
      var init, last := audit[..|audit| - 1], audit[|audit| - 1];
      assert audit == init + [last];
      RebuildSkipsDenials(key, init);
      FilterSnoc(SignOffsOf(key), init, last);
      FilterSnoc(AllowedOf(key), init, last);
      RebuildSnoc(Filter(SignOffsOf(key), init), last);
      RebuildSnoc(Filter(AllowedOf(key), init), last);
    }
  }

  ghost predicate AllAllowed(trail: seq<AuditEvent>) { forall e :: e in trail ==> Allows()(e) }

  /** While a review is pending its allowed records are the submission and one vote per approver. */
  lemma {:induction false} PendingTrailIsVotes(trail: seq<AuditEvent>, e: AuditEvent)
    requires AllAllowed(trail) && Rebuild(trail).Rebuilt? && Rebuild(trail).state == Pending && e in trail
    ensures e.action == DisposeAction ==> e.disposition == Approve && e.checker in Rebuild(trail).approvers
    decreases |trail|
  {
    var init, last := trail[..|trail| - 1], trail[|trail| - 1];
    assert trail == init + [last] && last in trail;
    if e in init {
      assert AllAllowed(init);
      AllowedRecordSubmits(init);
      PendingTrailIsVotes(init, e);
    }
  }

  lemma AllowedRecordSubmits(trail: seq<AuditEvent>)
    requires AllAllowed(trail) && trail != []
    ensures !Rebuild(trail).Unsubmitted?
  {
    assert trail[|trail| - 1] in trail;
  }

  /** A trail longer than its submission ends in a disposition of a pending review. */
  lemma LastIsDisposition(trail: seq<AuditEvent>)
    requires AllAllowed(trail) && |trail| > 1 && Rebuild(trail).Rebuilt?
    ensures var init, last := trail[..|trail| - 1], trail[|trail| - 1];
      && AllAllowed(init) && Rebuild(init).Rebuilt? && Rebuild(init).state == Pending
      && last.SignOff? && last.decision == Allowed && last.action == DisposeAction
      && Rebuild(trail) == Fold(Rebuild(init), last)
  {
    var init := trail[..|trail| - 1];
    assert trail[|trail| - 1] in trail;
    assert forall e :: e in init ==> e in trail;
    AllowedRecordSubmits(init);
  }

  /** Dispositions that take pending reviews to the same review agree on how, and start from the
      same approvers. */
  lemma SameFold(x: Rebuilt, a: AuditEvent, y: Rebuilt, b: AuditEvent)
    requires a.SignOff? && b.SignOff? && a.decision == b.decision == Allowed && a.action == b.action == DisposeAction
    requires x.Rebuilt? && y.Rebuilt? && x.state == y.state == Pending
    requires Fold(x, a) == Fold(y, b) && Fold(y, b).Rebuilt?
    ensures x == y && a.disposition == b.disposition
    ensures a.disposition == Approve ==> a.checker == b.checker && b.checker !in y.approvers
  {
    if a.disposition == Approve {
      assert (x.approvers + [a.checker])[..|x.approvers|] == x.approvers;
      assert (y.approvers + [b.checker])[..|y.approvers|] == y.approvers;
      assert (x.approvers + [a.checker])[|x.approvers|] == a.checker;
      assert (y.approvers + [b.checker])[|y.approvers|] == b.checker;
    }
  }

  /** A record that fits at the end of a trail like the last one, and is on the trail, is the last
      one: earlier ones cannot come again. */
  lemma SameLast(x: Rebuilt, a: AuditEvent, init: seq<AuditEvent>, b: AuditEvent)
    requires AllAllowed(init) && Rebuild(init).Rebuilt? && Rebuild(init).state == Pending
    requires a.SignOff? && b.SignOff? && a.decision == b.decision == Allowed && a.action == b.action == DisposeAction
    requires x.Rebuilt? && x.state == Pending && Fold(x, a) == Fold(Rebuild(init), b) && Fold(x, a).Rebuilt?
    requires a in init || a == b
    ensures a == b && x == Rebuild(init)
  {
    SameFold(x, a, Rebuild(init), b);
    if a in init { PendingTrailIsVotes(init, a); }
  }

  lemma LastOrBefore(a: seq<AuditEvent>, b: seq<AuditEvent>)
    requires multiset(a) == multiset(b) && a != [] && b != []
    ensures a[|a| - 1] in b[..|b| - 1] || a[|a| - 1] == b[|b| - 1]
  {
    assert a[|a| - 1] in multiset(b);
    assert b == b[..|b| - 1] + [b[|b| - 1]];
  }

  lemma SameLength(a: seq<AuditEvent>, b: seq<AuditEvent>)
    requires multiset(a) == multiset(b)
    ensures |a| == |b|
  {
    assert |a| == |multiset(a)| && |b| == |multiset(b)|;
  }

  lemma InitMultiset(a: seq<AuditEvent>, b: seq<AuditEvent>)
    requires multiset(a) == multiset(b) && a != [] && b != [] && a[|a| - 1] == b[|b| - 1]
    ensures multiset(a[..|a| - 1]) == multiset(b[..|b| - 1])
  {
    assert a == a[..|a| - 1] + [a[|a| - 1]] && b == b[..|b| - 1] + [b[|b| - 1]];
    assert multiset(a[..|a| - 1]) == multiset(a) - multiset{a[|a| - 1]};
    assert multiset(b[..|b| - 1]) == multiset(b) - multiset{b[|b| - 1]};
  }

  lemma SameOnly(a: seq<AuditEvent>, b: seq<AuditEvent>)
    requires multiset(a) == multiset(b) && |a| == |b| == 1
    ensures a == b
  {
    LastOrBefore(a, b);
  }

  /** Two trails with the same allowed records fold to the same review only in the same order. */
  lemma {:induction false} FoldFixesTheOrder(a: seq<AuditEvent>, b: seq<AuditEvent>)
    requires AllAllowed(a) && AllAllowed(b) && multiset(a) == multiset(b)
    requires Rebuild(a) == Rebuild(b) && Rebuild(b).Rebuilt?
    ensures a == b
    decreases |b|
  {
    SameLength(a, b);
    if |b| == 1 {
      SameOnly(a, b);
    } else {
      LastIsDisposition(a);
      LastIsDisposition(b);
      LastOrBefore(a, b);
      SameLast(Rebuild(a[..|a| - 1]), a[|a| - 1], b[..|b| - 1], b[|b| - 1]);
      InitMultiset(a, b);
      FoldFixesTheOrder(a[..|a| - 1], b[..|b| - 1]);
      assert a == a[..|a| - 1] + [a[|a| - 1]] && b == b[..|b| - 1] + [b[|b| - 1]];
    }
  }

  // ---- records are about what is stored --------------------------------------------------

  ghost predicate About(t: Table, e: AuditEvent) {
    && e.SignOff? && (e.tenant, e.reviewId) in t
    && e.maker == t[(e.tenant, e.reviewId)].request.maker && e.severity == t[(e.tenant, e.reviewId)].request.severity
    && (e.decision == Denied ==> e.action == DisposeAction && e.state == Pending)
  }

  ghost predicate AllAbout(s: Shared) {
    (forall e :: e in s.audit ==> About(s.table, e)) && forall e :: e in s.unrecorded ==> About(s.table, e)
  }

  /** Rows stay, and so do their requests. */
  ghost predicate RequestsStay(t: Table, t': Table) {
    forall k :: k in t ==> k in t' && t'[k].request == t[k].request
  }

  /** What the step leaves to be recorded. */
  ghost predicate Owes(s: Shared, s': Shared, e: AuditEvent) {
    s'.unrecorded == s.unrecorded + multiset{e} && About(s'.table, e)
  }

  lemma OwingKeepsAbout(s: Shared, s': Shared, e: AuditEvent)
    requires AllAbout(s) && RequestsStay(s.table, s'.table) && s'.audit == s.audit
    requires s'.unrecorded == s.unrecorded || Owes(s, s', e)
    ensures AllAbout(s')
  {
    forall x | x in s'.unrecorded ensures About(s'.table, x) { assert x in s.unrecorded || x == e; }
  }

  lemma SubmissionIsAbout(desk: Desk, t: Table, item: ReviewItem)
    requires KeyOf(item) in t && t[KeyOf(item)] == item
    ensures About(t, SubmissionEvent(desk, item))
  {}

  lemma IntakeKeepsAbout(desk: Desk, s: Shared, request: ReviewRequest)
    requires AllAbout(s) && (request.tenant, request.reviewId) !in s.table
    ensures AllAbout(AfterIntake(desk, s, request))
  {
    var item := NewItem(desk.policy, request);
    ProjectionLaws(desk.policy, ReviewItem(request, Pending, [], ""));
    SubmissionIsAbout(desk, s.table[KeyOf(item) := item], item);
    OwingKeepsAbout(s, AfterIntake(desk, s, request), SubmissionEvent(desk, item));
  }

  lemma IntakeOnceKeepsAbout(desk: Desk, s: Shared, request: ReviewRequest)
    requires AllAbout(s) && (request.tenant, request.reviewId) !in s.table
    ensures AllAbout(AfterIntakeOnce(desk, s, request))
  {
    var item := NewItem(desk.policy, request);
    ProjectionLaws(desk.policy, ReviewItem(request, Pending, [], ""));
    ProjectionLaws(desk.policy, item);
    SubmissionIsAbout(desk, s.table[KeyOf(item) := item], item);
    OwingKeepsAbout(s, AfterIntakeOnce(desk, s, request), SubmissionEvent(desk, item));
  }

  lemma DecideKeepsAbout(desk: Desk, s: Shared, call: nat)
    requires Anchored(desk.policy, s) && AllAbout(s)
    ensures AllAbout(AfterDecide(desk, s, call))
  {
    if call in s.flights && s.flights[call].Loaded? && !s.flights[call].item.IsTerminal() {
      var item, d := s.flights[call].item, s.flights[call].decision;
      assert Fits(desk.policy, s.table, s.flights[call]);
      DisposeVerdict(desk.policy, item, d, Some(d.decidedAt));
      var outcome := Dispose(desk.policy, item, d, Some(d.decidedAt)).value;
      OwingKeepsAbout(s, AfterDecide(desk, s, call), DispositionEvent(desk, outcome, d));
    }
  }

  lemma WriteKeepsAbout(desk: Desk, s: Shared, call: nat)
    requires Anchored(desk.policy, s) && AllAbout(s)
    ensures AllAbout(AfterWrite(desk, s, call))
  {
    if call in s.flights && s.flights[call].Writing? {
      var item, d := s.flights[call].item, s.flights[call].decision;
      assert Fits(desk.policy, s.table, s.flights[call]);
      RewriteSucceeds(s.table, item);
      OwingKeepsAbout(s, AfterWrite(desk, s, call), WriteRecord(desk, item, d));
    }
  }

  lemma NextKeepsAbout(desk: Desk, s: Shared, a: Action)
    requires Anchored(desk.policy, s) && FreshIntake(s, a) && AllAbout(s)
    ensures AllAbout(Next(desk, s, a))
  {
    match a {
      case Intake(request) => IntakeKeepsAbout(desk, s, request);
      case IntakeOnce(request) => IntakeOnceKeepsAbout(desk, s, request);
      case Load(_, _, _) =>
      case Decide(call) => DecideKeepsAbout(desk, s, call);
      case Write(call) => WriteKeepsAbout(desk, s, call);
      case Record(_) =>
    }
  }

  lemma {:induction false} ExecuteKeepsAbout(desk: Desk, s: Shared, actions: seq<Action>)
    requires Anchored(desk.policy, s) && AllAbout(s) && Throughout(desk, s, actions, FreshIntake)
    ensures AllAbout(Execute(desk, s, actions))
    decreases |actions|
  {
    if actions != [] {
      NextKeepsAnchored(desk, s, actions[0]);
      NextKeepsAbout(desk, s, actions[0]);
      ExecuteKeepsAbout(desk, Next(desk, s, actions[0]), actions[1..]);
    }
  }

  // ---- the trail of an execution ---------------------------------------------------------

  /** Nothing that changed the review is still to be recorded. */
  ghost predicate Settled(s: Shared, key: ReviewKey) {
    forall e :: e in s.unrecorded ==> !AllowedOf(key)(e)
  }

  /** The review's allowed records stand as they do on the serial trail. */
  ghost predicate InWriteOrder(s: Shared, serial: seq<AuditEvent>, key: ReviewKey) {
    Filter(AllowedOf(key), s.audit) == Filter(AllowedOf(key), serial)
  }

  ghost predicate LastIsDenial(audit: seq<AuditEvent>, key: ReviewKey) {
    var trail := Filter(SignOffsOf(key), audit);
    trail != [] && trail[|trail| - 1].SignOff? && trail[|trail| - 1].decision == Denied
  }

  lemma SettledTrailsHaveTheSameRecords(s: Shared, serial: seq<AuditEvent>, key: ReviewKey)
    requires SameAllowed(s.audit, s.unrecorded, serial) && Settled(s, key)
    ensures multiset(Filter(AllowedOf(key), s.audit)) == multiset(Filter(AllowedOf(key), serial))
    ensures AllAllowed(Filter(AllowedOf(key), s.audit)) && AllAllowed(Filter(AllowedOf(key), serial))
  {
    forall e
      ensures multiset(Filter(AllowedOf(key), s.audit))[e] == multiset(Filter(AllowedOf(key), serial))[e]
    {
      FilterCount(AllowedOf(key), s.audit, e);
      FilterCount(AllowedOf(key), serial, e);
    }
  }

  /** Folding the trail gives the stored review exactly when the order is that of the writes. */
  lemma FoldMatchesIff(s: Shared, serial: ConsoleState, key: ReviewKey)
    requires SameAllowed(s.audit, s.unrecorded, serial.audit) && Settled(s, key)
    requires s.table == serial.reviews && key in s.table && TrailMatches(serial, key)
    ensures Rebuild(Filter(SignOffsOf(key), s.audit)) == Rebuilt(s.table[key].state, s.table[key].Approvers())
      <==> InWriteOrder(s, serial.audit, key)
  {
    SettledTrailsHaveTheSameRecords(s, serial.audit, key);
    RebuildSkipsDenials(key, s.audit);
    RebuildSkipsDenials(key, serial.audit);
    var a, b := Filter(AllowedOf(key), s.audit), Filter(AllowedOf(key), serial.audit);
    if Rebuild(a) == Rebuild(b) { FoldFixesTheOrder(a, b); }
  }

  /** The serial trail has allowed records only. */
  lemma {:induction false} AllowedTrail(key: ReviewKey, audit: seq<AuditEvent>)
    requires forall e :: e in audit ==> Allows()(e)
    ensures Filter(SignOffsOf(key), audit) == Filter(AllowedOf(key), audit)
  {
    if audit != [] {
      var init, last := audit[..|audit| - 1], audit[|audit| - 1];
      assert audit == init + [last] && last in audit;
      AllowedTrail(key, init);
      FilterSnoc(SignOffsOf(key), init, last);
      FilterSnoc(AllowedOf(key), init, last);
    }
  }

  /** If the trail does not end in a denial it ends as its allowed records do. */
  lemma LastOfTrail(key: ReviewKey, audit: seq<AuditEvent>)
    ensures var trail, allowed := Filter(SignOffsOf(key), audit), Filter(AllowedOf(key), audit);
      && (allowed != [] ==> trail != [])
      && (trail != [] && !LastIsDenial(audit, key) ==>
            allowed != [] && allowed[|allowed| - 1] == trail[|trail| - 1])
    decreases |audit|
  {
    if audit != [] {
      var init, last := audit[..|audit| - 1], audit[|audit| - 1];
      assert audit == init + [last];
      FilterSnoc(SignOffsOf(key), init, last);
      FilterSnoc(AllowedOf(key), init, last);
      LastOfTrail(key, init);
    }
  }

  lemma OneSubmission(s: Shared, serial: ConsoleState, key: ReviewKey)
    requires SameAllowed(s.audit, s.unrecorded, serial.audit) && Settled(s, key) && AllAbout(s)
    ensures |Filter(ActionsOf(key, SubmitAction), s.audit)| == |Filter(ActionsOf(key, SubmitAction), serial.audit)|
  {
    var a := Filter(ActionsOf(key, SubmitAction), s.audit);
    var b := Filter(ActionsOf(key, SubmitAction), serial.audit);
    forall e ensures multiset(a)[e] == multiset(b)[e] {
      FilterCount(ActionsOf(key, SubmitAction), s.audit, e);
      FilterCount(ActionsOf(key, SubmitAction), serial.audit, e);
      if e in s.audit && ActionsOf(key, SubmitAction)(e) { assert About(s.table, e) && AllowedOf(key)(e); }
      if e in serial.audit { assert Allows()(e); }
    }
    assert multiset(a) == multiset(b) && |multiset(a)| == |a| && |multiset(b)| == |b|;
  }

  lemma TrailMatchesIff(s: Shared, serial: ConsoleState, key: ReviewKey)
    requires SameAllowed(s.audit, s.unrecorded, serial.audit) && Settled(s, key) && AllAbout(s)
    requires s.table == serial.reviews && key in s.table && TrailMatches(serial, key)
    ensures TrailMatches(ConsoleState(s.table, s.audit), key) <==>
      InWriteOrder(s, serial.audit, key) && (LastIsDenial(s.audit, key) ==> s.table[key].state == Pending)
  {
    var trail := Filter(SignOffsOf(key), s.audit);
    FoldMatchesIff(s, serial, key);
    AllowedTrail(key, serial.audit);
    LastOfTrail(key, s.audit);
    OneSubmission(s, serial, key);
    forall e | e in trail ensures About(s.table, e) {}
    if trail != [] { assert trail[|trail| - 1] in trail; }
  }

  /** However checked calls overlap, once every change to a review is recorded its trail still
      determines it if and only if the changes were recorded in the order in which they were made
      and no denial of an earlier state came last. */
  lemma TrailDeterminesStoreIff(env: Env, desk: Desk, actions: seq<Action>, key: ReviewKey)
    requires env.redact == desk.redact
    requires Throughout(desk, NOTHING, actions, FreshIntake) && Throughout(desk, NOTHING, actions, Current)
    requires key in Execute(desk, NOTHING, actions).table && Settled(Execute(desk, NOTHING, actions), key)
    ensures var s := Execute(desk, NOTHING, actions);
      var serial := Run(env, EMPTY, Serial(desk, NOTHING, actions)).console.audit;
      TrailMatches(ConsoleState(s.table, s.audit), key) <==>
        InWriteOrder(s, serial, key) && (LastIsDenial(s.audit, key) ==> s.table[key].state == Pending)
  {
    CurrentRunsAreSerial(env, desk, NOTHING, EMPTY, actions);
    RunKeeps(env, EMPTY, Serial(desk, NOTHING, actions));
    ExecuteKeepsAbout(desk, NOTHING, actions);
    var serial := Run(env, EMPTY, Serial(desk, NOTHING, actions)).console;
    assert TrailMatches(serial, key);
    TrailMatchesIff(Execute(desk, NOTHING, actions), serial, key);
  }
}
