/** When overlapping dispositions mean what serial ones mean. A write over the very row its call
    loaded has the effect of the serial disposition at that moment, on the table and, once
    recorded, on the trail; executions of such writes have the table of the serial run in write
    order and, up to the order of recording, its allowed sign-offs. */
module Linearization {
  import opened Kernel
  import opened ReviewModels
  import opened MakerChecker
  import opened ReviewStore
  import opened Console
  import opened Workflow
  import opened Platform
  import opened ConsoleRuns
  import opened Interleaving
  import opened StaleWrites

  // ---- one write -------------------------------------------------------------------------

  /** The check the write does not make: the row is still the one its call loaded. */
  ghost predicate Current(s: Shared, a: Action) {
    a.Write? && a.call in s.flights && s.flights[a.call].Writing? ==>
      var flight := s.flights[a.call];
      KeyOf(flight.item) in s.table && s.table[KeyOf(flight.item)] == flight.loaded
  }

  /** Deciding on the row gives what deciding on the loaded item gave exactly when they are the same
      item; and an applied approval is never allowed twice. */
  lemma VerdictsAgreeIff(
    policy: RoutingPolicy, row: ReviewItem, loaded: ReviewItem, item: ReviewItem, d: ReviewDecision)
    requires row.request == loaded.request && !row.IsTerminal() && !loaded.IsTerminal() && Open(row) && Open(loaded)
    requires Dispose(policy, loaded, d, Some(d.decidedAt)) == Ok(DispositionOutcome(item, Allowed, []))
    ensures var again := Dispose(policy, row, d, Some(d.decidedAt)).value;
      && (again.decision == Allowed ==> (again.item == item <==> row == loaded) && row != item)
      && (row == loaded ==> again.decision == Allowed)
  {
    DisposeVerdict(policy, row, d, Some(d.decidedAt));
    DisposeVerdict(policy, loaded, d, Some(d.decidedAt));
    if d.disposition == Approve {
      var vote := item.approvals[|loaded.approvals|];
      assert item.approvals == loaded.approvals + [vote] && vote.checker == d.checker;
      assert item.Approvers()[|loaded.approvals|] == d.checker;
      if row == item { assert Bars(DuplicateApprover, policy, row, d.checker, d.checkerTenant, d.checkerGroups); }
      if row.approvals + [vote] == loaded.approvals + [vote] {
        assert |row.approvals| == |loaded.approvals|;
        assert (row.approvals + [vote])[..|row.approvals|] == row.approvals;
        assert (loaded.approvals + [vote])[..|row.approvals|] == loaded.approvals;
      }
    }
  }

  /** The serial disposition on a table whose row is routed: refused, denied or applied. */
  lemma SerialDisposition(desk: Desk, st: ConsoleState, key: ReviewKey, d: ReviewDecision)
    requires TableInv(st.reviews) && key in st.reviews && key.0 == d.checkerTenant
    requires Routed(desk.policy, st.reviews[key])
    ensures var serial := DisposeReview(desk, st, key.1, d).0;
      if st.reviews[key].IsTerminal() then serial == st
      else
        var again := Dispose(desk.policy, st.reviews[key], d, Some(d.decidedAt)).value;
        && serial.audit == st.audit + [DispositionEvent(desk, again, d)]
        && serial.reviews == (if again.decision == Allowed then st.reviews[key := again.item] else st.reviews)
  {
    DisposeShape(desk, st, key.1, d);
    assert WithEffectiveRouting(desk.policy, st.reviews[key]) == st.reviews[key];
  }

  /** A write and its record do what the serial disposition would do at that moment exactly when the
      row is still the one loaded. The table alone comes out the same in one more case: when the row
      already is what is written. Then the serial disposition would have been refused. */
  lemma WriteIsSerialIff(desk: Desk, s: Shared, call: nat)
    requires Anchored(desk.policy, s) && call in s.flights && s.flights[call].Writing?
    ensures var flight := s.flights[call];
      var t := AfterWrite(desk, s, call).table;
      var e := WriteRecord(desk, flight.item, flight.decision);
      var serial := DisposeReview(
        desk, ConsoleState(s.table, s.audit), flight.item.request.reviewId, flight.decision).0;
      && (ConsoleState(t, s.audit + [e]) == serial <==> Current(s, Write(call)))
      && (t == serial.reviews <==> Current(s, Write(call)) || s.table[KeyOf(flight.item)] == flight.item)
  {
    var flight := s.flights[call];
    var key, d, item := KeyOf(flight.item), flight.decision, flight.item;
    assert Fits(desk.policy, s.table, flight);
    var row := s.table[key];
    RewriteSucceeds(s.table, item);
    SerialDisposition(desk, ConsoleState(s.table, s.audit), key, d);
    assert s.table[key := item] == s.table <==> row == item;
    if row.IsTerminal() {
      assert |s.audit + [WriteRecord(desk, item, d)]| != |s.audit|;
    } else {
      var again := Dispose(desk.policy, row, d, Some(d.decidedAt)).value;
      VerdictsAgreeIff(desk.policy, row, flight.loaded, item, d);
      DisposeVerdict(desk.policy, row, d, Some(d.decidedAt));
      assert s.table[key := item] == s.table[key := again.item] <==> item == again.item by {
        assert s.table[key := item][key] == item && s.table[key := again.item][key] == again.item;
      }
      assert s.audit + [WriteRecord(desk, item, d)] == s.audit + [DispositionEvent(desk, again, d)] <==>
        WriteRecord(desk, item, d) == DispositionEvent(desk, again, d) by {
        assert (s.audit + [WriteRecord(desk, item, d)])[|s.audit|] == WriteRecord(desk, item, d);
        assert (s.audit + [DispositionEvent(desk, again, d)])[|s.audit|] == DispositionEvent(desk, again, d);
      }
    }
  }

  // ---- whole executions ------------------------------------------------------------------

  ghost function Allows(): AuditEvent -> bool { (e: AuditEvent) => e.SignOff? && e.decision == Allowed }

  /** Recorded or not yet, the allowed sign-offs are those of the serial trail, which has no other
      records. */
  ghost predicate SameAllowed(audit: seq<AuditEvent>, unrecorded: multiset<AuditEvent>, serial: seq<AuditEvent>) {
    && (forall e :: e in serial ==> Allows()(e))
    && forall e :: Allows()(e) ==> multiset(audit)[e] + unrecorded[e] == multiset(serial)[e]
  }

  lemma EffectAgrees(audit: seq<AuditEvent>, unrecorded: multiset<AuditEvent>, serial: seq<AuditEvent>, e: AuditEvent)
    requires SameAllowed(audit, unrecorded, serial)
    ensures Allows()(e) ==> SameAllowed(audit, unrecorded + multiset{e}, serial + [e])
    ensures !Allows()(e) ==> SameAllowed(audit, unrecorded + multiset{e}, serial)
    ensures e in unrecorded ==> SameAllowed(audit + [e], unrecorded - multiset{e}, serial)
  {}

  /** The serial operation a step amounts to, if it writes to the table. */
  ghost function SerialStep(desk: Desk, s: Shared, a: Action): seq<Command> {
    match a
    case Intake(request) => [Command(desk.policy, SubmitOp(request))]
    case IntakeOnce(request) => [Command(desk.policy, SubmitOnceOp(request))]
    case Write(call) =>
      if call in s.flights && s.flights[call].Writing?
      then [Command(desk.policy, DisposeOp(s.flights[call].item.request.reviewId, s.flights[call].decision))] else []
    case _ => []
  }

  /** The operations of an execution, in the order in which they write. */
  ghost function Serial(desk: Desk, s: Shared, actions: seq<Action>): seq<Command>
    decreases |actions|
  {
    if actions == [] then []
    else SerialStep(desk, s, actions[0]) + Serial(desk, Next(desk, s, actions[0]), actions[1..])
  }

  /** The serial system has the execution's table and, in some order, its allowed sign-offs. */
  ghost predicate Simulates(s: Shared, sys: System) {
    sys.console.reviews == s.table && SameAllowed(s.audit, s.unrecorded, sys.console.audit)
  }

  lemma QuietStepAgrees(desk: Desk, s: Shared, sys: System, a: Action)
    requires Simulates(s, sys) && SerialStep(desk, s, a) == []
    ensures Simulates(Next(desk, s, a), sys)
  {
    match a {
      case Load(_, _, _) =>
      case Decide(call) =>
        if call in s.flights && s.flights[call].Loaded? && !s.flights[call].item.IsTerminal() {
          var d := s.flights[call].decision;
          var outcome := Dispose(desk.policy, s.flights[call].item, d, Some(d.decidedAt)).value;
          EffectAgrees(s.audit, s.unrecorded, sys.console.audit, DispositionEvent(desk, outcome, d));
        }
      case Write(_) =>
      case Record(e) => EffectAgrees(s.audit, s.unrecorded, sys.console.audit, e);
    }
  }

  lemma IntakeAgrees(desk: Desk, s: Shared, sys: System, request: ReviewRequest)
    requires Simulates(s, sys)
    ensures Simulates(AfterIntake(desk, s, request), sys.(console := Submit(desk, sys.console, request).0))
  {
    EffectAgrees(s.audit, s.unrecorded, sys.console.audit, SubmissionEvent(desk, NewItem(desk.policy, request)));
  }

  lemma IntakeOnceAgrees(desk: Desk, s: Shared, sys: System, request: ReviewRequest)
    requires Simulates(s, sys)
    ensures Simulates(
      AfterIntakeOnce(desk, s, request), sys.(console := SubmitIdempotent(desk, sys.console, request).0))
  {
    if PutIfAbsent(s.table, NewItem(desk.policy, request)).Ok? {
      var persisted :=
        WithEffectiveRouting(desk.policy, PutIfAbsent(s.table, NewItem(desk.policy, request)).value.1);
      EffectAgrees(s.audit, s.unrecorded, sys.console.audit, SubmissionEvent(desk, persisted));
    }
  }

  lemma WriteAgrees(desk: Desk, s: Shared, sys: System, call: nat)
    requires Anchored(desk.policy, s) && Simulates(s, sys)
    requires call in s.flights && s.flights[call].Writing? && Current(s, Write(call))
    ensures var flight := s.flights[call];
      Simulates(
        AfterWrite(desk, s, call),
        sys.(console := DisposeReview(desk, sys.console, flight.item.request.reviewId, flight.decision).0))
  {
    var flight := s.flights[call];
    var e := WriteRecord(desk, flight.item, flight.decision);
    assert Fits(desk.policy, s.table, flight);
    RewriteSucceeds(s.table, flight.item);
    DisposeShape(desk, sys.console, KeyOf(flight.item).1, flight.decision);
    assert WithEffectiveRouting(desk.policy, flight.loaded) == flight.loaded;
    EffectAgrees(s.audit, s.unrecorded, sys.console.audit, e);
  }

  lemma LoudStepAgrees(env: Env, desk: Desk, s: Shared, sys: System, a: Action)
    requires Anchored(desk.policy, s) && Simulates(s, sys) && env.redact == desk.redact
    requires FreshIntake(s, a) && Current(s, a) && SerialStep(desk, s, a) != []
    ensures var cmd := SerialStep(desk, s, a)[0];
      FreshIds(sys, cmd.op) && Simulates(Next(desk, s, a), Step(env, sys, cmd).0)
  {
    match a {
      case Intake(request) => IntakeAgrees(desk, s, sys, request);
      case IntakeOnce(request) => IntakeOnceAgrees(desk, s, sys, request);
      case Write(call) => WriteAgrees(desk, s, sys, call);
    }
  }

  lemma StepIsSerial(env: Env, desk: Desk, s: Shared, sys: System, a: Action)
    requires Anchored(desk.policy, s) && Simulates(s, sys) && env.redact == desk.redact
    requires FreshIntake(s, a) && Current(s, a)
    ensures Simulates(Next(desk, s, a), Run(env, sys, SerialStep(desk, s, a)))
    ensures FreshRun(env, sys, SerialStep(desk, s, a))
  {
    var steps := SerialStep(desk, s, a);
    if steps == [] {
      QuietStepAgrees(desk, s, sys, a);
    } else {
      OneCommand(env, sys, steps);
      LoudStepAgrees(env, desk, s, sys, a);
    }
  }

  /** An execution in which every write passes the check leaves the table that the same operations
      leave when run one after the other, in the order of their writes, and its allowed sign-offs,
      recorded or still to be, are those of that serial run. */
  lemma {:induction false} CurrentRunsAreSerial(env: Env, desk: Desk, s: Shared, sys: System, actions: seq<Action>)
    requires Anchored(desk.policy, s) && Simulates(s, sys) && env.redact == desk.redact
    requires Throughout(desk, s, actions, FreshIntake) && Throughout(desk, s, actions, Current)
    ensures FreshRun(env, sys, Serial(desk, s, actions))
    ensures Simulates(Execute(desk, s, actions), Run(env, sys, Serial(desk, s, actions)))
    decreases |actions|
  {
    if actions != [] {
      var s1 := Next(desk, s, actions[0]);
      NextKeepsAnchored(desk, s, actions[0]);
      StepIsSerial(env, desk, s, sys, actions[0]);
      RunAppends(env, sys, SerialStep(desk, s, actions[0]), Serial(desk, s1, actions[1..]));
      CurrentRunsAreSerial(env, desk, s1, Run(env, sys, SerialStep(desk, s, actions[0])), actions[1..]);
    }
  }

  /** So between any two points of such an execution no review is lost, approvals only grow and
      resolved items never change, exactly as in serial runs. */
  lemma CurrentRunsOnlyAdvance(env: Env, desk: Desk, before: seq<Action>, after: seq<Action>, key: ReviewKey)
    requires env.redact == desk.redact
    requires Throughout(desk, NOTHING, before, FreshIntake) && Throughout(desk, NOTHING, before, Current)
    requires Throughout(desk, Execute(desk, NOTHING, before), after, FreshIntake)
    requires Throughout(desk, Execute(desk, NOTHING, before), after, Current)
    requires key in Execute(desk, NOTHING, before).table
    ensures var s := Execute(desk, NOTHING, before);
      var t := Execute(desk, s, after).table;
      key in t && RowAdvances(s.table[key], t[key])
  {
    var s := Execute(desk, NOTHING, before);
    ExecuteKeepsAnchored(desk, NOTHING, before);
    CurrentRunsAreSerial(env, desk, NOTHING, EMPTY, before);
    var sys := Run(env, EMPTY, Serial(desk, NOTHING, before));
    RunKeeps(env, EMPTY, Serial(desk, NOTHING, before));
    CurrentRunsAreSerial(env, desk, s, sys, after);
    RunKeeps(env, sys, Serial(desk, s, after));
  }
}
