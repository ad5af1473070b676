/** When overlapping transitions mean what serial ones mean. Executions that store only over the
    case they loaded have the cases of the serial run in the order of their stores, its timers once
    every cancellation is through, and its trail exactly when recorded in that order. */
module CaseLinearization {
  import opened Kernel
  import opened CaseModels
  import opened CasePorts
  import opened MakerChecker
  import opened Workflow
  import opened Platform
  import opened CaseRuns
  import opened CaseTrail
  import opened ConsoleRuns
  import opened TrailRecords
  import opened CaseInterleaving

  // ---- timers ----------------------------------------------------------------------------

  ghost predicate Names(c: Case, definition: WorkflowDefinition, n: nat, k: TimerKey)
    requires n <= |definition.clocks|
  {
    exists i :: 0 <= i < n && TimerKeyOf(c, definition.clocks[i]) == k
  }

  /** Cancelling removes the timers of the definition's clocks and no others. */
  lemma {:induction false} CancelledExactly(timers: TimerMap, c: Case, definition: WorkflowDefinition, n: nat)
    requires n <= |definition.clocks|
    ensures forall k :: k in Cancelled(timers, c, definition, n) <==> k in timers && !Names(c, definition, n, k)
    ensures forall k :: k in Cancelled(timers, c, definition, n) ==> Cancelled(timers, c, definition, n)[k] == timers[k]
  {
    if n > 0 {
      CancelledExactly(timers, c, definition, n - 1);
      forall k
        ensures Names(c, definition, n, k)
          <==> Names(c, definition, n - 1, k) || k == TimerKeyOf(c, definition.clocks[n - 1])
      {
        if k == TimerKeyOf(c, definition.clocks[n - 1]) { assert 0 <= n - 1 < n; }
      }
    }
  }

  ghost predicate AgreeOn(a: TimerMap, b: TimerMap, k: TimerKey) {
    (k in a <==> k in b) && (k in a ==> a[k] == b[k])
  }

  /** Scheduling looks at nothing but the case's own timers. */
  lemma {:induction false} ScheduledAgree(
    a: TimerMap, b: TimerMap, c: Case, definition: WorkflowDefinition, holidays: set<int>, n: nat, k: TimerKey)
    requires n <= |definition.clocks|
    ensures AgreeOn(a, b, k) ==>
      AgreeOn(Scheduled(a, c, definition, holidays, n), Scheduled(b, c, definition, holidays, n), k)
    ensures (k.0, k.1) != CaseKeyOf(c) ==> AgreeOn(Scheduled(a, c, definition, holidays, n), a, k)
  {
    if n > 0 { ScheduledAgree(a, b, c, definition, holidays, n - 1, k); }
  }

  /** A call in flight has yet to cancel this timer. */
  ghost predicate Cancels(flight: Flight, k: TimerKey) {
    flight.Finishing? && flight.cancel.Some?
    && Names(flight.cancel.value.0, flight.cancel.value.1, |flight.cancel.value.1.clocks|, k)
  }

  ghost predicate Doomed(s: Shared, k: TimerKey) { exists call :: call in s.flights && Cancels(s.flights[call], k) }

  /** The serial timers are those that no call has yet to cancel. */
  ghost predicate SameTimers(s: Shared, serial: TimerMap) {
    forall k :: if Doomed(s, k) then k !in serial else AgreeOn(s.timers, serial, k)
  }

  ghost predicate Simulates(s: Shared, sys: System) { sys.cases == s.cases && SameTimers(s, sys.timers) }

  // ---- one step --------------------------------------------------------------------------

  lemma OpenAgrees(env: Env, s: Shared, sys: System, o: Opening)
    requires Anchored(env, s) && Simulates(s, sys) && (o.tenant, o.caseId) !in s.cases.rows
    ensures Simulates(AfterOpen(env, s, o), OpenCase(env, sys, o).0)
  {
    if o.caseType in env.definitions {
      var s', sys' := AfterOpen(env, s, o), OpenCase(env, sys, o).0;
      var c, definition := OpeningOf(env, o), env.definitions[o.caseType];
      forall k ensures if Doomed(s', k) then k !in sys'.timers else AgreeOn(s'.timers, sys'.timers, k) {
        ScheduledAgree(s.timers, sys.timers, c, definition, env.holidays, |definition.clocks|, k);
        ScheduledAgree(sys.timers, sys.timers, c, definition, env.holidays, |definition.clocks|, k);
        if Doomed(s, k) {
          var call :| call in s.flights && Cancels(s.flights[call], k);
          assert Fits(env, s.cases, s.flights[call]);
          assert s'.flights == s.flights && Doomed(s', k);
        } else {
          assert !Doomed(s', k);
        }
      }
    }
  }

  /** Only this call's flight changed. */
  ghost predicate OthersFly(s: Shared, s': Shared, call: nat) {
    s'.flights - {call} == s.flights - {call}
  }

  lemma DoomedElsewhere(s: Shared, s': Shared, call: nat, k: TimerKey)
    requires OthersFly(s, s', call)
    ensures Doomed(s', k) <==>
      (call in s'.flights && Cancels(s'.flights[call], k))
      || (exists other :: other != call && other in s.flights && Cancels(s.flights[other], k))
  {
    forall other | other != call
      ensures other in s'.flights <==> other in s.flights
      ensures other in s.flights ==> s'.flights[other] == s.flights[other]
    {
      assert other in s'.flights - {call} <==> other in s.flights - {call};
      if other in s.flights { assert (s'.flights - {call})[other] == (s.flights - {call})[other]; }
    }
  }

  lemma QuietFlightAgrees(s: Shared, s': Shared, serial: TimerMap, call: nat)
    requires SameTimers(s, serial) && OthersFly(s, s', call) && s'.timers == s.timers
    requires forall k :: call in s.flights ==> !Cancels(s.flights[call], k)
    requires forall k :: call in s'.flights ==> !Cancels(s'.flights[call], k)
    ensures SameTimers(s', serial)
  {
    forall k ensures if Doomed(s', k) then k !in serial else AgreeOn(s'.timers, serial, k) {
      DoomedElsewhere(s, s', call, k);
      DoomedElsewhere(s, s, call, k);
    }
  }

  /** A store that leaves timers to cancel agrees with having cancelled them. */
  lemma DoomingAgrees(
    s: Shared, s': Shared, serial: TimerMap, call: nat, c: Case, definition: WorkflowDefinition)
    requires SameTimers(s, serial) && OthersFly(s, s', call) && s'.timers == s.timers
    requires call in s.flights && s.flights[call].Loaded? && call in s'.flights && s'.flights[call].Finishing?
    requires s'.flights[call].cancel == Some((c, definition))
    ensures SameTimers(s', Cancelled(serial, c, definition, |definition.clocks|))
  {
    CancelledExactly(serial, c, definition, |definition.clocks|);
    var after := Cancelled(serial, c, definition, |definition.clocks|);
    forall k ensures if Doomed(s', k) then k !in after else AgreeOn(s'.timers, after, k) {
      DoomedElsewhere(s, s', call, k);
      DoomedElsewhere(s, s, call, k);
    }
  }

  lemma CancelAgrees(s: Shared, serial: TimerMap, call: nat)
    requires SameTimers(s, serial)
    ensures SameTimers(AfterCancel(s, call), serial)
  {
    if call in s.flights && s.flights[call].Finishing? && s.flights[call].cancel.Some? {
      var (moved, definition) := s.flights[call].cancel.value;
      var s' := AfterCancel(s, call);
      CancelledExactly(s.timers, moved, definition, |definition.clocks|);
      assert OthersFly(s, s', call);
      forall k ensures if Doomed(s', k) then k !in serial else AgreeOn(s'.timers, serial, k) {
        DoomedElsewhere(s, s', call, k);
        DoomedElsewhere(s, s, call, k);
      }
    }
  }

  lemma StoreAgrees(env: Env, s: Shared, sys: System, call: nat)
    requires Anchored(env, s) && Simulates(s, sys) && call in s.flights && s.flights[call].Loaded?
    requires s.flights[call].c.caseType in env.definitions && Current(env, s, Store(call))
    ensures Verdict(env, s.flights[call].c, s.flights[call].move).Err? ==> Simulates(AfterStore(env, s, call), sys)
    ensures Verdict(env, s.flights[call].c, s.flights[call].move).Ok? ==>
      Simulates(AfterStore(env, s, call), TransitionCase(env, sys, s.flights[call].move).0)
  {
    var c, m := s.flights[call].c, s.flights[call].move;
    var s' := AfterStore(env, s, call);
    assert Fits(env, s.cases, s.flights[call]) && OthersFly(s, s', call);
    if Verdict(env, c, m).Ok? && ToCancel(env, Verdict(env, c, m).value).Some? {
      DoomingAgrees(s, s', sys.timers, call, Verdict(env, c, m).value, env.definitions[c.caseType]);
    } else {
      QuietFlightAgrees(s, s', sys.timers, call);
    }
  }

  // ---- whole executions ------------------------------------------------------------------

  /** The serial operation a step amounts to, if it changes a case. */
  ghost function SerialStep(env: Env, s: Shared, policy: RoutingPolicy, a: Action): seq<Command> {
    match a
    case Open(o) => [Command(policy, OpenOp(o))]
    case Store(call) =>
      if call in s.flights && s.flights[call].Loaded? && s.flights[call].c.caseType in env.definitions
         && Verdict(env, s.flights[call].c, s.flights[call].move).Ok?
      then [Command(policy, MoveOp(s.flights[call].move))] else []
    case _ => []
  }

  ghost function Serial(env: Env, s: Shared, policy: RoutingPolicy, actions: seq<Action>): seq<Command>
    decreases |actions|
  {
    if actions == [] then []
    else SerialStep(env, s, policy, actions[0]) + Serial(env, Next(env, s, actions[0]), policy, actions[1..])
  }

  /** Fresh case ids, and every accepted move stored over the case its call loaded. */
  ghost predicate Checked(env: Env, s: Shared, actions: seq<Action>)
    decreases |actions|
  {
    actions == []
    || (FreshOpening(s, actions[0]) && Current(env, s, actions[0])
        && Checked(env, Next(env, s, actions[0]), actions[1..]))
  }

  lemma QuietStepAgrees(env: Env, s: Shared, sys: System, a: Action)
    requires Anchored(env, s) && Simulates(s, sys) && (a.Load? || a.Cancel? || a.Record?)
    ensures Simulates(Next(env, s, a), sys)
  {
    match a {
      case Load(call, m) =>
        if call !in s.flights { QuietFlightAgrees(s, AfterLoad(env, s, call, m), sys.timers, call); }
      case Cancel(call) => CancelAgrees(s, sys.timers, call);
      case Record(call) =>
        if AfterRecord(s, call) != s { QuietFlightAgrees(s, AfterRecord(s, call), sys.timers, call); }
    }
  }

  lemma LoudStepAgrees(env: Env, s: Shared, sys: System, policy: RoutingPolicy, a: Action)
    requires Anchored(env, s) && Simulates(s, sys) && FreshOpening(s, a) && Current(env, s, a)
    requires SerialStep(env, s, policy, a) != []
    ensures var cmd := SerialStep(env, s, policy, a)[0];
      FreshIds(sys, cmd.op) && Simulates(Next(env, s, a), Step(env, sys, cmd).0)
  {
    if a.Open? { OpenAgrees(env, s, sys, a.opening); } else { StoreAgrees(env, s, sys, a.call); }
  }

  lemma RefusalAgrees(env: Env, s: Shared, sys: System, call: nat)
    requires Anchored(env, s) && Simulates(s, sys) && Current(env, s, Store(call))
    requires call in s.flights && s.flights[call].Loaded? && s.flights[call].c.caseType in env.definitions ==>
      Verdict(env, s.flights[call].c, s.flights[call].move).Err?
    ensures Simulates(AfterStore(env, s, call), sys)
  {
    if call in s.flights && s.flights[call].Loaded? && s.flights[call].c.caseType in env.definitions {
      StoreAgrees(env, s, sys, call);
    }
  }

  lemma StepIsSerial(env: Env, s: Shared, sys: System, policy: RoutingPolicy, a: Action)
    requires Anchored(env, s) && Simulates(s, sys) && FreshOpening(s, a) && Current(env, s, a)
    ensures Simulates(Next(env, s, a), Run(env, sys, SerialStep(env, s, policy, a)))
    ensures FreshRun(env, sys, SerialStep(env, s, policy, a))
  {
    var steps := SerialStep(env, s, policy, a);
    if steps != [] {
      OneCommand(env, sys, steps);
      LoudStepAgrees(env, s, sys, policy, a);
    } else if a.Store? {
      RefusalAgrees(env, s, sys, a.call);
    } else {
      QuietStepAgrees(env, s, sys, a);
    }
  }

  lemma {:induction false} CheckedRunsAreSerial(
    env: Env, s: Shared, sys: System, policy: RoutingPolicy, actions: seq<Action>)
    requires Anchored(env, s) && Simulates(s, sys) && Checked(env, s, actions)
    ensures FreshRun(env, sys, Serial(env, s, policy, actions))
    ensures Simulates(Execute(env, s, actions), Run(env, sys, Serial(env, s, policy, actions)))
    ensures Anchored(env, Execute(env, s, actions))
    decreases |actions|
  {
    if actions != [] {
      var s1, steps := Next(env, s, actions[0]), SerialStep(env, s, policy, actions[0]);
      NextKeepsAnchored(env, s, actions[0]);
      StepIsSerial(env, s, sys, policy, actions[0]);
      RunAppends(env, sys, steps, Serial(env, s1, policy, actions[1..]));
      CheckedRunsAreSerial(env, s1, Run(env, sys, steps), policy, actions[1..]);
    }
  }

  /** Once no cancellation is outstanding, the timers of checked executions are again exactly what
      the clock arithmetic asks for, and every history is legal. */
  lemma CheckedRunsKeepCases(env: Env, policy: RoutingPolicy, actions: seq<Action>)
    requires WellRegistered(env) && Checked(env, NOTHING, actions)
    requires forall k :: !Doomed(Execute(env, NOTHING, actions), k)
    ensures CaseInv(env, SystemOf(Execute(env, NOTHING, actions)))
  {
    var s, cmds := Execute(env, NOTHING, actions), Serial(env, NOTHING, policy, actions);
    CheckedRunsAreSerial(env, NOTHING, EMPTY, policy, actions);
    RunKeepsCases(env, EMPTY, cmds);
    var sys := Run(env, EMPTY, cmds);
    assert forall k :: AgreeOn(s.timers, sys.timers, k);
    assert s.timers == sys.timers;
    SameCasesKeepInv(env, sys, SystemOf(s));
  }

  // ---- the trail -------------------------------------------------------------------------

  /** Records of moves of one case that tell of the same history are the same records. */
  lemma MirrorsDetermines(
    redact: string -> string, c: Case, a: seq<AuditEvent>, b: seq<AuditEvent>)
    requires Mirrors(redact, c.attributes, b, c.history)
    requires forall e :: e in a || e in b ==> MovesOf(CaseKeyOf(c))(e) && RecordOf(c, e)
    ensures Mirrors(redact, c.attributes, a, c.history) <==> a == b
  {
    if Mirrors(redact, c.attributes, a, c.history) {
      forall i | 0 <= i < |a| ensures a[i] == b[i] {
        assert SameMove(redact, c.attributes, a[i], c.history[i]) && SameMove(redact, c.attributes, b[i], c.history[i]);
        assert a[i] in a && b[i] in b;
      }
    }
  }

  lemma OwnMovesAreRecords(s: Shared, env: Env, key: CaseKey)
    requires Anchored(env, s) && key in s.cases.rows
    ensures forall e :: e in Filter(MovesOf(key), s.audit) ==> MovesOf(key)(e) && RecordOf(s.cases.rows[key], e)
  {
    forall e | e in Filter(MovesOf(key), s.audit) ensures RecordOf(s.cases.rows[key], e) {
      assert Recordable(s.cases, e);
    }
  }

  lemma SerialMovesAreRecords(env: Env, cmds: seq<Command>, key: CaseKey)
    requires FreshRun(env, EMPTY, cmds) && key in Run(env, EMPTY, cmds).cases.rows
    ensures var sys := Run(env, EMPTY, cmds);
      && CaseKeyOf(sys.cases.rows[key]) == key
      && forall e :: e in Filter(MovesOf(key), sys.console.audit) ==>
           MovesOf(key)(e) && RecordOf(sys.cases.rows[key], e)
  {
    RunKeeps(env, EMPTY, cmds);
    RecordsQuoteWhatIsStored(env, EMPTY, cmds);
    var sys := Run(env, EMPTY, cmds);
    forall e | e in Filter(MovesOf(key), sys.console.audit) ensures RecordOf(sys.cases.rows[key], e) {
      assert Quotes(env.redact, sys.console.reviews, sys.cases.rows, e);
    }
  }

  /** However checked transitions overlap, the trail gives a case's history if and only if its moves
      were recorded in the order in which they were stored. */
  lemma TrailDeterminesHistoryIff(env: Env, policy: RoutingPolicy, actions: seq<Action>, key: CaseKey)
    requires Checked(env, NOTHING, actions) && key in Execute(env, NOTHING, actions).cases.rows
    ensures var s := Execute(env, NOTHING, actions);
      var serial := Run(env, EMPTY, Serial(env, NOTHING, policy, actions)).console.audit;
      CaseTrailMatches(env.redact, SystemOf(s), key) <==> Filter(MovesOf(key), s.audit) == Filter(MovesOf(key), serial)
  {
    var s, cmds := Execute(env, NOTHING, actions), Serial(env, NOTHING, policy, actions);
    CheckedRunsAreSerial(env, NOTHING, EMPTY, policy, actions);
    TrailDeterminesHistory(env, cmds, key);
    OwnMovesAreRecords(s, env, key);
    SerialMovesAreRecords(env, cmds, key);
    MirrorsDetermines(
      env.redact, s.cases.rows[key], Filter(MovesOf(key), s.audit),
      Filter(MovesOf(key), Run(env, EMPTY, cmds).console.audit));
  }
}
