/** What every serial run of the service keeps about its cases: histories are legal and only
    grow, due dates never move, breaches never un-happen, and timers agree with what any later
    evaluation computes. */
module CaseRuns {
  import opened Kernel
  import opened CaseModels
  import opened Clock
  import opened ClockLaws
  import opened StateMachine
  import opened Assessment
  import opened CasePorts
  import opened MakerChecker
  import opened Workflow
  import opened Platform

  /** Definitions are registered under their own case type, with distinct clock names. */
  ghost predicate WellRegistered(env: Env) {
    forall k :: k in env.definitions ==>
      env.definitions[k].caseType == k && env.definitions[k].DistinctClockNames()
  }

  ghost predicate EnteredTerminal(c: Case, definition: WorkflowDefinition) {
    exists i :: 0 <= i < |c.history| && definition.IsTerminal(c.history[i].toState)
  }

  /** The clock of that name, if it starts in the initial state. */
  ghost predicate StartsAtOpening(definition: WorkflowDefinition, name: string, n: nat)
    requires n <= |definition.clocks|
  {
    exists i :: 0 <= i < n && definition.clocks[i].name == name && definition.clocks[i].startState == definition.initial
  }

  /** A case that never entered a terminal state has a timer for exactly its clocks that start in
      the initial state, at the instant they fall due; a case that did, or no case, has none. */
  ghost predicate TimersMatch(env: Env, s: System, key: CaseKey) {
    if key in s.cases.rows && s.cases.rows[key].caseType in env.definitions then
      var c := s.cases.rows[key];
      var definition := env.definitions[c.caseType];
      && (forall name :: (key.0, key.1, name) in s.timers <==>
            !EnteredTerminal(c, definition) && StartsAtOpening(definition, name, |definition.clocks|))
      && (forall i :: 0 <= i < |definition.clocks| && (key.0, key.1, definition.clocks[i].name) in s.timers ==>
            s.timers[(key.0, key.1, definition.clocks[i].name)]
            == DueAt(definition.clocks[i], c.openedAt, env.holidays))
    else
      forall name :: (key.0, key.1, name) !in s.timers
  }

  ghost predicate CaseInv(env: Env, s: System) {
    && CaseTableInv(s.cases)
    && (forall key :: key in s.cases.rows ==>
          var c := s.cases.rows[key];
          c.caseType in env.definitions && WellFormed(c, env.definitions[c.caseType]))
    && (env.hasTimers ==> forall key :: TimersMatch(env, s, key))
  }

  /** Only the state and the history move, and the history only grows. */
  ghost predicate CaseAdvances(a: Case, b: Case) {
    b == a.(state := b.state, history := b.history) && a.history <= b.history
  }

  ghost predicate CasesAdvance(a: CaseTable, b: CaseTable) {
    forall key :: key in a.rows ==> key in b.rows && CaseAdvances(a.rows[key], b.rows[key])
  }

  lemma CasesAdvanceTransitive(a: CaseTable, b: CaseTable, c: CaseTable)
    requires CasesAdvance(a, b) && CasesAdvance(b, c)
    ensures CasesAdvance(a, c)
  {
    forall key | key in a.rows ensures key in c.rows && CaseAdvances(a.rows[key], c.rows[key]) {
      assert CaseAdvances(a.rows[key], b.rows[key]) && CaseAdvances(b.rows[key], c.rows[key]);
    }
  }

  // ---- timers ----------------------------------------------------------------------------

  /** Opening a case schedules exactly its clocks that start in the initial state. */
  lemma {:induction false} ScheduledAtOpening(
    timers: TimerMap, c: Case, definition: WorkflowDefinition, holidays: set<int>, n: nat)
    requires n <= |definition.clocks| && definition.DistinctClockNames() && c.history == []
    requires forall name :: (c.tenant, c.caseId, name) !in timers
    ensures var scheduled := Scheduled(timers, c, definition, holidays, n);
      && (forall k: TimerKey :: (k.0, k.1) != CaseKeyOf(c) ==>
            (k in scheduled <==> k in timers) && (k in timers ==> scheduled[k] == timers[k]))
      && (forall name :: (c.tenant, c.caseId, name) in scheduled <==> StartsAtOpening(definition, name, n))
      && (forall i :: 0 <= i < n && TimerKeyOf(c, definition.clocks[i]) in scheduled ==>
            scheduled[TimerKeyOf(c, definition.clocks[i])] == DueAt(definition.clocks[i], c.openedAt, holidays))
  {
    if n > 0 {
      ScheduledAtOpening(timers, c, definition, holidays, n - 1);
      var before := Scheduled(timers, c, definition, holidays, n - 1);
      var after := Scheduled(timers, c, definition, holidays, n);
      var spec := definition.clocks[n - 1];
      assert c.FirstEntered(spec.startState, definition.initial)
        == if spec.startState == definition.initial then Some(c.openedAt) else None;
      forall name ensures (c.tenant, c.caseId, name) in after <==> StartsAtOpening(definition, name, n) {
        StartsAtOpeningStep(definition, name, n);
      }
      assert !StartsAtOpening(definition, spec.name, n - 1);
    }
  }

  lemma StartsAtOpeningStep(definition: WorkflowDefinition, name: string, n: nat)
    requires 0 < n <= |definition.clocks|
    ensures StartsAtOpening(definition, name, n) <==>
      StartsAtOpening(definition, name, n - 1)
      || (definition.clocks[n - 1].name == name && definition.clocks[n - 1].startState == definition.initial)
  {
    if definition.clocks[n - 1].name == name && definition.clocks[n - 1].startState == definition.initial {
      assert 0 <= n - 1 < n;
    }
  }

  lemma {:induction false} CancelledOnly(timers: TimerMap, c: Case, definition: WorkflowDefinition, n: nat)
    requires n <= |definition.clocks|
    ensures var left := Cancelled(timers, c, definition, n);
      && (forall k :: k in left ==> k in timers && left[k] == timers[k])
      && (forall k :: k in timers && (k.0, k.1) != CaseKeyOf(c) ==> k in left)
      && (forall i :: 0 <= i < n ==> TimerKeyOf(c, definition.clocks[i]) !in left)
  {
    if n > 0 { CancelledOnly(timers, c, definition, n - 1); }
  }

  lemma OpenKeepsTimers(env: Env, s: System, o: Opening, key: CaseKey)
    requires CaseInv(env, s) && WellRegistered(env) && env.hasTimers
    requires (o.tenant, o.caseId) !in s.cases.rows && o.caseType in env.definitions
    ensures TimersMatch(env, OpenCase(env, s, o).0, key)
  {
    var s', c := OpenCase(env, s, o).0, OpenCase(env, s, o).1.value;
    var definition := env.definitions[o.caseType];
    assert TimersMatch(env, s, CaseKeyOf(c)) && TimersMatch(env, s, key);
    ScheduledAtOpening(s.timers, c, definition, env.holidays, |definition.clocks|);
    if key == CaseKeyOf(c) {
      assert s'.cases.rows[key] == c && !EnteredTerminal(c, definition);
      forall i | 0 <= i < |definition.clocks| && (key.0, key.1, definition.clocks[i].name) in s'.timers
        ensures s'.timers[(key.0, key.1, definition.clocks[i].name)]
          == DueAt(definition.clocks[i], c.openedAt, env.holidays)
      {
        assert TimerKeyOf(c, definition.clocks[i]) in s'.timers;
      }
    }
  }

  lemma MoveKeepsTimers(env: Env, s: System, m: Move, key: CaseKey)
    requires CaseInv(env, s) && env.hasTimers && TransitionCase(env, s, m).1.Ok?
    ensures TimersMatch(env, TransitionCase(env, s, m).0, key)
  {
    var s', moved := TransitionCase(env, s, m).0, TransitionCase(env, s, m).1.value;
    var c := s.cases.rows[(m.tenant, m.caseId)];
    var definition := env.definitions[c.caseType];
    assert TimersMatch(env, s, key);
    assert moved.history == c.history + [moved.history[|c.history|]];
    assert EnteredTerminal(moved, definition)
      <==> EnteredTerminal(c, definition) || definition.IsTerminal(m.toState) by {
      assert moved.history[|c.history|].toState == m.toState;
      if EnteredTerminal(c, definition) {
        var i :| 0 <= i < |c.history| && definition.IsTerminal(c.history[i].toState);
        assert moved.history[i] == c.history[i];
      }
    }
    if definition.IsTerminal(m.toState) {
      CancelledOnly(s.timers, moved, definition, |definition.clocks|);
      if key == CaseKeyOf(moved) {
        forall name ensures (key.0, key.1, name) !in s'.timers {
          if (key.0, key.1, name) in s.timers {
            var i :| 0 <= i < |definition.clocks| && definition.clocks[i].name == name;
            assert TimerKeyOf(moved, definition.clocks[i]) == (key.0, key.1, name);
          }
        }
      }
    }
  }

  // ---- steps and runs --------------------------------------------------------------------

  /** Evaluation, and everything the console does, leaves the cases and their timers alone. */
  lemma OthersLeaveCasesAlone(env: Env, s: System, cmd: Command)
    requires !cmd.op.OpenOp? && !cmd.op.MoveOp?
    ensures Step(env, s, cmd).0.cases == s.cases && Step(env, s, cmd).0.timers == s.timers
  {
    match cmd.op {
      case SubmitOp(_) =>
      case SubmitOnceOp(_) =>
      case DisposeOp(_, _) =>
      case EvaluateOp(_) =>
      case _ =>
    }
  }

  lemma OpenKeepsCases(env: Env, s: System, o: Opening)
    requires CaseInv(env, s) && WellRegistered(env) && (o.tenant, o.caseId) !in s.cases.rows
    ensures CaseInv(env, OpenCase(env, s, o).0) && CasesAdvance(s.cases, OpenCase(env, s, o).0.cases)
  {
    if o.caseType in env.definitions {
      var s', c := OpenCase(env, s, o).0, OpenCase(env, s, o).1.value;
      PutCaseKeepsInv(s.cases, c);
      assert WellFormed(c, env.definitions[o.caseType]);
      if env.hasTimers {
        forall key ensures TimersMatch(env, s', key) { OpenKeepsTimers(env, s, o, key); }
      }
    }
  }

  lemma MoveKeepsCases(env: Env, s: System, m: Move)
    requires CaseInv(env, s)
    ensures CaseInv(env, TransitionCase(env, s, m).0) && CasesAdvance(s.cases, TransitionCase(env, s, m).0.cases)
  {
    var s', r := TransitionCase(env, s, m).0, TransitionCase(env, s, m).1;
    if r.Ok? {
      var c := s.cases.rows[(m.tenant, m.caseId)];
      PutCaseKeepsInv(s.cases, r.value);
      TransitKeepsWellFormed(c, m.toState, m.actor, m.reason, m.at, env.definitions[c.caseType]);
      assert CaseAdvances(c, r.value);
      if env.hasTimers {
        forall key ensures TimersMatch(env, s', key) { MoveKeepsTimers(env, s, m, key); }
      }
    } else {
      SameCasesKeepInv(env, s, s');
    }
  }

  lemma StepKeepsCases(env: Env, s: System, cmd: Command)
    requires CaseInv(env, s) && WellRegistered(env) && FreshIds(s, cmd.op)
    ensures CaseInv(env, Step(env, s, cmd).0) && CasesAdvance(s.cases, Step(env, s, cmd).0.cases)
  {
    match cmd.op {
      case OpenOp(o) => OpenKeepsCases(env, s, o);
      case MoveOp(m) => MoveKeepsCases(env, s, m);
      case _ =>
        OthersLeaveCasesAlone(env, s, cmd);
        SameCasesKeepInv(env, s, Step(env, s, cmd).0);
    }
  }

  lemma SameCasesKeepInv(env: Env, s: System, s': System)
    requires CaseInv(env, s) && s'.cases == s.cases && s'.timers == s.timers
    ensures CaseInv(env, s')
  {
    if env.hasTimers {
      forall key ensures TimersMatch(env, s', key) { assert TimersMatch(env, s, key); }
    }
  }

  lemma {:induction false} RunKeepsCases(env: Env, s: System, cmds: seq<Command>)
    requires CaseInv(env, s) && WellRegistered(env) && FreshRun(env, s, cmds)
    ensures CaseInv(env, Run(env, s, cmds)) && CasesAdvance(s.cases, Run(env, s, cmds).cases)
    decreases |cmds|
  {
    if cmds != [] {
      var s1 := Step(env, s, cmds[0]).0;
      StepKeepsCases(env, s, cmds[0]);
      RunKeepsCases(env, s1, cmds[1..]);
      CasesAdvanceTransitive(s.cases, s1.cases, Run(env, s, cmds).cases);
    }
  }

  /** In every reachable state each case's history is legal from the opening on and replaying it
      rebuilds the case. */
  lemma HistoriesReplay(env: Env, cmds: seq<Command>, key: CaseKey)
    requires WellRegistered(env) && FreshRun(env, EMPTY, cmds) && key in Run(env, EMPTY, cmds).cases.rows
    ensures var c := Run(env, EMPTY, cmds).cases.rows[key];
      && c.caseType in env.definitions
      && WellFormed(c, env.definitions[c.caseType])
      && Replay(c, c.history, env.definitions[c.caseType]) == Ok(c)
  {
    RunKeepsCases(env, EMPTY, cmds);
    var c := Run(env, EMPTY, cmds).cases.rows[key];
    ReplayRebuilds(c, env.definitions[c.caseType]);
  }

  /** A move is refused exactly when its edge is not legal, and then only the audit trail changes,
      by one rejection that names the edge. */
  lemma RefusalOnlyAudits(env: Env, s: System, m: Move)
    requires CaseTableInv(s.cases) && (m.tenant, m.caseId) in s.cases.rows
    requires s.cases.rows[(m.tenant, m.caseId)].caseType in env.definitions
    ensures var c := s.cases.rows[(m.tenant, m.caseId)];
      var (s', r) := TransitionCase(env, s, m);
      && (r.Err? <==> !env.definitions[c.caseType].IsLegal(c.state, m.toState))
      && (r.Err? ==>
            && s' == s.(console := s.console.(audit := s'.console.audit))
            && |s'.console.audit| == |s.console.audit| + 1 && s.console.audit <= s'.console.audit
            && var e := s'.console.audit[|s.console.audit|];
               && e.CaseAction? && e.caseDecision == CaseRejected && e.kind == TransitionAction
               && (e.tenant, e.caseId, e.actor) == (m.tenant, m.caseId, m.actor)
               && e.fromState == c.state && e.toState == m.toState && e.caseFindings == [])
  {}

  // ---- due dates and breaches ------------------------------------------------------------

  /** As a case advances a started clock keeps its anchor. */
  lemma AnchorStable(a: Case, b: Case, startState: string, initial: string)
    requires CaseAdvances(a, b) && a.FirstEntered(startState, initial).Some?
    ensures b.FirstEntered(startState, initial) == a.FirstEntered(startState, initial)
  {
    if startState != initial { FirstArrivalStable(a.history, b.history, startState); }
  }

  /** A started clock never resets: through any serial run, leaving and re-entering its start
      state included, its due date stays where it is. */
  lemma DueDatesNeverMove(
    env: Env, s: System, cmds: seq<Command>, key: CaseKey, i: nat, earlier: Instant, later: Instant)
    requires CaseInv(env, s) && WellRegistered(env) && FreshRun(env, s, cmds) && key in s.cases.rows
    requires i < |env.definitions[s.cases.rows[key].caseType].clocks|
    requires ClockStatus(
      s.cases.rows[key], env.definitions[s.cases.rows[key].caseType], earlier, env.holidays, i).dueAt.Some?
    ensures var definition := env.definitions[s.cases.rows[key].caseType];
      var s' := Run(env, s, cmds);
      && key in s'.cases.rows && s'.cases.rows[key].caseType == s.cases.rows[key].caseType
      && ClockStatus(s'.cases.rows[key], definition, later, env.holidays, i).dueAt
           == ClockStatus(s.cases.rows[key], definition, earlier, env.holidays, i).dueAt
  {
    RunKeepsCases(env, s, cmds);
    var c, c' := s.cases.rows[key], Run(env, s, cmds).cases.rows[key];
    var definition := env.definitions[c.caseType];
    AnchorStable(c, c', definition.clocks[i].startState, definition.initial);
  }

  lemma BreachPersists(
    definition: WorkflowDefinition, holidays: set<int>, c: Case, c': Case, earlier: Instant, later: Instant)
    requires CaseAdvances(c, c') && AtMost(earlier, later)
    requires Holds(SlaBreach, c, definition, earlier, holidays)
    ensures Holds(SlaBreach, c', definition, later, holidays)
  {
    var i :| 0 <= i < |definition.clocks| && ClockStatus(c, definition, earlier, holidays, i).breached;
    var spec := definition.clocks[i];
    AnchorStable(c, c', spec.startState, definition.initial);
    StatusMonotone(spec, c.FirstEntered(spec.startState, definition.initial), earlier, later, holidays);
    assert ClockStatus(c', definition, later, holidays, i).breached;
  }

  /** Once breached, always breached: if an evaluation reports a breach, every evaluation of the
      case at the same or a later instant does, whatever happens in between. */
  lemma OnceBreachedAlwaysBreached(env: Env, s: System, first: Command, between: seq<Command>, second: Command)
    requires CaseInv(env, s) && WellRegistered(env) && FreshRun(env, s, [first] + between)
    requires first.op.EvaluateOp? && second.op.EvaluateOp?
    requires second.op.look.tenant == first.op.look.tenant && second.op.look.caseId == first.op.look.caseId
    requires AtMost(first.op.look.asOf, second.op.look.asOf)
    requires Step(env, s, first).1.assessment.Ok? && SlaBreach in Step(env, s, first).1.assessment.value.findings
    ensures var reply := Step(env, Run(env, s, [first] + between), second).1.assessment;
      reply.Ok? && SlaBreach in reply.value.findings
  {
    var key := (first.op.look.tenant, first.op.look.caseId);
    RunKeepsCases(env, s, [first] + between);
    var c, c' := s.cases.rows[key], Run(env, s, [first] + between).cases.rows[key];
    assert CaseAdvances(c, c');
    var definition := env.definitions[c.caseType];
    ReportedIffHolds(c, definition, first.op.look.asOf, env.holidays, SlaBreach);
    BreachPersists(definition, env.holidays, c, c', first.op.look.asOf, second.op.look.asOf);
    ReportedIffHolds(c', definition, second.op.look.asOf, env.holidays, SlaBreach);
  }

  /** In every reachable state the timers are exactly what the clock arithmetic asks for, and
      each live one fires when any evaluation, at any instant, says its clock falls due. */
  lemma TimersAgreeWithRecomputation(env: Env, cmds: seq<Command>, key: CaseKey, i: nat, asOf: Instant)
    requires WellRegistered(env) && env.hasTimers && FreshRun(env, EMPTY, cmds)
    requires key in Run(env, EMPTY, cmds).cases.rows
    requires Run(env, EMPTY, cmds).cases.rows[key].caseType in env.definitions
    requires i < |env.definitions[Run(env, EMPTY, cmds).cases.rows[key].caseType].clocks|
    ensures var s := Run(env, EMPTY, cmds);
      var c := s.cases.rows[key];
      var definition := env.definitions[c.caseType];
      var timer := TimerKeyOf(c, definition.clocks[i]);
      && (timer in s.timers <==>
            !EnteredTerminal(c, definition) && definition.clocks[i].startState == definition.initial)
      && (timer in s.timers ==> ClockStatus(c, definition, asOf, env.holidays, i).dueAt == Some(s.timers[timer]))
      && (timer in s.timers && Before(s.timers[timer], asOf) ==>
            && Holds(SlaBreach, c, definition, asOf, env.holidays)
            && (SlaBreach in definition.escalateOn ==> NeedsReview(c, definition, asOf, env.holidays)))
  {
    RunKeepsCases(env, EMPTY, cmds);
    var s := Run(env, EMPTY, cmds);
    var c := s.cases.rows[key];
    var definition := env.definitions[c.caseType];
    assert TimersMatch(env, s, key) && CaseKeyOf(c) == key;
    var name := definition.clocks[i].name;
    assert StartsAtOpening(definition, name, |definition.clocks|)
      <==> definition.clocks[i].startState == definition.initial;
    if TimerKeyOf(c, definition.clocks[i]) in s.timers && Before(s.timers[TimerKeyOf(c, definition.clocks[i])], asOf) {
      assert ClockStatus(c, definition, asOf, env.holidays, i).breached;
    }
  }

  /** Every timer is that of a clock, starting at the opening, of a stored case that was never yet
      terminal. */
  lemma NoOrphanTimers(env: Env, cmds: seq<Command>, timer: TimerKey)
    requires WellRegistered(env) && env.hasTimers && FreshRun(env, EMPTY, cmds)
    requires timer in Run(env, EMPTY, cmds).timers
    ensures var rows := Run(env, EMPTY, cmds).cases.rows;
      && (timer.0, timer.1) in rows && rows[(timer.0, timer.1)].caseType in env.definitions
      && var c := rows[(timer.0, timer.1)];
         var definition := env.definitions[c.caseType];
         !EnteredTerminal(c, definition) && StartsAtOpening(definition, timer.2, |definition.clocks|)
  {
    RunKeepsCases(env, EMPTY, cmds);
    assert TimersMatch(env, Run(env, EMPTY, cmds), (timer.0, timer.1));
    assert timer == (timer.0, timer.1, timer.2);
  }

  /** A workflow whose one clock starts in its second state. */
  ghost function LateClockEnv(redact: string -> string): Env {
    var clock := ClockSpec("resolve", Calendar, 3, "work", 0.5);
    var definition := WorkflowDefinition("k", ["new", "work"], "new", {}, {("new", "work")}, [clock], {}, map[]);
    Env(map["k" := definition], {}, redact, false, true, false)
  }

  /** The documentation speaks of a timer for each clock; a clock that starts after the opening
      runs, and falls due, without one. */
  lemma LaterClockHasNoTimer(redact: string -> string, policy: RoutingPolicy)
    ensures var env := LateClockEnv(redact);
      var cmds := [Command(policy, OpenOp(Opening("c", "t", "k", "a", Low, [], "", Instant(1, 0), []))),
                   Command(policy, MoveOp(Move("c", "t", "work", "a", "", Instant(2, 0))))];
      var s := Run(env, EMPTY, cmds);
      && WellRegistered(env) && FreshRun(env, EMPTY, cmds)
      && ("t", "c") in s.cases.rows
      && Holds(SlaBreach, s.cases.rows[("t", "c")], env.definitions["k"], Instant(9, 0), env.holidays)
      && s.timers == map[]
  {
    var env := LateClockEnv(redact);
    var definition := env.definitions["k"];
    var open := Command(policy, OpenOp(Opening("c", "t", "k", "a", Low, [], "", Instant(1, 0), [])));
    var move := Command(policy, MoveOp(Move("c", "t", "work", "a", "", Instant(2, 0))));
    var s1 := Step(env, EMPTY, open).0;
    var s2 := Step(env, s1, move).0;
    var c1 := NewCase("c", "t", definition, Low, Instant(1, 0), [], []);
    assert s1.timers == Scheduled(map[], c1, definition, {}, 0);
    assert [open, move][1..] == [move] && [move][1..] == [];
    assert Run(env, s1, [move]) == Run(env, s2, []) == s2;
    assert Run(env, EMPTY, [open, move]) == s2;
    assert definition.IsLegal("new", "work");
    var c2 := s2.cases.rows[("t", "c")];
    assert c2.history == [Transition(1, "new", "work", "a", "", Instant(2, 0))];
    assert ClockStatus(c2, definition, Instant(9, 0), {}, 0).breached;
    assert FreshRun(env, s1, [move]);
  }
}
