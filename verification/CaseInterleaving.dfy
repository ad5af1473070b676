/** Transitions that overlap. A transition loads the case, stores it moved, cancels its timers on
    terminal entry and records the move, and any number of them may be in flight over stale cases.
    The last mover wins; a store over the very case its call loaded is exactly one that means what
    the serial transition means. An opening stays one step: nobody else knows the new id before it
    returns. */
module CaseInterleaving {
  import opened Kernel
  import opened CaseModels
  import opened StateMachine
  import opened CasePorts
  import opened Console
  import opened Workflow
  import opened CaseRuns

  /** A call that has loaded a case, or has stored or refused and has yet to cancel and record. */
  datatype Flight =
    | Loaded(c: Case, move: Move)
    | Finishing(event: AuditEvent, cancel: Option<(Case, WorkflowDefinition)>)

  datatype Shared = Shared(cases: CaseTable, timers: TimerMap, audit: seq<AuditEvent>, flights: map<nat, Flight>)

  datatype Action =
    | Open(opening: Opening)
    | Load(call: nat, move: Move)
    | Store(call: nat)
    | Cancel(call: nat)
    | Record(call: nat)

  // ---- the steps of a call; one that cannot be taken changes nothing -----------------------

  ghost function AfterOpen(env: Env, s: Shared, o: Opening): Shared {
    if o.caseType !in env.definitions then s
    else
      var c, definition := OpeningOf(env, o), env.definitions[o.caseType];
      s.(cases := PutCase(s.cases, c), audit := s.audit + [OpeningEvent(env.redact, c, o)],
         timers := if env.hasTimers then Scheduled(s.timers, c, definition, env.holidays, |definition.clocks|)
                   else s.timers)
  }

  ghost function AfterLoad(env: Env, s: Shared, call: nat, m: Move): Shared {
    match GetCase(s.cases, m.tenant, m.caseId)
    case None => s
    case Some(c) =>
      if call in s.flights || c.caseType !in env.definitions then s
      else s.(flights := s.flights[call := Loaded(c, m)])
  }

  ghost function Verdict(env: Env, c: Case, m: Move): Result<Case, IllegalTransition>
    requires c.caseType in env.definitions
  {
    Transit(c, m.toState, m.actor, m.reason, m.at, env.definitions[c.caseType])
  }

  /** What is left to cancel once the case is stored. */
  ghost function ToCancel(env: Env, moved: Case): Option<(Case, WorkflowDefinition)> {
    if env.hasTimers && moved.caseType in env.definitions && env.definitions[moved.caseType].IsTerminal(moved.state)
    then Some((moved, env.definitions[moved.caseType])) else None
  }

  ghost function AfterStore(env: Env, s: Shared, call: nat): Shared {
    if call !in s.flights || !s.flights[call].Loaded? || s.flights[call].c.caseType !in env.definitions then s
    else
      var c, m := s.flights[call].c, s.flights[call].move;
      match Verdict(env, c, m)
      case Err(_) => s.(flights := s.flights[call := Finishing(RefusalEvent(env.redact, c, m), None)])
      case Ok(moved) =>
        s.(cases := PutCase(s.cases, moved),
           flights := s.flights[call := Finishing(MoveEvent(env.redact, c, moved, m), ToCancel(env, moved))])
  }

  ghost function AfterCancel(s: Shared, call: nat): Shared {
    if call !in s.flights || !s.flights[call].Finishing? || s.flights[call].cancel.None? then s
    else
      var (moved, definition) := s.flights[call].cancel.value;
      s.(timers := Cancelled(s.timers, moved, definition, |definition.clocks|),
         flights := s.flights[call := Finishing(s.flights[call].event, None)])
  }

  ghost function AfterRecord(s: Shared, call: nat): Shared {
    if call !in s.flights || !s.flights[call].Finishing? || s.flights[call].cancel.Some? then s
    else s.(audit := s.audit + [s.flights[call].event], flights := s.flights - {call})
  }

  ghost function Next(env: Env, s: Shared, a: Action): Shared {
    match a
    case Open(o) => AfterOpen(env, s, o)
    case Load(call, m) => AfterLoad(env, s, call, m)
    case Store(call) => AfterStore(env, s, call)
    case Cancel(call) => AfterCancel(s, call)
    case Record(call) => AfterRecord(s, call)
  }

  ghost function Execute(env: Env, s: Shared, actions: seq<Action>): Shared
    decreases |actions|
  {
    if actions == [] then s else Execute(env, Next(env, s, actions[0]), actions[1..])
  }

  const NOTHING: Shared := Shared(CaseTable([], map[]), map[], [], map[])

  // ---- calls in flight fit the table -----------------------------------------------------

  /** The same case at another time. */
  ghost predicate SameCase(a: Case, b: Case) { b == a.(state := b.state, history := b.history) }

  /** The record is one a transition of this case makes. */
  ghost predicate RecordOf(c: Case, e: AuditEvent) {
    && e.CaseAction? && (e.tenant, e.caseId) == CaseKeyOf(c) && e.severity == c.severity && e.citations == c.citations
    && (e.kind == TransitionAction ==> e.caseFindings == [])
  }

  ghost predicate Recordable(cases: CaseTable, e: AuditEvent) {
    e.CaseAction? && (e.tenant, e.caseId) in cases.rows && RecordOf(cases.rows[(e.tenant, e.caseId)], e)
  }

  ghost predicate Fits(env: Env, cases: CaseTable, flight: Flight) {
    match flight
    case Loaded(c, m) =>
      && CaseKeyOf(c) == (m.tenant, m.caseId) && CaseKeyOf(c) in cases.rows && SameCase(c, cases.rows[CaseKeyOf(c)])
      && c.caseType in env.definitions
    case Finishing(e, cancel) =>
      Recordable(cases, e) && (cancel.Some? ==> CaseKeyOf(cancel.value.0) in cases.rows)
  }

  ghost predicate Anchored(env: Env, s: Shared) {
    && CaseTableInv(s.cases)
    && (forall call :: call in s.flights ==> Fits(env, s.cases, s.flights[call]))
    && (forall e :: e in s.audit ==> Recordable(s.cases, e))
  }

  /** Rows stay, as the same cases. */
  ghost predicate CasesStay(a: CaseTable, b: CaseTable) {
    forall k :: k in a.rows ==> k in b.rows && SameCase(a.rows[k], b.rows[k])
  }

  lemma StayingKeepsAnchored(env: Env, s: Shared, cases: CaseTable)
    requires Anchored(env, s) && CaseTableInv(cases) && CasesStay(s.cases, cases)
    ensures Anchored(env, s.(cases := cases))
  {
    forall call | call in s.flights ensures Fits(env, cases, s.flights[call]) {
      assert Fits(env, s.cases, s.flights[call]);
    }
    forall e | e in s.audit ensures Recordable(cases, e) {
      assert Recordable(s.cases, e);
    }
  }

  lemma OpenKeepsAnchored(env: Env, s: Shared, o: Opening)
    requires Anchored(env, s) && (o.tenant, o.caseId) !in s.cases.rows
    ensures Anchored(env, AfterOpen(env, s, o))
  {
    if o.caseType in env.definitions {
      var c := OpeningOf(env, o);
      PutCaseKeepsInv(s.cases, c);
      StayingKeepsAnchored(env, s, PutCase(s.cases, c));
      assert Recordable(PutCase(s.cases, c), OpeningEvent(env.redact, c, o));
    }
  }

  lemma FlightKeepsAnchored(env: Env, s: Shared, call: nat, flight: Flight)
    requires Anchored(env, s) && Fits(env, s.cases, flight)
    ensures Anchored(env, s.(flights := s.flights[call := flight]))
  {}

  lemma StoreKeepsAnchored(env: Env, s: Shared, call: nat)
    requires Anchored(env, s)
    ensures Anchored(env, AfterStore(env, s, call))
  {
    if call in s.flights && s.flights[call].Loaded? {
      var c, m := s.flights[call].c, s.flights[call].move;
      assert Fits(env, s.cases, s.flights[call]);
      if Verdict(env, c, m).Ok? {
        var moved := Verdict(env, c, m).value;
        var stored := s.(cases := PutCase(s.cases, moved));
        PutCaseKeepsInv(s.cases, moved);
        StayingKeepsAnchored(env, s, stored.cases);
        FlightKeepsAnchored(
          env, stored, call, Finishing(MoveEvent(env.redact, c, moved, m), ToCancel(env, moved)));
      } else {
        FlightKeepsAnchored(env, s, call, Finishing(RefusalEvent(env.redact, c, m), None));
      }
    }
  }

  lemma RecordKeepsAnchored(env: Env, s: Shared, call: nat)
    requires Anchored(env, s)
    ensures Anchored(env, AfterRecord(s, call))
  {
    if call in s.flights && s.flights[call].Finishing? { assert Fits(env, s.cases, s.flights[call]); }
  }

  lemma CancelKeepsAnchored(env: Env, s: Shared, call: nat)
    requires Anchored(env, s)
    ensures Anchored(env, AfterCancel(s, call))
  {
    if call in s.flights && s.flights[call].Finishing? { assert Fits(env, s.cases, s.flights[call]); }
  }

  /** Ids of new cases are minted fresh. */
  ghost predicate FreshOpening(s: Shared, a: Action) {
    a.Open? ==> (a.opening.tenant, a.opening.caseId) !in s.cases.rows
  }

  lemma NextKeepsAnchored(env: Env, s: Shared, a: Action)
    requires Anchored(env, s) && FreshOpening(s, a)
    ensures Anchored(env, Next(env, s, a))
  {
    match a {
      case Open(o) => OpenKeepsAnchored(env, s, o);
      case Load(call, m) =>
      case Store(call) => StoreKeepsAnchored(env, s, call);
      case Cancel(call) => CancelKeepsAnchored(env, s, call);
      case Record(call) => RecordKeepsAnchored(env, s, call);
    }
  }

  // ---- one store -------------------------------------------------------------------------

  /** The case is still the one its call loaded. */
  ghost predicate Current(env: Env, s: Shared, a: Action) {
    a.Store? && a.call in s.flights && s.flights[a.call].Loaded? && s.flights[a.call].c.caseType in env.definitions
    && Verdict(env, s.flights[a.call].c, s.flights[a.call].move).Ok? ==>
      var c := s.flights[a.call].c;
      CaseKeyOf(c) in s.cases.rows && s.cases.rows[CaseKeyOf(c)] == c
  }

  ghost function SystemOf(s: Shared): System { System(ConsoleState(map[], s.audit), s.cases, s.timers, []) }

  lemma SameMoveSameCase(row: Case, c: Case, a: Transition, b: Transition, toState: string)
    requires SameCase(c, row) && a.fromState == row.state && b.fromState == c.state
    requires row.(state := toState, history := row.history + [a]) == c.(state := toState, history := c.history + [b])
    ensures row == c
  {
    assert |row.history| == |c.history|;
    assert (row.history + [a])[..|row.history|] == row.history;
    assert (c.history + [b])[..|row.history|] == c.history;
    assert (row.history + [a])[|row.history|] == a && (c.history + [b])[|row.history|] == b;
  }

  /** An accepted move and its record do what the serial transition would do at that moment exactly
      when the stored case is still the one loaded. */
  lemma StoreIsSerialIff(env: Env, s: Shared, call: nat)
    requires Anchored(env, s) && call in s.flights && s.flights[call].Loaded?
    requires s.flights[call].c.caseType in env.definitions
    requires Verdict(env, s.flights[call].c, s.flights[call].move).Ok?
    ensures var c, m := s.flights[call].c, s.flights[call].move;
      var moved := Verdict(env, c, m).value;
      var serial := TransitionCase(env, SystemOf(s), m).0;
      (AfterStore(env, s, call).cases == serial.cases
       && s.audit + [MoveEvent(env.redact, c, moved, m)] == serial.console.audit) <==> Current(env, s, Store(call))
  {
    var c, m := s.flights[call].c, s.flights[call].move;
    var moved := Verdict(env, c, m).value;
    assert Fits(env, s.cases, s.flights[call]);
    var key, row := CaseKeyOf(c), s.cases.rows[CaseKeyOf(c)];
    var mine := MoveEvent(env.redact, c, moved, m);
    var again := Verdict(env, row, m);
    if again.Ok? {
      assert PutCase(s.cases, moved).rows[key] == moved && PutCase(s.cases, again.value).rows[key] == again.value;
      if moved == again.value {
        SameMoveSameCase(row, c, again.value.history[|row.history|], moved.history[|c.history|], m.toState);
      }
    } else {
      var theirs := RefusalEvent(env.redact, row, m);
      assert (s.audit + [mine])[|s.audit|] == mine && (s.audit + [theirs])[|s.audit|] == theirs;
    }
  }

  /** The steps of a call with nothing in between. */
  ghost function Atomically(env: Env, s: Shared, call: nat, m: Move): Shared {
    AfterRecord(AfterCancel(AfterStore(env, AfterLoad(env, s, call, m), call), call), call)
  }

  lemma UninterruptedStore(env: Env, s: Shared, call: nat, c: Case, m: Move)
    requires call !in s.flights && c.caseType in env.definitions && Verdict(env, c, m).Ok?
    ensures var moved, definition := Verdict(env, c, m).value, env.definitions[c.caseType];
      var stored := AfterStore(env, s.(flights := s.flights[call := Loaded(c, m)]), call);
      AfterRecord(AfterCancel(stored, call), call) == s.(
        cases := PutCase(s.cases, moved), audit := s.audit + [MoveEvent(env.redact, c, moved, m)],
        timers := if env.hasTimers && definition.IsTerminal(moved.state)
                  then Cancelled(s.timers, moved, definition, |definition.clocks|) else s.timers)
  {
    var stored := AfterStore(env, s.(flights := s.flights[call := Loaded(c, m)]), call);
    assert stored.flights - {call} == s.flights;
    assert AfterCancel(stored, call).flights - {call} == s.flights;
  }

  lemma UninterruptedRefusal(env: Env, s: Shared, call: nat, c: Case, m: Move)
    requires call !in s.flights && c.caseType in env.definitions && Verdict(env, c, m).Err?
    ensures var stored := AfterStore(env, s.(flights := s.flights[call := Loaded(c, m)]), call);
      AfterRecord(AfterCancel(stored, call), call) == s.(audit := s.audit + [RefusalEvent(env.redact, c, m)])
  {
    var stored := AfterStore(env, s.(flights := s.flights[call := Loaded(c, m)]), call);
    assert stored.flights - {call} == s.flights;
  }

  /** Uninterrupted, a call does to cases, timers and trail what the serial transition does. */
  lemma UninterruptedIsSerial(env: Env, s: Shared, call: nat, m: Move)
    requires call !in s.flights
    ensures var s', serial := Atomically(env, s, call, m), TransitionCase(env, SystemOf(s), m).0;
      s' == s.(cases := serial.cases, timers := serial.timers, audit := serial.console.audit)
  {
    if (m.tenant, m.caseId) in s.cases.rows && s.cases.rows[(m.tenant, m.caseId)].caseType in env.definitions {
      var c := s.cases.rows[(m.tenant, m.caseId)];
      assert AfterLoad(env, s, call, m) == s.(flights := s.flights[call := Loaded(c, m)]);
      if Verdict(env, c, m).Ok? {
        UninterruptedStore(env, s, call, c, m);
      } else {
        UninterruptedRefusal(env, s, call, c, m);
      }
    }
  }

  /** And an opening does what the serial one does. */
  lemma OpeningIsSerial(env: Env, s: Shared, o: Opening)
    ensures var s', serial := AfterOpen(env, s, o), OpenCase(env, SystemOf(s), o).0;
      s' == s.(cases := serial.cases, timers := serial.timers, audit := serial.console.audit)
  {}

  // ---- the last mover wins ---------------------------------------------------------------

  /** Two calls that loaded the same case both store: only the second move is left, though each was
      accepted and will be recorded as such. */
  lemma LastMoverWins(env: Env, s: Shared, first: nat, second: nat, c: Case, a: Move, b: Move)
    requires first != second && first in s.flights && second in s.flights && c.caseType in env.definitions
    requires s.flights[first] == Loaded(c, a) && s.flights[second] == Loaded(c, b)
    requires Verdict(env, c, a).Ok? && Verdict(env, c, b).Ok?
    ensures var one, two := Verdict(env, c, a).value, Verdict(env, c, b).value;
      var s1 := AfterStore(env, s, first);
      var s2 := AfterStore(env, s1, second);
      && s1.cases.rows == s.cases.rows[CaseKeyOf(c) := one] && s2.cases.rows == s.cases.rows[CaseKeyOf(c) := two]
      && s2.flights[first] == Finishing(MoveEvent(env.redact, c, one, a), ToCancel(env, one))
      && s2.flights[second] == Finishing(MoveEvent(env.redact, c, two, b), ToCancel(env, two))
      && two.history == c.history + [two.history[|c.history|]]
  {
    var s1 := AfterStore(env, s, first);
    assert s1.flights[second] == s.flights[second];
  }

  /** If the overwritten move had entered a terminal state, its call cancels the timers all the same,
      and the case is live again without the timers it should have. */
  lemma StaleMoveStrandsTimers(
    env: Env, s: Shared, first: nat, second: nat, c: Case, a: Move, b: Move, name: string)
    requires first != second && first in s.flights && second in s.flights && c.caseType in env.definitions
    requires s.flights[first] == Loaded(c, a) && s.flights[second] == Loaded(c, b)
    requires Verdict(env, c, a).Ok? && Verdict(env, c, b).Ok? && env.hasTimers
    requires env.definitions[c.caseType].IsTerminal(a.toState)
    requires !EnteredTerminal(Verdict(env, c, b).value, env.definitions[c.caseType])
    requires StartsAtOpening(env.definitions[c.caseType], name, |env.definitions[c.caseType].clocks|)
    ensures var s3 := AfterCancel(AfterStore(env, AfterStore(env, s, first), second), first);
      && CaseKeyOf(c) in s3.cases.rows && s3.cases.rows[CaseKeyOf(c)] == Verdict(env, c, b).value
      && !TimersMatch(env, SystemOf(s3), CaseKeyOf(c))
  {
    var one, definition := Verdict(env, c, a).value, env.definitions[c.caseType];
    LastMoverWins(env, s, first, second, c, a, b);
    var s2 := AfterStore(env, AfterStore(env, s, first), second);
    CancelledOnly(s2.timers, one, definition, |definition.clocks|);
    var i :| 0 <= i < |definition.clocks| && definition.clocks[i].name == name
      && definition.clocks[i].startState == definition.initial;
    assert TimerKeyOf(one, definition.clocks[i]) == (c.tenant, c.caseId, name);
  }
}
