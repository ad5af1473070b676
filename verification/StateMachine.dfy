/** The legal-edge state machine with its append-only history (domain/cases/state_machine.py). */
module StateMachine {
  import opened Kernel
  import opened CaseModels

  datatype IllegalTransition = IllegalTransition(fromState: string, toState: string)

  /** Advance a case along a legal edge, or refuse. */
  function Transit(
    c: Case, toState: string, actor: string, reason: string, asOf: Instant, definition: WorkflowDefinition)
    : Result<Case, IllegalTransition>
  {
    if !definition.IsLegal(c.state, toState) then Err(IllegalTransition(c.state, toState))
    else
      var entry := Transition(c.NextSeq(), c.state, toState, actor, reason, asOf);
      Ok(c.(state := toState, history := c.history + [entry]))
  }

  /** A move is accepted exactly along one of the definition's edges; it then ends in the target
      with one more entry, the next in number, and nothing else of the case changes. */
  lemma AcceptedIff(
    c: Case, toState: string, actor: string, reason: string, asOf: Instant, definition: WorkflowDefinition)
    ensures var r := Transit(c, toState, actor, reason, asOf, definition);
      && (r.Ok? <==> (c.state, toState) in definition.transitions)
      && (r.Err? ==> r.error == IllegalTransition(c.state, toState))
      && (r.Ok? ==> r.value == Case(
            c.caseId, c.tenant, c.caseType, toState, c.severity, c.openedAt,
            c.history + [Transition(|c.history| + 1, c.state, toState, actor, reason, asOf)],
            c.attributes, c.citations))
  {}

  function LegalAmong(states: seq<string>, fromState: string, definition: WorkflowDefinition): seq<string> {
    if states == [] then []
    else if definition.IsLegal(fromState, states[0]) then [states[0]] + LegalAmong(states[1..], fromState, definition)
    else LegalAmong(states[1..], fromState, definition)
  }

  function LegalNextStates(c: Case, definition: WorkflowDefinition): seq<string> {
    LegalAmong(definition.states, c.state, definition)
  }

  lemma {:induction false} LegalAmongMembers(
    states: seq<string>, fromState: string, definition: WorkflowDefinition, s: string)
    ensures s in LegalAmong(states, fromState, definition) <==> s in states && definition.IsLegal(fromState, s)
  {
    if states != [] { LegalAmongMembers(states[1..], fromState, definition, s); }
  }

  /** A next state is offered exactly when the machine accepts it and the definition lists it. */
  lemma OfferedIffAccepted(
    c: Case, toState: string, actor: string, reason: string, asOf: Instant, definition: WorkflowDefinition)
    ensures toState in LegalNextStates(c, definition)
      <==> Transit(c, toState, actor, reason, asOf, definition).Ok? && toState in definition.states
  {
    LegalAmongMembers(definition.states, c.state, definition, toState);
  }

  /** So the offers are complete exactly when the edges out of the current state stay among the
      listed states. */
  lemma OffersCompleteIff(c: Case, definition: WorkflowDefinition)
    ensures (forall toState :: definition.IsLegal(c.state, toState) ==> toState in LegalNextStates(c, definition))
      <==> forall edge :: edge in definition.transitions && edge.0 == c.state ==> edge.1 in definition.states
  {
    forall toState ensures toState in LegalNextStates(c, definition)
      <==> toState in definition.states && definition.IsLegal(c.state, toState)
    {
      LegalAmongMembers(definition.states, c.state, definition, toState);
    }
    if forall toState :: definition.IsLegal(c.state, toState) ==> toState in LegalNextStates(c, definition) {
      forall edge | edge in definition.transitions && edge.0 == c.state ensures edge.1 in definition.states {
        assert definition.IsLegal(c.state, edge.1);
      }
    }
  }

  /** A definition with an edge to a state it does not list: the move along it is accepted, and not
      offered. */
  lemma AcceptedButNotOffered(c: Case, actor: string, reason: string, asOf: Instant)
    requires c.state == "open"
    ensures var definition := WorkflowDefinition("k", ["open"], "open", {}, {("open", "closed")}, [], {}, map[]);
      && Transit(c, "closed", actor, reason, asOf, definition).Ok?
      && "closed" !in LegalNextStates(c, definition)
  {
    var definition := WorkflowDefinition("k", ["open"], "open", {}, {("open", "closed")}, [], {}, map[]);
    OfferedIffAccepted(c, "closed", actor, reason, asOf, definition);
    assert definition.states[0] != "closed";
  }

  ghost function EndState(history: seq<Transition>, initial: string): string {
    if history == [] then initial else history[|history| - 1].toState
  }

  /** Entry `i` is numbered from 1 and leaves, along a legal edge, the state the one before
      arrived in. */
  ghost predicate LegalEntry(history: seq<Transition>, i: nat, definition: WorkflowDefinition)
    requires i < |history|
  {
    && history[i].sequence == i + 1
    && history[i].fromState == EndState(history[..i], definition.initial)
    && definition.IsLegal(history[i].fromState, history[i].toState)
  }

  ghost predicate LegalHistory(history: seq<Transition>, definition: WorkflowDefinition) {
    forall i :: 0 <= i < |history| ==> LegalEntry(history, i, definition)
  }

  lemma LegalSnoc(history: seq<Transition>, entry: Transition, definition: WorkflowDefinition)
    ensures LegalHistory(history + [entry], definition) <==>
      LegalHistory(history, definition) && LegalEntry(history + [entry], |history|, definition)
    ensures (history + [entry])[..|history|] == history
  {
    var longer := history + [entry];
    forall i | 0 <= i < |history|
      ensures LegalEntry(longer, i, definition) <==> LegalEntry(history, i, definition)
    {
      assert longer[..i] == history[..i];
    }
  }

  ghost predicate WellFormed(c: Case, definition: WorkflowDefinition) {
    LegalHistory(c.history, definition) && c.state == EndState(c.history, definition.initial)
  }

  /** The case as it was opened. */
  ghost function Reopened(c: Case, definition: WorkflowDefinition): Case {
    c.(state := definition.initial, history := [])
  }

  /** Run the machine again from the opening, once for each recorded entry. */
  ghost function Replay(c: Case, history: seq<Transition>, definition: WorkflowDefinition)
    : Result<Case, IllegalTransition>
    decreases |history|
  {
    if history == [] then Ok(Reopened(c, definition))
    else
      var last := history[|history| - 1];
      match Replay(c, history[..|history| - 1], definition)
      case Err(e) => Err(e)
      case Ok(before) => Transit(before, last.toState, last.actor, last.reason, last.at, definition)
  }

  lemma {:induction false} LegalReplays(c: Case, history: seq<Transition>, definition: WorkflowDefinition)
    requires LegalHistory(history, definition)
    ensures Replay(c, history, definition)
      == Ok(c.(state := EndState(history, definition.initial), history := history))
    decreases |history|
  {
    if history != [] {
      var init, last := history[..|history| - 1], history[|history| - 1];
      assert history == init + [last];
      LegalSnoc(init, last, definition);
      LegalReplays(c, init, definition);
      assert LegalEntry(history, |init|, definition) && history[..|init|] == init;
      TransitAppends(c.(state := EndState(init, definition.initial), history := init), last, definition);
    }
  }

  /** Replaying an entry that fits appends it as it is. */
  lemma TransitAppends(before: Case, entry: Transition, definition: WorkflowDefinition)
    requires entry.sequence == before.NextSeq() && entry.fromState == before.state
    requires definition.IsLegal(before.state, entry.toState)
    ensures Transit(before, entry.toState, entry.actor, entry.reason, entry.at, definition)
      == Ok(before.(state := entry.toState, history := before.history + [entry]))
  {}

  lemma {:induction false} ReplayedIsLegal(c: Case, history: seq<Transition>, definition: WorkflowDefinition)
    requires Replay(c, history, definition).Ok?
    requires Replay(c, history, definition).value.history == history
    ensures LegalHistory(history, definition)
    decreases |history|
  {
    if history != [] {
      var init, last := history[..|history| - 1], history[|history| - 1];
      var before := Replay(c, init, definition).value;
      var entry := Transition(before.NextSeq(), before.state, last.toState, last.actor, last.reason, last.at);
      assert history == before.history + [entry] && history == init + [last];
      assert before.history == init && entry == last by {
        assert |before.history| == |init|;
        assert before.history == history[..|init|];
      }
      ReplayedIsLegal(c, init, definition);
      LegalReplays(c, init, definition);
      LegalSnoc(init, last, definition);
    }
  }

  /** A history is well formed exactly when replaying it from the opening rebuilds the case. */
  lemma ReplayRebuilds(c: Case, definition: WorkflowDefinition)
    ensures WellFormed(c, definition) <==> Replay(c, c.history, definition) == Ok(c)
  {
    if WellFormed(c, definition) {
      LegalReplays(c, c.history, definition);
    }
    if Replay(c, c.history, definition) == Ok(c) {
      ReplayedIsLegal(c, c.history, definition);
      LegalReplays(c, c.history, definition);
    }
  }

  lemma TransitKeepsWellFormed(
    c: Case, toState: string, actor: string, reason: string, asOf: Instant, definition: WorkflowDefinition)
    requires WellFormed(c, definition)
    ensures var moved := Transit(c, toState, actor, reason, asOf, definition);
      moved.Ok? ==> WellFormed(moved.value, definition)
  {
    LegalSnoc(c.history, Transition(c.NextSeq(), c.state, toState, actor, reason, asOf), definition);
  }
}
