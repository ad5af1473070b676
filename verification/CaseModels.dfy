/** Case artifacts and the consumer-supplied workflow definition
    (domain/cases/models.py). */
module CaseModels {
  import opened Kernel

  /** A named deadline of `durationDays` counted from the first entry into `startState`. */
  datatype ClockSpec = ClockSpec(
    name: string, kind: ClockKind, durationDays: nat, startState: string, warnRatio: real)

  datatype WorkflowDefinition = WorkflowDefinition(
    caseType: string,
    states: seq<string>,
    initial: string,
    terminal: set<string>,
    transitions: set<(string, string)>,
    clocks: seq<ClockSpec>,
    escalateOn: set<CaseFinding>,
    stuckAfterDays: map<string, int>)
  {
    predicate IsLegal(fromState: string, toState: string) { (fromState, toState) in transitions }

    predicate IsTerminal(state: string) { state in terminal }

    /** No two clocks share a name. */
    predicate DistinctClockNames() {
      forall i, j :: 0 <= i < j < |clocks| ==> clocks[i].name != clocks[j].name
    }
  }

  datatype Transition = Transition(
    sequence: nat, fromState: string, toState: string, actor: string, reason: string, at: Instant)

  /** A live case. `attributes` lists the free attributes in key order. */
  datatype Case = Case(
    caseId: string,
    tenant: string,
    caseType: string,
    state: string,
    severity: Severity,
    openedAt: Instant,
    history: seq<Transition>,
    attributes: seq<(string, string)>,
    citations: seq<Citation>)
  {
    function NextSeq(): nat { |history| + 1 }

    function EnteredCurrentAt(): Instant {
      if history == [] then openedAt else history[|history| - 1].at
    }

    /** When the case first entered `target`; opening counts as entering the initial state. */
    function FirstEntered(target: string, initial: string): Option<Instant> {
      if target == initial then Some(openedAt) else FirstArrival(history, target)
    }

    /** The actor of the last transition, or the engine's own name before any. */
    function LastActor(): string {
      if history == [] then "case-engine@system" else history[|history| - 1].actor
    }
  }

  function FirstArrival(history: seq<Transition>, target: string): Option<Instant> {
    if history == [] then None
    else if history[0].toState == target then Some(history[0].at)
    else FirstArrival(history[1..], target)
  }

  /** A longer history never changes an arrival it already contains. */
  lemma {:induction false} FirstArrivalStable(history: seq<Transition>, longer: seq<Transition>, target: string)
    requires history <= longer
    requires FirstArrival(history, target).Some?
    ensures FirstArrival(longer, target) == FirstArrival(history, target)
  {
    if history[0].toState != target {
      FirstArrivalStable(history[1..], longer[1..], target);
    }
  }

  /** What "first entered" means: the earliest history entry that arrives in the state. */
  lemma {:induction false} FirstArrivalIsEarliest(history: seq<Transition>, target: string)
    ensures FirstArrival(history, target).None? <==> forall i :: 0 <= i < |history| ==> history[i].toState != target
    ensures FirstArrival(history, target).Some? ==>
      exists i :: 0 <= i < |history| && history[i].toState == target
        && history[i].at == FirstArrival(history, target).value
        && forall j :: 0 <= j < i ==> history[j].toState != target
  {
    if history != [] && history[0].toState != target {
      var rest := history[1..];
      FirstArrivalIsEarliest(rest, target);
      if FirstArrival(rest, target).Some? {
        var i :| 0 <= i < |rest| && rest[i].toState == target
          && rest[i].at == FirstArrival(rest, target).value
          && forall j :: 0 <= j < i ==> rest[j].toState != target;
        assert history[i + 1] == rest[i];
        assert forall j :: 0 < j < i + 1 ==> history[j] == rest[j - 1];
      } else {
        assert forall i :: 0 < i < |history| ==> history[i] == rest[i - 1];
      }
    }
  }

  datatype DeadlineStatus = DeadlineStatus(
    clock: string, kind: ClockKind, dueAt: Option<Instant>, remainingDays: int, breached: bool,
    approaching: bool)

  datatype CaseAssessment = CaseAssessment(
    caseId: string, state: string, severity: Severity, deadlines: seq<DeadlineStatus>,
    findings: seq<CaseFinding>, requiresHumanReview: bool)

  function NewCase(
    caseId: string, tenant: string, definition: WorkflowDefinition, severity: Severity,
    openedAt: Instant, attributes: seq<(string, string)>, citations: seq<Citation>): Case
  {
    Case(caseId, tenant, definition.caseType, definition.initial, severity, openedAt, [],
         attributes, citations)
  }
}
