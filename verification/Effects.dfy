/** What each operation of the service answers and changes, in the fields of its inputs and of the
    state alone: every error with its condition, every stored field, every record. */
module Effects {
  import opened Kernel
  import opened CaseModels
  import opened StateMachine
  import opened Assessment
  import opened CasePorts
  import opened ReviewModels
  import opened MakerChecker
  import opened ReviewStore
  import opened Console
  import opened ReviewRouting
  import opened Workflow
  import opened Platform

  // ---- reviews ---------------------------------------------------------------------------

  /** The requirement is the largest of one, the request and the configured floor. */
  ghost predicate Demands(policy: RoutingPolicy, severity: Severity, requested: int, required: int) {
    IsLargest(required, if severity in policy.minApprovalsBySeverity
                        then {1, requested, policy.minApprovalsBySeverity[severity]} else {1, requested})
  }

  /** The stored item with the requirement now in force, and nothing else changed. */
  ghost predicate ShownAs(policy: RoutingPolicy, row: ReviewItem, shown: ReviewItem) {
    && Demands(policy, row.request.severity, row.request.requiredApprovals, shown.request.requiredApprovals)
    && shown == row.(request := row.request.(requiredApprovals := shown.request.requiredApprovals))
  }

  lemma ProjectionIs(policy: RoutingPolicy, row: ReviewItem)
    ensures ShownAs(policy, row, WithEffectiveRouting(policy, row))
  {
    RequiredApprovalsIs(policy, row.request.severity, row.request.requiredApprovals);
  }

  /** A new pending item without approvals, filed under its id and recorded as submitted. */
  ghost predicate FiledAs(desk: Desk, st: ConsoleState, request: ReviewRequest, st': ConsoleState, item: ReviewItem) {
    && ShownAs(desk.policy, ReviewItem(request, Pending, [], ""), item)
    && st'.reviews == st.reviews[(request.tenant, request.reviewId) := item]
    && st'.audit == st.audit + [SignOff(
         request.tenant, request.reviewId, SubmitAction, request.maker, "", Amend, Allowed, Pending,
         request.severity, desk.redact("submitted for review"),
         desk.redact(request.subject + " :: " + request.summary), [], request.citations)]
  }

  /** Another of the tenant's reviews holds the request's source key. */
  ghost predicate HeldByOther(t: Table, request: ReviewRequest) {
    && request.sourceKey != ""
    && exists k ::
         k in t && k.0 == request.tenant && k.1 != request.reviewId && t[k].request.sourceKey == request.sourceKey
  }

  /** A submission is refused exactly when another review of the tenant holds its source key. */
  lemma SubmitIs(env: Env, s: System, policy: RoutingPolicy, request: ReviewRequest)
    ensures var (s', r) := Step(env, s, Command(policy, SubmitOp(request)));
      && s' == s.(console := s'.console)
      && if HeldByOther(s.console.reviews, request) then s' == s && r == Reviewed(Err(Integrity))
         else r.item.Ok? && FiledAs(Desk(policy, env.redact), s.console, request, s'.console, r.item.value)
  {
    ProjectionIs(policy, ReviewItem(request, Pending, [], ""));
  }

  /** Some review of the tenant holds the request's source key. */
  ghost predicate Held(t: Table, request: ReviewRequest) {
    exists k :: k in t && k.0 == request.tenant && t[k].request.sourceKey == request.sourceKey
  }

  lemma HeldIff(t: Table, request: ReviewRequest)
    requires TableInv(t) && request.sourceKey != ""
    ensures Held(t, request) <==> FindBySourceKey(t, request.tenant, request.sourceKey).Some?
  {
    LookupAgreesWithScan(t, request.tenant, request.sourceKey);
    if Held(t, request) {
      var k :| k in t && k.0 == request.tenant && t[k].request.sourceKey == request.sourceKey;
      ScanMember(t, k);
    }
  }

  lemma KeyedIntakeIs(desk: Desk, st: ConsoleState, request: ReviewRequest)
    requires TableInv(st.reviews) && request.sourceKey != ""
    ensures var (st', r) := SubmitIdempotent(desk, st, request);
      if Held(st.reviews, request) then
        && st' == st && r.Ok? && KeyOf(r.value) in st.reviews && r.value.request.tenant == request.tenant
        && r.value.request.sourceKey == request.sourceKey
        && ShownAs(desk.policy, st.reviews[KeyOf(r.value)], r.value)
      else if (request.tenant, request.reviewId) in st.reviews then st' == st && r == Err(Integrity)
      else r.Ok? && FiledAs(desk, st, request, st', r.value)
  {
    var item := NewItem(desk.policy, request);
    ProjectionIs(desk.policy, ReviewItem(request, Pending, [], ""));
    HeldIff(st.reviews, request);
    if Held(st.reviews, request) {
      LookupAgreesWithScan(st.reviews, request.tenant, request.sourceKey);
      ProjectionIs(desk.policy, FindBySourceKey(st.reviews, request.tenant, request.sourceKey).value);
    } else {
      ProjectionLaws(desk.policy, ReviewItem(request, Pending, [], ""));
    }
  }

  lemma UnkeyedIntakeIs(desk: Desk, st: ConsoleState, request: ReviewRequest)
    requires request.sourceKey == ""
    ensures var (st', r) := SubmitIdempotent(desk, st, request); r.Ok? && FiledAs(desk, st, request, st', r.value)
  {
    ProjectionIs(desk.policy, ReviewItem(request, Pending, [], ""));
    ProjectionLaws(desk.policy, ReviewItem(request, Pending, [], ""));
  }

  /** A keyed submission whose key is held answers with the holder and changes nothing; otherwise it
      is refused exactly when its id is taken. Without a key it is a plain submission. */
  lemma SubmitOnceIs(env: Env, s: System, policy: RoutingPolicy, request: ReviewRequest)
    requires TableInv(s.console.reviews)
    ensures var (s', r) := Step(env, s, Command(policy, SubmitOnceOp(request)));
      var t := s.console.reviews;
      && s' == s.(console := s'.console)
      && if request.sourceKey != "" && Held(t, request) then
           && s' == s && r.item.Ok? && KeyOf(r.item.value) in t && r.item.value.request.tenant == request.tenant
           && r.item.value.request.sourceKey == request.sourceKey
           && ShownAs(policy, t[KeyOf(r.item.value)], r.item.value)
         else if request.sourceKey != "" && (request.tenant, request.reviewId) in t then
           s' == s && r == Reviewed(Err(Integrity))
         else r.item.Ok? && FiledAs(Desk(policy, env.redact), s.console, request, s'.console, r.item.value)
  {
    var desk := Desk(policy, env.redact);
    if request.sourceKey == "" { UnkeyedIntakeIs(desk, s.console, request); }
    else { KeyedIntakeIs(desk, s.console, request); }
  }

  /** The checker may act: in the tenant, not the maker, holding the approver group, new to the item,
      and in no duty group to be kept apart. */
  ghost predicate MayAct(policy: RoutingPolicy, item: ReviewItem, d: ReviewDecision) {
    && d.checkerTenant == item.request.tenant && d.checker != item.request.maker
    && policy.approverGroup in d.checkerGroups
    && (forall i :: 0 <= i < |item.approvals| ==> item.approvals[i].checker != d.checker)
    && !(policy.enforceSod && item.request.sodGroup != "" && item.request.sodGroup in d.checkerGroups)
  }

  /** The item after an applied disposition. */
  ghost function AfterVerdict(item: ReviewItem, d: ReviewDecision): ReviewItem {
    match d.disposition
    case Approve =>
      item.(approvals := item.approvals + [Approval(d.checker, d.reason, d.decidedAt)],
            state := if item.request.requiredApprovals <= |item.approvals| + 1 then Approved else Pending)
    case Reject => item.(state := Rejected, terminalReason := d.reason)
    case Amend => item.(state := Amended, terminalReason := d.reason)
  }

  lemma DispositionIs(desk: Desk, st: ConsoleState, reviewId: string, d: ReviewDecision)
    requires TableInv(st.reviews)
    ensures var (st', r) := DisposeReview(desk, st, reviewId, d);
      var key := (d.checkerTenant, reviewId);
      if key !in st.reviews then st' == st && r == Err(ReviewNotFound(reviewId))
      else if st.reviews[key].state != Pending then st' == st && r == Err(AlreadyDecided)
      else
        && r.Ok? && r.value.item.request.requiredApprovals >= 1
        && var row, shown := st.reviews[key], st.reviews[key].(request := r.value.item.request);
           && ShownAs(desk.policy, row, shown)
           && (r.value.decision == Allowed <==> MayAct(desk.policy, row, d))
           && r.value.item == (if r.value.decision == Allowed then AfterVerdict(shown, d) else shown)
           && r.value.findings == Reasons(desk.policy, row, d.checker, d.checkerTenant, d.checkerGroups)
           && st'.reviews == (if r.value.decision == Allowed then st.reviews[key := r.value.item] else st.reviews)
           && st'.audit == st.audit + [SignOff(
                d.checkerTenant, reviewId, DisposeAction, row.request.maker, d.checker, d.disposition,
                r.value.decision, r.value.item.state, row.request.severity, desk.redact(d.reason),
                desk.redact(row.request.subject + " :: " + row.request.summary), r.value.findings,
                row.request.citations)]
  {
    var key := (d.checkerTenant, reviewId);
    if key in st.reviews && st.reviews[key].state == Pending {
      var shown := WithEffectiveRouting(desk.policy, st.reviews[key]);
      ProjectionIs(desk.policy, st.reviews[key]);
      VerdictIs(desk.policy, shown, d);
      OwnKeyIsFree(st.reviews, Dispose(desk.policy, shown, d, Some(d.decidedAt)).value.item);
    }
  }

  /** A disposition raises exactly on an unknown or resolved review; otherwise it is applied exactly
      when the checker may act, and recorded either way. */
  lemma DisposeIs(env: Env, s: System, policy: RoutingPolicy, reviewId: string, d: ReviewDecision)
    requires TableInv(s.console.reviews)
    ensures var (s', r) := Step(env, s, Command(policy, DisposeOp(reviewId, d)));
      var key, t := (d.checkerTenant, reviewId), s.console.reviews;
      && s' == s.(console := s'.console)
      && if key !in t then s' == s && r.outcome == Err(ReviewNotFound(reviewId))
         else if t[key].state != Pending then s' == s && r.outcome == Err(AlreadyDecided)
         else
           && r.outcome.Ok?
           && var row, o := t[key], r.outcome.value;
              var shown := row.(request := o.item.request);
              && ShownAs(policy, row, shown)
              && (o.decision == Allowed <==> MayAct(policy, row, d))
              && o.item == (if o.decision == Allowed then AfterVerdict(shown, d) else shown)
              && o.findings == Reasons(policy, row, d.checker, d.checkerTenant, d.checkerGroups)
              && s'.console.reviews == (if o.decision == Allowed then t[key := o.item] else t)
              && s'.console.audit == s.console.audit + [SignOff(
                   d.checkerTenant, reviewId, DisposeAction, row.request.maker, d.checker, d.disposition,
                   o.decision, o.item.state, row.request.severity, env.redact(d.reason),
                   env.redact(row.request.subject + " :: " + row.request.summary), o.findings, row.request.citations)]
  {
    DispositionIs(Desk(policy, env.redact), s.console, reviewId, d);
  }

  lemma OwnKeyIsFree(t: Table, item: ReviewItem)
    requires TableInv(t) && KeyOf(item) in t && item.request.sourceKey == t[KeyOf(item)].request.sourceKey
    ensures Put(t, item) == Ok(t[KeyOf(item) := item])
  {}

  lemma VerdictIs(policy: RoutingPolicy, item: ReviewItem, d: ReviewDecision)
    requires item.state == Pending
    requires Demands(policy, item.request.severity, item.request.requiredApprovals, item.request.requiredApprovals)
    ensures var r := Dispose(policy, item, d, Some(d.decidedAt));
      && r.Ok? && (r.value.decision == Allowed <==> MayAct(policy, item, d))
      && r.value.item == (if r.value.decision == Allowed then AfterVerdict(item, d) else item)
      && r.value.item.request == item.request
      && r.value.findings == Reasons(policy, item, d.checker, d.checkerTenant, d.checkerGroups)
  {
    AllowedIff(policy, item, d, Some(d.decidedAt));
    FindingsAre(policy, item, d.checker, d.checkerTenant, d.checkerGroups);
    RequiredApprovalsIs(policy, item.request.severity, item.request.requiredApprovals);
  }

  /** Reading one review shows it under the requirement now in force; a query by key does not. */
  lemma ReadsAre(env: Env, s: System, policy: RoutingPolicy, tenant: string, reviewId: string)
    ensures var (s', r) := Step(env, s, Command(policy, GetReviewOp(tenant, reviewId)));
      && s' == s
      && if (tenant, reviewId) in s.console.reviews
         then r.item.Ok? && ShownAs(policy, s.console.reviews[(tenant, reviewId)], r.item.value)
         else r.item == Err(ReviewNotFound(reviewId))
  {
    if (tenant, reviewId) in s.console.reviews { ProjectionIs(policy, s.console.reviews[(tenant, reviewId)]); }
  }

  /** A query by key answers with the tenant's review that holds it, as stored, if there is one. */
  lemma FindIs(env: Env, s: System, policy: RoutingPolicy, tenant: string, sourceKey: string)
    requires TableInv(s.console.reviews)
    ensures var (s', r) := Step(env, s, Command(policy, FindOp(tenant, sourceKey)));
      var t := s.console.reviews;
      && s' == s
      && (r.found.None? <==>
            sourceKey == "" || forall k :: k in t && k.0 == tenant ==> t[k].request.sourceKey != sourceKey)
      && (r.found.Some? ==>
            r.found.value.request.tenant == tenant && r.found.value.request.sourceKey == sourceKey
            && KeyOf(r.found.value) in t && t[KeyOf(r.found.value)] == r.found.value)
  {
    if sourceKey != "" {
      LookupAgreesWithScan(s.console.reviews, tenant, sourceKey);
      forall k | k in s.console.reviews && k.0 == tenant && s.console.reviews[k].request.sourceKey == sourceKey
        ensures s.console.reviews[k] in Scan(s.console.reviews, tenant, sourceKey)
      {
        ScanMember(s.console.reviews, k);
      }
    }
  }

  lemma ProjectedShows(policy: RoutingPolicy, rows: seq<ReviewItem>)
    ensures var shown := ProjectAll(policy, rows);
      && |shown| == |rows|
      && (forall i :: 0 <= i < |rows| ==> ShownAs(policy, rows[i], shown[i]))
      && (forall x :: x in shown ==> exists row :: row in rows && ShownAs(policy, row, x))
      && (forall row :: row in rows ==> exists x :: x in shown && ShownAs(policy, row, x))
  {
    var shown := ProjectAll(policy, rows);
    forall i | 0 <= i < |rows| ensures ShownAs(policy, rows[i], shown[i]) { ProjectionIs(policy, rows[i]); }
    forall x | x in shown ensures exists row :: row in rows && ShownAs(policy, row, x) {
      var i :| 0 <= i < |shown| && shown[i] == x;
      assert rows[i] in rows;
    }
    forall row | row in rows ensures exists x :: x in shown && ShownAs(policy, row, x) {
      var i :| 0 <= i < |rows| && rows[i] == row;
      assert shown[i] in shown;
    }
  }

  ghost predicate OldestFirst(items: seq<ReviewItem>) {
    forall i, j :: 0 <= i < j < |items| ==> Precedes(items[i].request, items[j].request)
  }

  lemma ListingOrder(desk: Desk, st: ConsoleState, tenant: string)
    requires TableInv(st.reviews)
    ensures OldestFirst(ListEverything(desk, st, tenant))
  {
    var rows, listing := ListAll(st.reviews, tenant), ListEverything(desk, st, tenant);
    forall i, j | 0 <= i < j < |listing| ensures Precedes(listing[i].request, listing[j].request) {
      ListingIsOldestFirst(st.reviews, tenant, i, j);
      ProjectionIs(desk.policy, rows[i]);
      ProjectionIs(desk.policy, rows[j]);
    }
  }

  lemma QueueOrder(desk: Desk, st: ConsoleState, tenant: string)
    requires TableInv(st.reviews)
    ensures OldestFirst(ListQueue(desk, st, tenant))
  {
    var queue := ListQueue(desk, st, tenant);
    forall i, j | 0 <= i < j < |queue| ensures Precedes(queue[i].request, queue[j].request) {
      QueueIsOldestFirst(desk, st, tenant, i, j);
    }
  }

  lemma ListingMembers(desk: Desk, st: ConsoleState, tenant: string)
    requires TableInv(st.reviews)
    ensures var t, listing := st.reviews, ListEverything(desk, st, tenant);
      && (forall x :: x in listing ==>
            KeyOf(x) in t && x.request.tenant == tenant && ShownAs(desk.policy, t[KeyOf(x)], x))
      && (forall k :: k in t && k.0 == tenant ==> exists x :: x in listing && KeyOf(x) == k)
  {
    var t, rows := st.reviews, ListAll(st.reviews, tenant);
    ProjectedShows(desk.policy, rows);
    forall k | k in t && k.0 == tenant ensures exists x :: x in ListEverything(desk, st, tenant) && KeyOf(x) == k {
      assert t[k] in RowsOf(t, tenant) && t[k] in rows;
    }
  }

  lemma QueueMembers(desk: Desk, st: ConsoleState, tenant: string)
    requires TableInv(st.reviews)
    ensures var t, queue := st.reviews, ListQueue(desk, st, tenant);
      && (forall x :: x in queue ==>
            KeyOf(x) in t && x.request.tenant == tenant && x.state == Pending
            && ShownAs(desk.policy, t[KeyOf(x)], x))
      && (forall k :: k in t && k.0 == tenant && t[k].state == Pending ==> exists x :: x in queue && KeyOf(x) == k)
  {
    var t, pending := st.reviews, Filter(StillPending(), ListAll(st.reviews, tenant));
    ProjectedShows(desk.policy, pending);
    forall k | k in t && k.0 == tenant && t[k].state == Pending
      ensures exists x :: x in ListQueue(desk, st, tenant) && KeyOf(x) == k
    {
      assert t[k] in RowsOf(t, tenant) && t[k] in pending;
    }
  }

  /** The pending queue holds each of the tenant's pending reviews, as shown now, oldest first. */
  lemma QueueIs(env: Env, s: System, policy: RoutingPolicy, tenant: string)
    requires TableInv(s.console.reviews)
    ensures var (s', r) := Step(env, s, Command(policy, ListQueueOp(tenant)));
      var t := s.console.reviews;
      && s' == s && OldestFirst(r.items)
      && (forall x :: x in r.items ==>
            KeyOf(x) in t && x.request.tenant == tenant && x.state == Pending && ShownAs(policy, t[KeyOf(x)], x))
      && (forall k :: k in t && k.0 == tenant && t[k].state == Pending ==>
            exists x :: x in r.items && KeyOf(x) == k)
  {
    QueueOrder(Desk(policy, env.redact), s.console, tenant);
    QueueMembers(Desk(policy, env.redact), s.console, tenant);
  }

  /** The full listing is the same for all of the tenant's reviews. */
  lemma ListingIs(env: Env, s: System, policy: RoutingPolicy, tenant: string)
    requires TableInv(s.console.reviews)
    ensures var (s', r) := Step(env, s, Command(policy, ListAllOp(tenant)));
      var t := s.console.reviews;
      && s' == s && OldestFirst(r.items)
      && (forall x :: x in r.items ==>
            KeyOf(x) in t && x.request.tenant == tenant && ShownAs(policy, t[KeyOf(x)], x))
      && (forall k :: k in t && k.0 == tenant ==> exists x :: x in r.items && KeyOf(x) == k)
  {
    ListingOrder(Desk(policy, env.redact), s.console, tenant);
    ListingMembers(Desk(policy, env.redact), s.console, tenant);
  }

  // ---- cases -----------------------------------------------------------------------------

  /** The attributes are told as "key=value", in order, with a space between. */
  lemma AttributeTextIs(attributes: seq<(string, string)>, last: (string, string))
    ensures AttributeText([]) == ""
    ensures AttributeText([last]) == last.0 + "=" + last.1
    ensures attributes != [] ==>
      AttributeText(attributes + [last]) == AttributeText(attributes) + " " + last.0 + "=" + last.1
    decreases |attributes|
  {
    if |attributes| == 1 {
      assert (attributes + [last])[1..] == [last];
      JoinAssociates(attributes[0].0 + "=" + attributes[0].1, last.0, last.1);
    } else if attributes != [] {
      var head := attributes[0].0 + "=" + attributes[0].1;
      AttributeTextIs(attributes[1..], last);
      assert (attributes + [last])[1..] == attributes[1..] + [last];
      HeadStays(head, AttributeText(attributes[1..]), last.0, last.1);
    }
  }

  lemma JoinAssociates(head: string, key: string, value: string)
    ensures head + " " + (key + "=" + value) == head + " " + key + "=" + value
  {}

  lemma HeadStays(head: string, text: string, key: string, value: string)
    ensures head + " " + (text + " " + key + "=" + value) == head + " " + text + " " + key + "=" + value
  {}

  ghost function Told(redact: string -> string, text: string, c: Case): string {
    redact(text + " :: " + AttributeText(c.attributes))
  }

  /** Stored under its key; a new key goes last, a known one keeps its place. */
  ghost predicate StoredAs(t: CaseTable, c: Case, t': CaseTable) {
    && t'.rows == t.rows[(c.tenant, c.caseId) := c]
    && t'.order == if (c.tenant, c.caseId) in t.rows then t.order else t.order + [(c.tenant, c.caseId)]
  }

  ghost function Published(env: Env, kind: LifecycleEventType, c: Case): seq<LifecycleEvent> {
    if env.hasEvents then [LifecycleEvent(kind, c.tenant, c.caseId, c.state, c.severity)] else []
  }

  /** An opening is refused exactly for an unknown workflow; otherwise the case starts in the initial
      state without history, and is published and recorded. */
  lemma OpenIs(env: Env, s: System, policy: RoutingPolicy, o: Opening)
    ensures var (s', r) := Step(env, s, Command(policy, OpenOp(o)));
      if o.caseType !in env.definitions then s' == s && r == CaseReply(Err(UnknownWorkflow(o.caseType)))
      else
        var definition := env.definitions[o.caseType];
        var c := Case(o.caseId, o.tenant, definition.caseType, definition.initial, o.severity, o.openedAt, [],
                      o.attributes, o.citations);
        && r == CaseReply(Ok(c)) && StoredAs(s.cases, c, s'.cases)
        && s'.console.reviews == s.console.reviews && (!env.hasTimers ==> s'.timers == s.timers)
        && s'.events == s.events + Published(env, CaseOpened, c)
        && s'.console.audit == s.console.audit + [CaseAction(
             o.tenant, o.caseId, OpenAction, o.actor, "", definition.initial, CaseAllowed, o.severity,
             Told(env.redact, if o.summary == "" then o.caseType else o.summary, c), [], o.citations)]
  {}

  /** A move raises exactly on an unknown case, an unknown workflow or an edge that is not there; the
      last is recorded as rejected. An accepted one is stored, published and recorded. */
  lemma MoveIs(env: Env, s: System, policy: RoutingPolicy, m: Move)
    requires CaseTableInv(s.cases)
    ensures var (s', r) := Step(env, s, Command(policy, MoveOp(m)));
      var key := (m.tenant, m.caseId);
      if key !in s.cases.rows then s' == s && r == CaseReply(Err(CaseNotFound(m.caseId)))
      else
        var c := s.cases.rows[key];
        if c.caseType !in env.definitions then s' == s && r == CaseReply(Err(UnknownWorkflow(c.caseType)))
        else
          var accepted := (c.state, m.toState) in env.definitions[c.caseType].transitions;
          && s'.console == s.console.(audit := s.console.audit + [CaseAction(
               m.tenant, m.caseId, TransitionAction, m.actor, c.state, m.toState,
               if accepted then CaseAllowed else CaseRejected, c.severity, Told(env.redact, m.reason, c), [],
               c.citations)])
          && if !accepted then
               s' == s.(console := s'.console)
               && r == CaseReply(Err(Refused(IllegalTransition(c.state, m.toState))))
             else
               var moved := c.(state := m.toState, history := c.history + [Transition(
                 |c.history| + 1, c.state, m.toState, m.actor, m.reason, m.at)]);
               && r == CaseReply(Ok(moved)) && StoredAs(s.cases, moved, s'.cases)
               && s'.events == s.events + Published(env, CaseTransitioned, moved)
               && (!env.hasTimers || m.toState !in env.definitions[c.caseType].terminal ==> s'.timers == s.timers)
  {
    if (m.tenant, m.caseId) in s.cases.rows {
      var c := s.cases.rows[(m.tenant, m.caseId)];
      if c.caseType in env.definitions {
        AcceptedIff(c, m.toState, m.actor, m.reason, m.at, env.definitions[c.caseType]);
      }
    }
  }

  lemma JoinsOnce(head: string, text: string, name: string)
    ensures head + ", " + (text + ", " + name) == head + ", " + text + ", " + name
  {}

  lemma NamesSnoc(findings: seq<CaseFinding>, last: CaseFinding)
    requires findings != []
    ensures JoinNames(findings + [last]) == JoinNames(findings) + ", " + FindingName(last)
    decreases |findings|
  {
    assert (findings + [last])[1..] == findings[1..] + [last];
    if |findings| > 1 {
      NamesSnoc(findings[1..], last);
      JoinsOnce(FindingName(findings[0]), JoinNames(findings[1..]), FindingName(last));
    }
  }

  /** The names of the findings, in order, with a comma between. */
  lemma NamesAre(findings: seq<CaseFinding>, last: CaseFinding)
    ensures JoinNames([]) == "" && JoinNames([SlaBreach]) == "sla_breach"
    ensures JoinNames([ApproachingDeadline]) == "approaching_deadline" && JoinNames([StuckInState]) == "stuck_in_state"
    ensures findings != [] ==> JoinNames(findings + [last]) == JoinNames(findings) + ", " + JoinNames([last])
  {
    if findings != [] { NamesSnoc(findings, last); }
  }

  /** The review an escalation asks for. */
  ghost function Asks(desk: Desk, c: Case, a: CaseAssessment, l: Look): ReviewRequest {
    ReviewRequest(
      l.reviewId, c.tenant, "case_review:" + c.caseType,
      if c.history == [] then "case-engine@system" else c.history[|c.history| - 1].actor,
      desk.redact("Case " + c.caseId + " (" + c.caseType + ") in state " + c.state),
      desk.redact("Escalated on: " + if a.findings == [] then "escalated" else JoinNames(a.findings)),
      c.severity, 1, "", c.caseId, c.citations, "", l.submittedAt)
  }

  lemma AskedIs(desk: Desk, c: Case, a: CaseAssessment, l: Look)
    ensures EscalationRequest(desk, c, a, l) == Asks(desk, c, a, l)
  {
    assert a.findings != [] ==> |JoinNames(a.findings)| > 0;
  }

  /** An evaluation raises exactly on an unknown case or workflow; otherwise it answers with the
      assessment, records it with its findings, and when a review is needed publishes that and files
      the review if a router is bound. */
  lemma EvaluateIs(env: Env, s: System, policy: RoutingPolicy, l: Look)
    requires CaseTableInv(s.cases)
    ensures var (s', r) := Step(env, s, Command(policy, EvaluateOp(l)));
      var key := (l.tenant, l.caseId);
      if key !in s.cases.rows then s' == s && r == Assessed(Err(CaseNotFound(l.caseId)))
      else
        var c := s.cases.rows[key];
        if c.caseType !in env.definitions then s' == s && r == Assessed(Err(UnknownWorkflow(c.caseType)))
        else
          var a := AssessmentOf(c, env.definitions[c.caseType], l.asOf, env.holidays);
          var recorded := s.console.(audit := s.console.audit + [CaseAction(
            l.tenant, l.caseId, EvaluateAction, l.actor, c.state, c.state,
            if a.requiresHumanReview then CaseEscalated else CaseAllowed, c.severity,
            Told(env.redact, c.caseType, c), a.findings, c.citations)]);
          && r == Assessed(Ok(a)) && s'.cases == s.cases && s'.timers == s.timers
          && s'.events == s.events + (if a.requiresHumanReview then Published(env, CaseEscalatedEvent, c) else [])
          && if a.requiresHumanReview && env.hasRouter
             then exists item :: FiledAs(
               Desk(policy, env.redact), recorded, Asks(Desk(policy, env.redact), c, a, l), s'.console, item)
             else s'.console == recorded
  {
    if (l.tenant, l.caseId) in s.cases.rows && s.cases.rows[(l.tenant, l.caseId)].caseType in env.definitions {
      var c, desk := s.cases.rows[(l.tenant, l.caseId)], Desk(policy, env.redact);
      var a := AssessmentOf(c, env.definitions[c.caseType], l.asOf, env.holidays);
      AskedIs(desk, c, a, l);
      ProjectionIs(policy, ReviewItem(Asks(desk, c, a, l), Pending, [], ""));
    }
  }

  /** A lookup answers with the tenant's case of that id, or that there is none; the listing is that
      of the store. */
  lemma CaseLookupIs(env: Env, s: System, policy: RoutingPolicy, tenant: string, caseId: string)
    ensures Step(env, s, Command(policy, GetCaseOp(tenant, caseId)))
      == (s, CaseReply(if (tenant, caseId) in s.cases.rows then Ok(s.cases.rows[(tenant, caseId)])
                       else Err(CaseNotFound(caseId))))
    ensures Step(env, s, Command(policy, ListCasesOp(tenant))) == (s, CasesListed(ListByTenant(s.cases, tenant)))
  {}
}
