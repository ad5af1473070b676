/** The review console: intake, the pending queue and disposition with sign-off, over the
    review table and the audit trail (domain/console_service.py). The functions say what each
    operation does to the pair; the class does it step by step. */
module Console {
  import opened Kernel
  import opened ReviewModels
  import opened MakerChecker
  import opened ReviewStore
  import opened AuditLog

  /** The active routing policy and the text redaction the console was built with. */
  datatype Desk = Desk(policy: RoutingPolicy, redact: string -> string)

  datatype ConsoleState = ConsoleState(reviews: Table, audit: seq<AuditEvent>)

  datatype ConsoleError = ReviewNotFound(reviewId: string) | AlreadyDecided | Integrity

  /** Project the active routing floor into an item. */
  function WithEffectiveRouting(policy: RoutingPolicy, item: ReviewItem): ReviewItem {
    var effective := policy.RequiredApprovals(item.request.severity, item.request.requiredApprovals);
    if effective != item.request.requiredApprovals
    then item.(request := item.request.(requiredApprovals := effective))
    else item
  }

  function NewItem(policy: RoutingPolicy, request: ReviewRequest): ReviewItem {
    WithEffectiveRouting(policy, ReviewItem(request, Pending, [], ""))
  }

  function SignOffFor(
    desk: Desk, item: ReviewItem, action: SignOffAction, checker: string, disposition: Disposition,
    decision: Decision, reason: string, findings: seq<EligibilityFinding>): AuditEvent
  {
    var req := item.request;
    SignOff(req.tenant, req.reviewId, action, req.maker, checker, disposition, decision, item.state,
            req.severity, desk.redact(reason), desk.redact(req.subject + " :: " + req.summary), findings,
            req.citations)
  }

  function SubmissionEvent(desk: Desk, item: ReviewItem): AuditEvent {
    SignOffFor(desk, item, SubmitAction, "", Amend, Allowed, "submitted for review", [])
  }

  function DispositionEvent(desk: Desk, outcome: DispositionOutcome, d: ReviewDecision): AuditEvent {
    SignOffFor(desk, outcome.item, DisposeAction, d.checker, d.disposition, outcome.decision, d.reason,
               outcome.findings)
  }

  /** Store a new item and record it. */
  function Submit(desk: Desk, st: ConsoleState, request: ReviewRequest)
    : (ConsoleState, Result<ReviewItem, ConsoleError>)
  {
    var item := NewItem(desk.policy, request);
    match Put(st.reviews, item)
    case Err(_) => (st, Err(Integrity))
    case Ok(t) => (ConsoleState(t, st.audit + [SubmissionEvent(desk, item)]), Ok(item))
  }

  /** Store and record a keyed item once; a retry returns the stored item. */
  ghost function SubmitIdempotent(desk: Desk, st: ConsoleState, request: ReviewRequest)
    : (ConsoleState, Result<ReviewItem, ConsoleError>)
  {
    match PutIfAbsent(st.reviews, NewItem(desk.policy, request))
    case Err(_) => (st, Err(Integrity))
    case Ok((t, row, created)) =>
      var persisted := WithEffectiveRouting(desk.policy, row);
      (ConsoleState(t, if created then st.audit + [SubmissionEvent(desk, persisted)] else st.audit), Ok(persisted))
  }

  /** Load within the checker's own tenant, decide, store an allowed outcome, record the attempt. */
  function DisposeReview(desk: Desk, st: ConsoleState, reviewId: string, d: ReviewDecision)
    : (ConsoleState, Result<DispositionOutcome, ConsoleError>)
  {
    match Get(st.reviews, d.checkerTenant, reviewId)
    case None => (st, Err(ReviewNotFound(reviewId)))
    case Some(stored) =>
      match Dispose(desk.policy, WithEffectiveRouting(desk.policy, stored), d, Some(d.decidedAt))
      case Err(_) => (st, Err(AlreadyDecided))
      case Ok(outcome) =>
        var recorded := st.audit + [DispositionEvent(desk, outcome, d)];
        if outcome.decision == Denied then (ConsoleState(st.reviews, recorded), Ok(outcome))
        else
          match Put(st.reviews, outcome.item)
          case Err(_) => (st, Err(Integrity))
          case Ok(t) => (ConsoleState(t, recorded), Ok(outcome))
  }

  function GetReview(desk: Desk, st: ConsoleState, tenant: string, reviewId: string)
    : Result<ReviewItem, ConsoleError>
  {
    match Get(st.reviews, tenant, reviewId)
    case None => Err(ReviewNotFound(reviewId))
    case Some(item) => Ok(WithEffectiveRouting(desk.policy, item))
  }

  function ProjectAll(policy: RoutingPolicy, items: seq<ReviewItem>): seq<ReviewItem> {
    seq(|items|, i requires 0 <= i < |items| => WithEffectiveRouting(policy, items[i]))
  }

  ghost function ListEverything(desk: Desk, st: ConsoleState, tenant: string): seq<ReviewItem> {
    ProjectAll(desk.policy, ListAll(st.reviews, tenant))
  }

  ghost function StillPending(): ReviewItem -> bool { (item: ReviewItem) => !item.IsTerminal() }

  /** The tenant's pending queue, oldest first, with the active floor projected in. */
  ghost function ListQueue(desk: Desk, st: ConsoleState, tenant: string): seq<ReviewItem> {
    ProjectAll(desk.policy, Filter(StillPending(), ListAll(st.reviews, tenant)))
  }

  // ---- routing projection ----------------------------------------------------------------

  /** Projection only ever raises the requirement, is idempotent, and changes nothing else. */
  lemma ProjectionLaws(policy: RoutingPolicy, item: ReviewItem)
    ensures var projected := WithEffectiveRouting(policy, item);
      && Routed(policy, projected)
      && WithEffectiveRouting(policy, projected) == projected
      && item.request.requiredApprovals <= projected.request.requiredApprovals
      && projected == item.(request := projected.request)
      && projected.request == item.request.(requiredApprovals := projected.request.requiredApprovals)
      && KeyOf(projected) == KeyOf(item)
      && projected.Approvers() == item.Approvers()
      && (Sound(item) && !item.IsTerminal() ==> Sound(projected))
  {
    var projected := WithEffectiveRouting(policy, item);
    assert projected.approvals == item.approvals;
    assert projected.Approvers() == item.Approvers();
  }

  /** A listed approved item shows exactly as many approvals as it demands if and only if the
      floor in force now is no higher than the requirement it was approved under. */
  lemma ApprovedShowsItsCountIff(policy: RoutingPolicy, item: ReviewItem)
    requires Sound(item) && item.state == Approved
    ensures var shown := WithEffectiveRouting(policy, item);
      shown.ApprovalsCount() == shown.request.requiredApprovals
      <==> policy.Floor(item.request.severity) <= item.request.requiredApprovals
  {}

  lemma {:induction false} FilterKeepsOrder(keep: ReviewItem -> bool, rows: seq<ReviewItem>)
    requires Ordered(rows)
    ensures Ordered(Filter(keep, rows))
  {
    if rows != [] {
      var init, last := rows[..|rows| - 1], rows[|rows| - 1];
      FilterKeepsOrder(keep, init);
      var kept := Filter(keep, init);
      forall i | 0 <= i < |kept|
        ensures RowAtMost(kept[i], last) && kept[i].request.reviewId != last.request.reviewId
      {
        assert kept[i] in init;
        var j :| 0 <= j < |init| && init[j] == kept[i];
        assert rows[j] == kept[i] && rows[|rows| - 1] == last;
      }
    }
  }

  /** The queue shows exactly the tenant's pending rows, oldest first, each under the floor now in
      force and each still short of the approvals it demands. */
  lemma QueueShowsThePending(desk: Desk, st: ConsoleState, tenant: string)
    requires TableInv(st.reviews) && forall k :: k in st.reviews ==> Sound(st.reviews[k])
    ensures var queue := ListQueue(desk, st, tenant);
      && Ordered(queue)
      && (forall row :: row in RowsOf(st.reviews, tenant) && !row.IsTerminal() ==>
            WithEffectiveRouting(desk.policy, row) in queue)
      && (forall shown :: shown in queue ==>
            && shown.request.tenant == tenant && shown.state == Pending && Sound(shown)
            && KeyOf(shown) in st.reviews
            && shown == WithEffectiveRouting(desk.policy, st.reviews[KeyOf(shown)]))
  {
    var listing, queue := ListAll(st.reviews, tenant), ListQueue(desk, st, tenant);
    var pending := Filter(StillPending(), listing);
    ListingIsTheOrderedRows(st.reviews, tenant, listing);
    FilterKeepsOrder(StillPending(), listing);
    forall i | 0 <= i < |queue|
      ensures pending[i] in pending && queue[i] == WithEffectiveRouting(desk.policy, pending[i])
      ensures queue[i].request == pending[i].request.(requiredApprovals := queue[i].request.requiredApprovals)
      ensures queue[i].state == Pending && Sound(queue[i]) && pending[i] in RowsOf(st.reviews, tenant)
    {
      ProjectionLaws(desk.policy, pending[i]);
    }
    forall row | row in RowsOf(st.reviews, tenant) && !row.IsTerminal()
      ensures WithEffectiveRouting(desk.policy, row) in queue
    {
      assert row in pending;
      var i :| 0 <= i < |pending| && pending[i] == row;
      assert queue[i] == WithEffectiveRouting(desk.policy, row);
    }
  }

  /** The pending queue is oldest first, by day and time of submission and then by id. */
  lemma QueueIsOldestFirst(desk: Desk, st: ConsoleState, tenant: string, i: nat, j: nat)
    requires TableInv(st.reviews) && i < j < |ListQueue(desk, st, tenant)|
    ensures Precedes(ListQueue(desk, st, tenant)[i].request, ListQueue(desk, st, tenant)[j].request)
  {
    var pending := Filter(StillPending(), ListAll(st.reviews, tenant));
    ListingIsTheOrderedRows(st.reviews, tenant, ListAll(st.reviews, tenant));
    FilterKeepsOrder(StillPending(), ListAll(st.reviews, tenant));
    OrderedIsOldestFirst(pending, i, j);
    ProjectionLaws(desk.policy, pending[i]);
    ProjectionLaws(desk.policy, pending[j]);
  }

  /** Reading one item and listing the tenant's items agree: an item is readable exactly when the
      listing shows it, as the listing shows it. */
  lemma ReadAgreesWithListing(desk: Desk, st: ConsoleState, tenant: string, shown: ReviewItem)
    requires TableInv(st.reviews)
    ensures shown in ListEverything(desk, st, tenant)
      <==> shown.request.tenant == tenant && GetReview(desk, st, tenant, shown.request.reviewId) == Ok(shown)
  {
    var listing := ListAll(st.reviews, tenant);
    forall i | 0 <= i < |listing|
      ensures KeyOf(WithEffectiveRouting(desk.policy, listing[i])) == KeyOf(listing[i])
      ensures listing[i] in RowsOf(st.reviews, tenant)
    {
      assert listing[i] in listing;
      ProjectionLaws(desk.policy, listing[i]);
    }
    if shown.request.tenant == tenant && GetReview(desk, st, tenant, shown.request.reviewId) == Ok(shown) {
      var row := st.reviews[(tenant, shown.request.reviewId)];
      assert row in RowsOf(st.reviews, tenant) && row in listing;
      var i :| 0 <= i < |listing| && listing[i] == row;
      assert ListEverything(desk, st, tenant)[i] == shown;
    }
  }

  // ---- the service object ----------------------------------------------------------------

  class ConsoleService {
    const store: LocalReviewStore
    const audit: AuditSink
    const desk: Desk

    ghost predicate Valid()
      reads store
    {
      store.Valid()
    }

    ghost function State(): ConsoleState
      reads store, audit
    {
      ConsoleState(store.rows, audit.events)
    }

    constructor (store: LocalReviewStore, audit: AuditSink, desk: Desk)
      requires store.Valid()
      ensures Valid() && this.store == store && this.audit == audit && this.desk == desk
    {
      this.store, this.audit, this.desk := store, audit, desk;
    }

    method RecordSubmission(item: ReviewItem)
      modifies audit
      ensures audit.events == old(audit.events) + [SubmissionEvent(desk, item)]
    {
      audit.Record(SubmissionEvent(desk, item));
    }

    method SubmitItem(request: ReviewRequest) returns (r: Result<ReviewItem, ConsoleError>)
      requires Valid()
      modifies store, audit
      ensures Valid()
      ensures (State(), r) == Submit(desk, old(State()), request)
    {
      var item := NewItem(desk.policy, request);
      var put := store.PutItem(item);
      if put.Err? {
        return Err(Integrity);
      }
      RecordSubmission(item);
      return Ok(item);
    }

    method SubmitOnce(request: ReviewRequest) returns (r: Result<ReviewItem, ConsoleError>)
      requires Valid()
      modifies store, audit
      ensures Valid()
      ensures (State(), r) == SubmitIdempotent(desk, old(State()), request)
    {
      var item := NewItem(desk.policy, request);
      var put := store.PutIfAbsentBySourceKey(item);
      if put.Err? {
        return Err(Integrity);
      }
      var persisted := WithEffectiveRouting(desk.policy, put.value.0);
      if put.value.1 {
        RecordSubmission(persisted);
      }
      return Ok(persisted);
    }

    method DisposeItem(reviewId: string, d: ReviewDecision) returns (r: Result<DispositionOutcome, ConsoleError>)
      requires Valid()
      modifies store, audit
      ensures Valid()
      ensures (State(), r) == DisposeReview(desk, old(State()), reviewId, d)
    {
      var loaded := Get(store.rows, d.checkerTenant, reviewId);
      if loaded.None? {
        return Err(ReviewNotFound(reviewId));
      }
      var item := WithEffectiveRouting(desk.policy, loaded.value);
      var decided := Dispose(desk.policy, item, d, Some(d.decidedAt));
      if decided.Err? {
        return Err(AlreadyDecided);
      }
      var outcome := decided.value;
      if outcome.decision == Allowed {
        var put := store.PutItem(outcome.item);
        if put.Err? {
          return Err(Integrity);
        }
      }
      audit.Record(DispositionEvent(desk, outcome, d));
      return Ok(outcome);
    }
  }
}
