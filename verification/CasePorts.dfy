/** The case engine's in-memory ports: the insertion-ordered case dictionary, the timer register
    and the lifecycle event list (adapters/local/case_store.py, timers.py, events.py). */
module CasePorts {
  import opened Kernel
  import opened CaseModels

  type CaseKey = (string, string)

  /** A dictionary with its insertion order: replacing a value keeps the key's place. */
  datatype CaseTable = CaseTable(order: seq<CaseKey>, rows: map<CaseKey, Case>)

  function CaseKeyOf(c: Case): CaseKey { (c.tenant, c.caseId) }

  function PutCase(t: CaseTable, c: Case): CaseTable {
    var key := CaseKeyOf(c);
    CaseTable(if key in t.rows then t.order else t.order + [key], t.rows[key := c])
  }

  function GetCase(t: CaseTable, tenant: string, caseId: string): Option<Case> {
    if (tenant, caseId) in t.rows then Some(t.rows[(tenant, caseId)]) else None
  }

  /** Each case is filed under its own tenant and id, and the order lists each key once. */
  ghost predicate CaseTableInv(t: CaseTable) {
    && (forall k :: k in t.rows ==> CaseKeyOf(t.rows[k]) == k)
    && (forall k :: k in t.order <==> k in t.rows)
    && (forall i, j :: 0 <= i < j < |t.order| ==> t.order[i] != t.order[j])
  }

  lemma PutCaseKeepsInv(t: CaseTable, c: Case)
    requires CaseTableInv(t)
    ensures CaseTableInv(PutCase(t, c))
  {
    var key := CaseKeyOf(c);
    if key !in t.rows {
      assert key !in t.order;
      assert forall i :: 0 <= i < |t.order| ==> t.order[i] in t.order;
    }
  }

  ghost function KeyOfTenant(tenant: string): CaseKey -> bool { (k: CaseKey) => k.0 == tenant }

  ghost function CasesAt(keys: seq<CaseKey>, rows: map<CaseKey, Case>): seq<Case> {
    if keys == [] then []
    else
      var init, last := keys[..|keys| - 1], keys[|keys| - 1];
      if last in rows then CasesAt(init, rows) + [rows[last]] else CasesAt(init, rows)
  }

  /** Every case of a tenant, in the order first stored. */
  ghost function ListByTenant(t: CaseTable, tenant: string): seq<Case> {
    CasesAt(Filter(KeyOfTenant(tenant), t.order), t.rows)
  }

  lemma {:induction false} CasesAtMembers(keys: seq<CaseKey>, rows: map<CaseKey, Case>, c: Case)
    ensures c in CasesAt(keys, rows) <==> exists k :: k in keys && k in rows && rows[k] == c
  {
    if keys != [] {
      var init, last := keys[..|keys| - 1], keys[|keys| - 1];
      CasesAtMembers(init, rows, c);
      assert keys == init + [last];
      assert last in keys;
    }
  }

  /** A lookup in a tenant finds a case exactly when the tenant's listing holds it; the listing
      holds nothing of any other tenant. */
  lemma CaseListingAgreesWithLookup(t: CaseTable, tenant: string, c: Case)
    requires CaseTableInv(t)
    ensures c in ListByTenant(t, tenant) <==> c.tenant == tenant && GetCase(t, tenant, c.caseId) == Some(c)
  {
    CasesAtMembers(Filter(KeyOfTenant(tenant), t.order), t.rows, c);
    if c.tenant == tenant && GetCase(t, tenant, c.caseId) == Some(c) {
      assert (tenant, c.caseId) in t.order && KeyOfTenant(tenant)((tenant, c.caseId));
    }
  }

  /** The listing with the stored case of that key, if it is there, replaced. */
  ghost predicate Replaces(before: seq<Case>, c: Case, after: seq<Case>) {
    |after| == |before|
    && forall i :: 0 <= i < |before| ==> after[i] == if CaseKeyOf(before[i]) == CaseKeyOf(c) then c else before[i]
  }

  lemma {:induction false} CasesAtUpdate(keys: seq<CaseKey>, rows: map<CaseKey, Case>, c: Case)
    requires forall k :: k in rows ==> CaseKeyOf(rows[k]) == k
    requires CaseKeyOf(c) in rows || CaseKeyOf(c) !in keys
    ensures Replaces(CasesAt(keys, rows), c, CasesAt(keys, rows[CaseKeyOf(c) := c]))
  {
    if keys != [] {
      assert keys == keys[..|keys| - 1] + [keys[|keys| - 1]];
      CasesAtUpdate(keys[..|keys| - 1], rows, c);
    }
  }

  lemma {:induction false} CasesAtOthers(keys: seq<CaseKey>, rows: map<CaseKey, Case>, c: Case)
    requires CaseKeyOf(c) !in keys
    ensures CasesAt(keys, rows[CaseKeyOf(c) := c]) == CasesAt(keys, rows)
  {
    if keys != [] {
      assert keys == keys[..|keys| - 1] + [keys[|keys| - 1]];
      CasesAtOthers(keys[..|keys| - 1], rows, c);
    }
  }

  lemma NewCaseGoesLast(t: CaseTable, c: Case)
    requires CaseTableInv(t) && CaseKeyOf(c) !in t.rows
    ensures ListByTenant(PutCase(t, c), c.tenant) == ListByTenant(t, c.tenant) + [c]
  {
    var keys, key := Filter(KeyOfTenant(c.tenant), t.order), CaseKeyOf(c);
    FilterSnoc(KeyOfTenant(c.tenant), t.order, key);
    CasesAtOthers(keys, t.rows, c);
    assert (keys + [key])[..|keys|] == keys;
  }

  lemma OtherStoresReplace(t: CaseTable, tenant: string, c: Case)
    requires CaseTableInv(t) && (c.tenant != tenant || CaseKeyOf(c) in t.rows)
    ensures Replaces(ListByTenant(t, tenant), c, ListByTenant(PutCase(t, c), tenant))
  {
    FilterSnoc(KeyOfTenant(tenant), t.order, CaseKeyOf(c));
    CasesAtUpdate(Filter(KeyOfTenant(tenant), t.order), t.rows, c);
  }

  /** A tenant's listing is in the order in which its cases were first stored: a new case goes last,
      a stored one is replaced where it is, and other tenants' cases do not show. */
  lemma ListingGrows(t: CaseTable, tenant: string, c: Case)
    requires CaseTableInv(t)
    ensures ListByTenant(CaseTable([], map[]), tenant) == []
    ensures var before, after := ListByTenant(t, tenant), ListByTenant(PutCase(t, c), tenant);
      if c.tenant == tenant && CaseKeyOf(c) !in t.rows then after == before + [c] else Replaces(before, c, after)
  {
    if c.tenant == tenant && CaseKeyOf(c) !in t.rows {
      NewCaseGoesLast(t, c);
    } else {
      OtherStoresReplace(t, tenant, c);
    }
  }

  type TimerKey = (string, string, string)

  /** Fire times by (tenant, case id, clock name). */
  type TimerMap = map<TimerKey, Instant>

  class LocalCaseStore {
    var cases: CaseTable

    ghost predicate Valid()
      reads this
    {
      CaseTableInv(cases)
    }

    constructor ()
      ensures Valid() && cases == CaseTable([], map[])
    {
      cases := CaseTable([], map[]);
    }

    method PutItem(c: Case)
      requires Valid()
      modifies this
      ensures Valid() && cases == PutCase(old(cases), c)
    {
      PutCaseKeepsInv(cases, c);
      cases := PutCase(cases, c);
    }
  }

  class LocalTimers {
    var timers: TimerMap

    constructor ()
      ensures timers == map[]
    {
      timers := map[];
    }

    method Schedule(tenant: string, caseId: string, clock: string, fireAt: Instant)
      modifies this
      ensures timers == old(timers)[(tenant, caseId, clock) := fireAt]
    {
      timers := timers[(tenant, caseId, clock) := fireAt];
    }

    method Cancel(tenant: string, caseId: string, clock: string)
      modifies this
      ensures timers == old(timers) - {(tenant, caseId, clock)}
    {
      timers := timers - {(tenant, caseId, clock)};
    }
  }

  class LocalEventPublisher {
    var published: seq<LifecycleEvent>

    constructor ()
      ensures published == []
    {
      published := [];
    }

    method Publish(event: LifecycleEvent)
      modifies this
      ensures published == old(published) + [event]
    {
      published := published + [event];
    }
  }
}
