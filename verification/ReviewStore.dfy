/** The tenant-partitioned review table with its partial unique index
    (adapters/local/review_store.py). Each store call is one atomic step on the table. */
module ReviewStore {
  import opened Kernel
  import opened ReviewModels

  type ReviewKey = (string, string)

  /** Rows by (tenant, review id). */
  type Table = map<ReviewKey, ReviewItem>

  datatype StoreError = IntegrityError

  function KeyOf(item: ReviewItem): ReviewKey { (item.request.tenant, item.request.reviewId) }

  /** Each row is filed under its own tenant and id. */
  ghost predicate Keyed(t: Table) { forall k :: k in t ==> KeyOf(t[k]) == k }

  /** The partial unique index: within a tenant a non-empty source key names one row. */
  ghost predicate UniqueSourceKeys(t: Table) {
    forall j, k | j in t && k in t && j.0 == k.0 && t[j].request.sourceKey == t[k].request.sourceKey
      && t[j].request.sourceKey != "" :: j == k
  }

  ghost predicate TableInv(t: Table) { Keyed(t) && UniqueSourceKeys(t) }

  /** Another row of the tenant already holds this item's source key. */
  predicate KeyTaken(t: Table, item: ReviewItem) {
    item.request.sourceKey != ""
    && exists k :: k in t && k != KeyOf(item) && k.0 == item.request.tenant
         && t[k].request.sourceKey == item.request.sourceKey
  }

  /** Insert or replace by (tenant, review id); the unique index may refuse. */
  function Put(t: Table, item: ReviewItem): Result<Table, StoreError> {
    if KeyTaken(t, item) then Err(IntegrityError) else Ok(t[KeyOf(item) := item])
  }

  /** A scan for the rows of a tenant that hold a source key. */
  ghost function Scan(t: Table, tenant: string, sourceKey: string): set<ReviewItem> {
    set k | k in t && k.0 == tenant && t[k].request.sourceKey == sourceKey :: t[k]
  }

  ghost function AnyOf(rows: set<ReviewItem>): Option<ReviewItem> {
    if rows == {} then None else var row :| row in rows; Some(row)
  }

  /** Look a non-empty source key up; the empty key is the sentinel that names nothing. */
  ghost function FindBySourceKey(t: Table, tenant: string, sourceKey: string): Option<ReviewItem> {
    if sourceKey == "" then None else AnyOf(Scan(t, tenant, sourceKey))
  }

  /** Insert a keyed item once: a retry yields the row that is already there. */
  ghost function PutIfAbsent(t: Table, item: ReviewItem): Result<(Table, ReviewItem, bool), StoreError> {
    if item.request.sourceKey == "" then
      match Put(t, item)
      case Err(e) => Err(e)
      case Ok(t') => Ok((t', item, true))
    else
      match FindBySourceKey(t, item.request.tenant, item.request.sourceKey)
      case Some(row) => Ok((t, row, false))
      case None => if KeyOf(item) in t then Err(IntegrityError) else Ok((t[KeyOf(item) := item], item, true))
  }

  function Get(t: Table, tenant: string, reviewId: string): Option<ReviewItem> {
    if (tenant, reviewId) in t then Some(t[(tenant, reviewId)]) else None
  }

  /** Lookup by key agrees with a scan: it finds a row exactly when there is one, and that row is
      the only one. */
  lemma LookupAgreesWithScan(t: Table, tenant: string, sourceKey: string)
    requires TableInv(t) && sourceKey != ""
    ensures var found := FindBySourceKey(t, tenant, sourceKey);
      && (found.None? <==> Scan(t, tenant, sourceKey) == {})
      && (found.Some? ==>
            && Scan(t, tenant, sourceKey) == {found.value}
            && KeyOf(found.value) in t
            && t[KeyOf(found.value)] == found.value
            && found.value.request.tenant == tenant
            && found.value.request.sourceKey == sourceKey)
  {
    var rows := Scan(t, tenant, sourceKey);
    if rows != {} {
      var row := FindBySourceKey(t, tenant, sourceKey).value;
      assert row in rows;
      forall other | other in rows ensures other == row {}
    }
  }

  lemma ScanMember(t: Table, k: ReviewKey)
    requires k in t
    ensures t[k] in Scan(t, k.0, t[k].request.sourceKey)
  {}

  lemma PutKeepsInv(t: Table, item: ReviewItem)
    requires TableInv(t)
    ensures Put(t, item).Ok? ==> TableInv(Put(t, item).value)
  {}

  lemma PutIfAbsentKeepsInv(t: Table, item: ReviewItem)
    requires TableInv(t)
    ensures PutIfAbsent(t, item).Ok? ==> TableInv(PutIfAbsent(t, item).value.0)
  {
    if item.request.sourceKey != "" {
      LookupAgreesWithScan(t, item.request.tenant, item.request.sourceKey);
      if FindBySourceKey(t, item.request.tenant, item.request.sourceKey).None? {
        forall k | k in t && k.0 == item.request.tenant
          ensures t[k].request.sourceKey != item.request.sourceKey
        {
          ScanMember(t, k);
        }
      }
    }
  }

  // ---- listing order ---------------------------------------------------------------------

  /** Text order, character by character. */
  predicate TextAtMost(a: string, b: string) {
    a == [] || (b != [] && (a[0] < b[0] || (a[0] == b[0] && TextAtMost(a[1..], b[1..]))))
  }

  lemma {:induction false} TextTotal(a: string, b: string)
    ensures TextAtMost(a, b) || TextAtMost(b, a)
  {
    if a != [] && b != [] { TextTotal(a[1..], b[1..]); }
  }

  lemma {:induction false} TextAntisymmetric(a: string, b: string)
    requires TextAtMost(a, b) && TextAtMost(b, a)
    ensures a == b
  {
    if a != [] && b != [] {
      TextAntisymmetric(a[1..], b[1..]);
      assert a == [a[0]] + a[1..] && b == [b[0]] + b[1..];
    }
  }

  lemma {:induction false} TextTransitive(a: string, b: string, c: string)
    requires TextAtMost(a, b) && TextAtMost(b, c)
    ensures TextAtMost(a, c)
  {
    if a != [] && a[0] == b[0] == c[0] { TextTransitive(a[1..], b[1..], c[1..]); }
  }

  /** Oldest first, then by review id. */
  predicate RowAtMost(a: ReviewItem, b: ReviewItem) {
    Before(a.request.submittedAt, b.request.submittedAt)
    || (a.request.submittedAt == b.request.submittedAt && TextAtMost(a.request.reviewId, b.request.reviewId))
  }

  lemma RowTotal(a: ReviewItem, b: ReviewItem)
    ensures RowAtMost(a, b) || RowAtMost(b, a)
  {
    TextTotal(a.request.reviewId, b.request.reviewId);
  }

  lemma RowTransitive(a: ReviewItem, b: ReviewItem, c: ReviewItem)
    requires RowAtMost(a, b) && RowAtMost(b, c)
    ensures RowAtMost(a, c)
  {
    if a.request.submittedAt == b.request.submittedAt == c.request.submittedAt {
      TextTransitive(a.request.reviewId, b.request.reviewId, c.request.reviewId);
    }
  }

  ghost predicate Least(row: ReviewItem, rows: set<ReviewItem>) {
    row in rows && forall other :: other in rows ==> RowAtMost(row, other)
  }

  lemma {:induction false} LeastExists(rows: set<ReviewItem>)
    requires rows != {}
    ensures exists row :: Least(row, rows)
    decreases |rows|
  {
    var some :| some in rows;
    var rest := rows - {some};
    RowTotal(some, some);
    if rest == {} {
      assert rows == {some};
      assert Least(some, rows);
    } else {
      LeastExists(rest);
      var least :| Least(least, rest);
      RowTotal(some, least);
      if RowAtMost(some, least) {
        forall other | other in rows ensures RowAtMost(some, other) {
          if other in rest { RowTransitive(some, least, other); }
        }
        assert Least(some, rows);
      } else {
        assert Least(least, rows);
      }
    }
  }

  ghost function InOrder(rows: set<ReviewItem>): (listing: seq<ReviewItem>)
    ensures forall row :: row in listing <==> row in rows
    decreases |rows|
  {
    if rows == {} then []
    else
      LeastExists(rows);
      var least :| Least(least, rows);
      [least] + InOrder(rows - {least})
  }

  ghost function RowsOf(t: Table, tenant: string): set<ReviewItem> {
    set k | k in t && k.0 == tenant :: t[k]
  }

  /** Every item of a tenant, oldest first. */
  ghost function ListAll(t: Table, tenant: string): seq<ReviewItem> { InOrder(RowsOf(t, tenant)) }

  ghost predicate Ordered(listing: seq<ReviewItem>) {
    forall i, j :: 0 <= i < j < |listing| ==>
      RowAtMost(listing[i], listing[j]) && listing[i].request.reviewId != listing[j].request.reviewId
  }

  ghost predicate DistinctIds(rows: set<ReviewItem>) {
    forall a, b :: a in rows && b in rows && a.request.reviewId == b.request.reviewId ==> a == b
  }

  lemma OrderedPrepends(least: ReviewItem, rest: seq<ReviewItem>)
    requires Ordered(rest)
    requires forall row :: row in rest ==> RowAtMost(least, row) && row.request.reviewId != least.request.reviewId
    ensures Ordered([least] + rest)
  {
    var listing := [least] + rest;
    forall i, j | 0 <= i < j < |listing|
      ensures RowAtMost(listing[i], listing[j]) && listing[i].request.reviewId != listing[j].request.reviewId
    {
      assert listing[j] == rest[j - 1] && rest[j - 1] in rest;
      if i > 0 { assert listing[i] == rest[i - 1]; }
    }
  }

  lemma {:induction false} InOrderIsOrdered(rows: set<ReviewItem>)
    requires DistinctIds(rows)
    ensures Ordered(InOrder(rows))
    decreases |rows|
  {
    if rows != {} {
      var listing := InOrder(rows);
      var least, rest := listing[0], listing[1..];
      InOrderIsOrdered(rows - {least});
      assert rest == InOrder(rows - {least}) && Least(least, rows);
      OrderedPrepends(least, rest);
      assert listing == [least] + rest;
    }
  }

  /** The listing is the only ordered enumeration of the tenant's rows. */
  lemma {:induction false} OrderedIsUnique(a: seq<ReviewItem>, b: seq<ReviewItem>)
    requires Ordered(a) && Ordered(b)
    requires forall row :: row in a <==> row in b
    ensures a == b
  {
    assert a != [] ==> a[0] in a;
    assert b != [] ==> b[0] in b;
    if a != [] {
      HeadsAgree(a, b);
      forall row ensures row in a[1..] <==> row in b[1..] {
        TailMember(a, row);
        TailMember(b, row);
      }
      OrderedIsUnique(a[1..], b[1..]);
      assert a == [a[0]] + a[1..] && b == [b[0]] + b[1..];
    }
  }

  lemma HeadsAgree(a: seq<ReviewItem>, b: seq<ReviewItem>)
    requires Ordered(a) && Ordered(b) && a != [] && b != []
    requires forall row :: row in a <==> row in b
    ensures a[0] == b[0]
  {
    assert a[0] in b && b[0] in a;
    if a[0] != b[0] {
      assert RowAtMost(a[0], b[0]) && RowAtMost(b[0], a[0]);
      TextAntisymmetric(a[0].request.reviewId, b[0].request.reviewId);
      assert false;
    }
  }

  lemma TailMember(a: seq<ReviewItem>, row: ReviewItem)
    requires Ordered(a) && a != []
    ensures row in a[1..] <==> row in a && row != a[0]
  {
    if row in a[1..] {
      var i :| 0 <= i < |a[1..]| && a[1..][i] == row;
      assert a[i + 1] == row && a[0].request.reviewId != a[i + 1].request.reviewId;
    }
  }

  /** A tenant's listing holds exactly the tenant's rows, strictly ordered, and is the only
      sequence that does. */
  lemma ListingIsTheOrderedRows(t: Table, tenant: string, listing: seq<ReviewItem>)
    requires TableInv(t)
    ensures (Ordered(listing) && forall row :: row in listing <==> row in RowsOf(t, tenant))
      <==> listing == ListAll(t, tenant)
  {
    assert DistinctIds(RowsOf(t, tenant));
    InOrderIsOrdered(RowsOf(t, tenant));
    if Ordered(listing) && forall row :: row in listing <==> row in RowsOf(t, tenant) {
      OrderedIsUnique(listing, ListAll(t, tenant));
    }
  }

  /** The text is shorter and a prefix, or has the smaller character at the first difference. */
  ghost predicate TextBefore(a: string, b: string) {
    exists n :: 0 <= n <= |a| && n <= |b| && a[..n] == b[..n]
      && (if n == |a| then n < |b| else n < |b| && a[n] < b[n])
  }

  lemma {:induction false} TextBeforeIff(a: string, b: string)
    requires TextAtMost(a, b) && a != b
    ensures TextBefore(a, b)
  {
    if a == [] {
      assert a[..0] == b[..0];
    } else if a[0] == b[0] {
      assert a == [a[0]] + a[1..] && b == [b[0]] + b[1..];
      TextBeforeIff(a[1..], b[1..]);
      var n :| 0 <= n <= |a[1..]| && n <= |b[1..]| && a[1..][..n] == b[1..][..n]
        && (if n == |a[1..]| then n < |b[1..]| else n < |b[1..]| && a[1..][n] < b[1..][n]);
      assert a[..n + 1] == [a[0]] + a[1..][..n] && b[..n + 1] == [b[0]] + b[1..][..n];
    } else {
      assert a[..0] == b[..0];
    }
  }

  /** Oldest first, then by id. */
  ghost predicate Precedes(a: ReviewRequest, b: ReviewRequest) {
    || a.submittedAt.day < b.submittedAt.day
    || (a.submittedAt.day == b.submittedAt.day && a.submittedAt.time < b.submittedAt.time)
    || (a.submittedAt == b.submittedAt && TextBefore(a.reviewId, b.reviewId))
  }

  lemma OrderedIsOldestFirst(listing: seq<ReviewItem>, i: nat, j: nat)
    requires Ordered(listing) && i < j < |listing|
    ensures Precedes(listing[i].request, listing[j].request)
  {
    var a, b := listing[i].request, listing[j].request;
    assert RowAtMost(listing[i], listing[j]) && a.reviewId != b.reviewId;
    if a.submittedAt == b.submittedAt { TextBeforeIff(a.reviewId, b.reviewId); }
  }

  /** Every listing is oldest first, by day and time of submission and then by id. */
  lemma ListingIsOldestFirst(t: Table, tenant: string, i: nat, j: nat)
    requires TableInv(t) && i < j < |ListAll(t, tenant)|
    ensures Precedes(ListAll(t, tenant)[i].request, ListAll(t, tenant)[j].request)
  {
    ListingIsTheOrderedRows(t, tenant, ListAll(t, tenant));
    OrderedIsOldestFirst(ListAll(t, tenant), i, j);
  }

  // ---- the store object ------------------------------------------------------------------

  class LocalReviewStore {
    var rows: Table

    ghost predicate Valid()
      reads this
    {
      TableInv(rows)
    }

    constructor ()
      ensures Valid() && rows == map[]
    {
      rows := map[];
    }

    method PutItem(item: ReviewItem) returns (r: Result<(), StoreError>)
      requires Valid()
      modifies this
      ensures Valid()
      ensures match Put(old(rows), item)
              case Ok(t) => r == Ok(()) && rows == t
              case Err(e) => r == Err(e) && rows == old(rows)
    {
      PutKeepsInv(rows, item);
      if KeyTaken(rows, item) {
        return Err(IntegrityError);
      }
      rows := rows[KeyOf(item) := item];
      return Ok(());
    }

    method LookUp(tenant: string, sourceKey: string) returns (found: Option<ReviewItem>)
      requires Valid()
      ensures found == FindBySourceKey(rows, tenant, sourceKey)
    {
      if sourceKey == "" {
        return None;
      }
      LookupAgreesWithScan(rows, tenant, sourceKey);
      if exists k :: k in rows && k.0 == tenant && rows[k].request.sourceKey == sourceKey {
        var k :| k in rows && k.0 == tenant && rows[k].request.sourceKey == sourceKey;
        assert rows[k] in Scan(rows, tenant, sourceKey);
        return Some(rows[k]);
      }
      assert Scan(rows, tenant, sourceKey) == {};
      return None;
    }

    method PutIfAbsentBySourceKey(item: ReviewItem) returns (r: Result<(ReviewItem, bool), StoreError>)
      requires Valid()
      modifies this
      ensures Valid()
      ensures match PutIfAbsent(old(rows), item)
              case Ok((t, row, created)) => r == Ok((row, created)) && rows == t
              case Err(e) => r == Err(e) && rows == old(rows)
    {
      PutIfAbsentKeepsInv(rows, item);
      if item.request.sourceKey == "" {
        var put := PutItem(item);
        assert put.Ok?;
        return Ok((item, true));
      }
      var existing := LookUp(item.request.tenant, item.request.sourceKey);
      if existing.Some? {
        return Ok((existing.value, false));
      }
      if KeyOf(item) in rows {
        return Err(IntegrityError);
      }
      rows := rows[KeyOf(item) := item];
      return Ok((item, true));
    }
  }
}
