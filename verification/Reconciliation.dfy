/** `ReconciliationService`: the nightly comparison of a day's platform orders with a database snapshot. */
module Reconciliation {
  import opened Common
  import opened Rounding
  import opened BundleSplit
  import OrderLines

  const DRIFT_TOTAL_TOLERANCE := 1000.0

  datatype OrderStatus = Pending | Confirmed | Processing | Shipped | Delivered | Cancelled | ReturnRequested | Returned

  /** A platform order; `tracking` is `None` for a missing or empty tracking number. */
  datatype Order = Order(id: string, status: OrderStatus, totalAmount: real, tracking: Option<string>)

  /** A row of order_mapping of the platform, in the snapshot. */
  datatype Row = Row(success: bool, odooOrderId: Option<int>)

  type Snapshot = map<string, Row>

  /** Odoo's answer when the sale order of a mapping is read. */
  datatype OdooRead = ReadRaises | NotFound | Found(amountTotal: real, tracking: Option<string>)

  /** What `OrderService.sync` does for a missing order. */
  datatype FixOutcome = Synced | Skipped | FixRaises

  datatype Field = TotalAmount | TrackingNumber

  datatype Drift = Drift(orderId: string, field: Field)

  datatype Report = Report(
    checked: int, matched: int, missing: int, extra: int, autoFixed: int, needsReview: int,
    drifts: seq<Drift>, missingDetails: seq<Order>)

  predicate IsSynced(snapshot: Snapshot, id: string) {
    id in snapshot && snapshot[id].success
  }

  function SyncedIn(snapshot: Snapshot): string -> bool { id => IsSynced(snapshot, id) }

  lemma {:induction false} FilterAppend(a: seq<string>, b: seq<string>, p: string -> bool)
    ensures Filter(a + b, p) == Filter(a, p) + Filter(b, p)
    decreases |b|
  {
    if b == [] {
      assert a + b == a;
    } else {
      var n := |b| - 1;
      assert (a + b)[..|a + b| - 1] == a + b[..n];
      FilterAppend(a, b[..n], p);
    }
  }

  function Upper(i: int, size: int, limit: int): int { if i + size <= limit then i + size else limit }

  // ------------------------------------------------------------------------------------------
  // Chunked queries
  // ------------------------------------------------------------------------------------------

  /** `_lookup_synced_ids`: chunk by chunk, the same as one query over all ids. */
  method LookupSyncedIds(snapshot: Snapshot, ids: seq<string>, chunkSize: nat) returns (found: set<string>)
    requires chunkSize >= 1
    ensures forall id :: id in found <==> id in ids && IsSynced(snapshot, id)
  {
    found := {};
    var i := 0;
    while i < |ids|
      invariant 0 <= i <= |ids|
      invariant forall id :: id in found <==> id in ids[..i] && IsSynced(snapshot, id)
    {
      var end := Upper(i, chunkSize, |ids|);
      var chunk := ids[i..end];
      assert ids[..end] == ids[..i] + chunk;
      found := found + set id | id in chunk && IsSynced(snapshot, id);
      i := end;
    }
    assert ids[..|ids|] == ids;
  }

  /** `_load_drift_mappings`, likewise; the rows come in the order of the ids. */
  method LoadDriftMappings(snapshot: Snapshot, ids: seq<string>, chunkSize: nat) returns (out: seq<string>)
    requires chunkSize >= 1
    ensures out == Filter(ids, SyncedIn(snapshot))
  {
    out := [];
    var i := 0;
    while i < |ids|
      invariant 0 <= i <= |ids|
      invariant out == Filter(ids[..i], SyncedIn(snapshot))
    {
      var end := Upper(i, chunkSize, |ids|);
      var chunk := ids[i..end];
      assert ids[..end] == ids[..i] + chunk;
      FilterAppend(ids[..i], chunk, SyncedIn(snapshot));
      out := out + Filter(chunk, id => IsSynced(snapshot, id));
      i := end;
    }
    assert ids[..|ids|] == ids;
  }

  // ------------------------------------------------------------------------------------------
  // Field drift
  // ------------------------------------------------------------------------------------------

  /** The fields in which a platform order and its sale order differ. */
  function DriftsBetween(order: Order, read: OdooRead): seq<Drift> {
    if !read.Found? then []
    else
      (if Abs(order.totalAmount - read.amountTotal) > DRIFT_TOTAL_TOLERANCE then [Drift(order.id, TotalAmount)] else []) +
      (if order.tracking.Some? && order.tracking != read.tracking then [Drift(order.id, TrackingNumber)] else [])
  }

  /** `d` is a difference of an indexed order whose mapping names a sale order. */
  predicate Reported(snapshot: Snapshot, orders: map<string, Order>, odoo: int -> OdooRead, d: Drift) {
    && d.orderId in orders && d.orderId in snapshot
    && snapshot[d.orderId].odooOrderId.Some? && snapshot[d.orderId].odooOrderId.value != 0
    && d in DriftsBetween(orders[d.orderId], odoo(snapshot[d.orderId].odooOrderId.value))
  }

  /** `_check_field_drift`. `orders` holds, by id, the platform orders that are synced. */
  method CheckFieldDrift(snapshot: Snapshot, orders: map<string, Order>, mappings: seq<string>, odoo: int -> OdooRead)
    returns (drifts: seq<Drift>)
    requires forall id :: id in mappings ==> id in snapshot
    requires forall id :: id in orders ==> orders[id].id == id
    ensures forall d :: d in drifts <==> d.orderId in mappings && Reported(snapshot, orders, odoo, d)
    ensures Distinct(mappings) ==> Distinct(drifts)
  {
    drifts := [];
    if orders == map[] || mappings == [] {
      return;
    }
    for i := 0 to |mappings|
      invariant forall d :: d in drifts <==> d.orderId in mappings[..i] && Reported(snapshot, orders, odoo, d)
      invariant Distinct(mappings) ==> Distinct(drifts)
    {
      var id := mappings[i];
      assert mappings[..i + 1] == mappings[..i] + [id];
      var saleOrder := snapshot[id].odooOrderId;
      if saleOrder.None? || saleOrder.value == 0 {
        continue;
      }
      var read := odoo(saleOrder.value);
      if !read.Found? || id !in orders {
        continue;
      }
      var pf := orders[id];
      if Abs(pf.totalAmount - read.amountTotal) > DRIFT_TOTAL_TOLERANCE {
        drifts := drifts + [Drift(pf.id, TotalAmount)];
      }
      if pf.tracking.Some? && pf.tracking != read.tracking {
        drifts := drifts + [Drift(pf.id, TrackingNumber)];
      }
    }
    assert mappings[..|mappings|] == mappings;
  }

  // ------------------------------------------------------------------------------------------
  // The report
  // ------------------------------------------------------------------------------------------

  /** `_try_auto_fix`: only statuses that are safe to create, and only a fresh sync counts. */
  predicate AutoFixes(order: Order, outcome: FixOutcome) {
    order.status in {Confirmed, Processing} && outcome == Synced
  }

  function Unsynced(snapshot: Snapshot, orders: seq<Order>): seq<Order> {
    Filter(orders, (o: Order) => !IsSynced(snapshot, o.id))
  }

  /** `d` is a field in which the synced order `o` differs from its sale order, as Odoo reads it. */
  predicate Drifted(snapshot: Snapshot, odoo: int -> OdooRead, o: Order, d: Drift) {
    && IsSynced(snapshot, o.id) && d.orderId == o.id
    && snapshot[o.id].odooOrderId.Some? && snapshot[o.id].odooOrderId.value != 0
    && d in DriftsBetween(o, odoo(snapshot[o.id].odooOrderId.value))
  }

  /** The last order of the list with this id. */
  function LastOf(orders: seq<Order>, id: string): (r: Option<Order>)
    ensures r.Some? ==> r.value in orders && r.value.id == id
    ensures r.None? ==> forall o :: o in orders ==> o.id != id
    decreases |orders|
  {
    if orders == [] then None
    else
      var n := |orders| - 1;
      assert orders == orders[..n] + [orders[n]];
      if orders[n].id == id then Some(orders[n]) else LastOf(orders[..n], id)
  }

  /** The missing orders that the successive attempts did not fix. */
  function Unfixed(missing: seq<Order>, fix: nat -> FixOutcome): (left: seq<Order>)
    ensures |left| <= |missing| && forall o :: o in left ==> o in missing
    decreases |missing|
  {
    if missing == [] then []
    else
      var n := |missing| - 1;
      assert missing == missing[..n] + [missing[n]];
      Unfixed(missing[..n], fix) + (if AutoFixes(missing[n], fix(n)) then [] else [missing[n]])
  }

  predicate IsLastWith(orders: seq<Order>, id: string, i: int) {
    0 <= i < |orders| && orders[i].id == id && forall j :: i < j < |orders| ==> orders[j].id != id
  }

  lemma {:induction false} LastOfIs(orders: seq<Order>, id: string, i: int)
    requires IsLastWith(orders, id, i)
    ensures LastOf(orders, id) == Some(orders[i])
    decreases |orders|
  {
    var n := |orders| - 1;
    if i < n {
      assert orders[n].id != id;
      assert IsLastWith(orders[..n], id, i);
      LastOfIs(orders[..n], id, i);
    }
  }

  /** The drifts are those of the last order of each id, each named once. */
  ghost predicate DriftsAre(snapshot: Snapshot, orders: seq<Order>, odoo: int -> OdooRead, drifts: seq<Drift>) {
    && Distinct(drifts)
    && (forall d :: d in drifts <==>
          LastOf(orders, d.orderId).Some? && Drifted(snapshot, odoo, LastOf(orders, d.orderId).value, d))
  }

  /** The accounting every report obeys. */
  predicate Balanced(r: Report) {
    && r.matched + r.missing == r.checked
    && |r.missingDetails| == r.missing - r.autoFixed
    && r.needsReview == r.missing - r.autoFixed + |r.drifts|
    && 0 <= r.autoFixed <= r.missing <= r.checked
  }

  /** The two queries on the snapshot. `ids` is the set of the orders' ids as a list, in any order. */
  method ReadSnapshot(snapshot: Snapshot, orders: seq<Order>, ids: seq<string>, chunkSize: nat)
    returns (synced: set<string>, mappings: seq<string>)
    requires chunkSize >= 1
    requires Distinct(ids) && forall o :: o in orders ==> o.id in ids
    ensures forall o :: o in orders ==> (o.id in synced <==> IsSynced(snapshot, o.id))
    ensures Distinct(mappings) && forall id :: id in mappings ==> IsSynced(snapshot, id)
    ensures forall o :: o in orders && IsSynced(snapshot, o.id) ==> o.id in mappings
  {
    synced := LookupSyncedIds(snapshot, ids, chunkSize);
    var syncedIds := Filter(ids, id => id in synced);
    mappings := LoadDriftMappings(snapshot, syncedIds, chunkSize);
    FilterDistinct(ids, id => id in synced);
    FilterDistinct(syncedIds, SyncedIn(snapshot));
  }

  /** The orders without a successful row. */
  method SelectMissing(snapshot: Snapshot, orders: seq<Order>, synced: set<string>) returns (missing: seq<Order>)
    requires forall o :: o in orders ==> (o.id in synced <==> IsSynced(snapshot, o.id))
    ensures missing == Unsynced(snapshot, orders) && |missing| <= |orders|
    ensures forall o :: o in missing <==> o in orders && !IsSynced(snapshot, o.id)
  {
    missing := [];
    ghost var p := (o: Order) => !IsSynced(snapshot, o.id);
    for i := 0 to |orders|
      invariant missing == Unsynced(snapshot, orders[..i]) && |missing| <= i
    {
      assert orders[..i + 1][..i] == orders[..i];
      if orders[i].id !in synced {
        missing := missing + [orders[i]];
      }
    }
    assert orders[..|orders|] == orders;
  }

  /** The auto-fix loop; `fix` is the outcome of each attempt. */
  method FixMissing(missing: seq<Order>, fix: nat -> FixOutcome) returns (fixed: nat, review: nat, details: seq<Order>)
    ensures fixed + review == |missing| && |details| == review
    ensures details == Unfixed(missing, fix)
  {
    fixed, review, details := 0, 0, [];
    for i := 0 to |missing|
      invariant fixed + review == i && |details| == review
      invariant details == Unfixed(missing[..i], fix)
    {
      assert missing[..i + 1][..i] == missing[..i];
      var ok := missing[i].status in {Confirmed, Processing} && fix(i) == Synced;
      if ok {
        fixed := fixed + 1;
      } else {
        review := review + 1;
        details := details + [missing[i]];
      }
    }
    assert missing[..|missing|] == missing;
  }

  predicate IsIndex(orders: seq<Order>, synced: set<string>, byId: map<string, Order>) {
    && (forall id :: id in byId ==> id in synced && LastOf(orders, id) == Some(byId[id]))
    && (forall id :: id in synced && LastOf(orders, id).Some? ==> id in byId)
  }

  /** The synced orders by id; of several with one id the last counts. */
  method IndexSynced(orders: seq<Order>, synced: set<string>) returns (byId: map<string, Order>)
    ensures IsIndex(orders, synced, byId)
  {
    byId := map[];
    for i := 0 to |orders|
      invariant IsIndex(orders[..i], synced, byId)
    {
      assert orders[..i + 1][..i] == orders[..i];
      if orders[i].id in synced {
        byId := byId[orders[i].id := orders[i]];
      }
    }
    assert orders[..|orders|] == orders;
  }

  /** The drifts of the indexed orders are those of the orders themselves. */
  lemma DriftsAreExact(
    snapshot: Snapshot, orders: seq<Order>, synced: set<string>, byId: map<string, Order>, mappings: seq<string>,
    odoo: int -> OdooRead, drifts: seq<Drift>)
    requires Distinct(drifts)
    requires forall d :: d in drifts <==> d.orderId in mappings && Reported(snapshot, byId, odoo, d)
    requires forall o :: o in orders ==> (o.id in synced <==> IsSynced(snapshot, o.id))
    requires forall id :: id in mappings ==> IsSynced(snapshot, id)
    requires IsIndex(orders, synced, byId)
    requires forall o :: o in orders && IsSynced(snapshot, o.id) ==> o.id in mappings
    ensures DriftsAre(snapshot, orders, odoo, drifts)
  {
    forall d
      ensures d in drifts <==>
              LastOf(orders, d.orderId).Some? && Drifted(snapshot, odoo, LastOf(orders, d.orderId).value, d)
    {
      if LastOf(orders, d.orderId).Some? && IsSynced(snapshot, d.orderId) {
        assert byId[d.orderId] == LastOf(orders, d.orderId).value;
      }
    }
  }

  /** The drift phase: every difference of a synced order from its sale order, and nothing else. */
  method FindDrifts(snapshot: Snapshot, orders: seq<Order>, synced: set<string>, mappings: seq<string>, odoo: int -> OdooRead)
    returns (drifts: seq<Drift>)
    requires forall o :: o in orders ==> (o.id in synced <==> IsSynced(snapshot, o.id))
    requires Distinct(mappings) && forall id :: id in mappings ==> IsSynced(snapshot, id)
    requires forall o :: o in orders && IsSynced(snapshot, o.id) ==> o.id in mappings
    ensures DriftsAre(snapshot, orders, odoo, drifts)
  {
    var byId := IndexSynced(orders, synced);
    drifts := CheckFieldDrift(snapshot, byId, mappings, odoo);
    DriftsAreExact(snapshot, orders, synced, byId, mappings, odoo, drifts);
  }

  lemma NeverMissingAndDrifted(
    snapshot: Snapshot, orders: seq<Order>, fix: nat -> FixOutcome, odoo: int -> OdooRead, drifts: seq<Drift>)
    requires DriftsAre(snapshot, orders, odoo, drifts)
    ensures forall d, o :: d in drifts && o in Unfixed(Unsynced(snapshot, orders), fix) ==> d.orderId != o.id
  {
    forall o | o in Unfixed(Unsynced(snapshot, orders), fix)
      ensures !IsSynced(snapshot, o.id)
    {
      assert o in Unsynced(snapshot, orders);
    }
  }

  /**
   `run_for_platform`. `ids` is the set of the orders' ids as a list, in any order; `fix` is what the
   successive `sync` calls answer and `odoo` what Odoo answers; `daySynced` holds the ids of the successful
   rows created that day.
   */
  method RunForPlatform(
      snapshot: Snapshot, orders: seq<Order>, ids: seq<string>, chunkSize: nat, daySynced: set<string>,
      fix: nat -> FixOutcome, odoo: int -> OdooRead)
    returns (r: Report)
    requires chunkSize >= 1
    requires Distinct(ids) && forall id :: id in ids <==> exists o :: o in orders && o.id == id
    ensures Balanced(r) && r.checked == |orders|
    ensures r.missing == |Unsynced(snapshot, orders)|
    ensures r.missingDetails == Unfixed(Unsynced(snapshot, orders), fix)
    ensures r.extra == if orders == [] then 0 else |set id | id in daySynced && id !in ids|
    ensures DriftsAre(snapshot, orders, odoo, r.drifts)
    ensures forall d, o :: d in r.drifts && o in r.missingDetails ==> d.orderId != o.id
    ensures orders == [] ==> r == Report(0, 0, 0, 0, 0, 0, [], [])
  {
    if orders == [] {
      return Report(0, 0, 0, 0, 0, 0, [], []);
    }
    var synced, mappings := ReadSnapshot(snapshot, orders, ids, chunkSize);
    var missing := SelectMissing(snapshot, orders, synced);
    var extra := set id | id in daySynced && id !in ids;
    var fixed, needsReview, details := FixMissing(missing, fix);
    var drifts := FindDrifts(snapshot, orders, synced, mappings, odoo);
    NeverMissingAndDrifted(snapshot, orders, fix, odoo, drifts);
    needsReview := needsReview + |drifts|;
    r := Report(|orders|, |orders| - |missing|, |missing|, |extra|, fixed, needsReview, drifts, details);
  }

  // ------------------------------------------------------------------------------------------
  // What counts as drift, and as fixed
  // ------------------------------------------------------------------------------------------

  /**
   A drift is reported, once, exactly if Odoo returns the sale order and either the totals differ by more
   than 1000 or the platform has a tracking number that Odoo does not have.
   */
  lemma DriftsBetweenAre(order: Order, read: OdooRead)
    ensures Drift(order.id, TotalAmount) in DriftsBetween(order, read) <==>
            read.Found? && (order.totalAmount > read.amountTotal + 1000.0 || order.totalAmount < read.amountTotal - 1000.0)
    ensures Drift(order.id, TrackingNumber) in DriftsBetween(order, read) <==>
            read.Found? && order.tracking.Some? && read.tracking != order.tracking
    ensures forall d :: d in DriftsBetween(order, read) ==> d.orderId == order.id
  {
  }

  /** The `i`-th attempt was for this order and did not fix it: it was not safe to create, or was not created. */
  predicate FailedAttempt(missing: seq<Order>, fix: nat -> FixOutcome, o: Order, i: int) {
    && 0 <= i < |missing| && missing[i] == o
    && (fix(i) != Synced || (o.status != Confirmed && o.status != Processing))
  }

  /** The orders left for review are exactly those with a failed attempt. */
  lemma {:induction false} UnfixedAre(missing: seq<Order>, fix: nat -> FixOutcome, o: Order)
    ensures o in Unfixed(missing, fix) <==> exists i :: FailedAttempt(missing, fix, o, i)
    decreases |missing|
  {
    if missing != [] {
      var n := |missing| - 1;
      UnfixedAre(missing[..n], fix, o);
      forall i | 0 <= i < n
        ensures FailedAttempt(missing, fix, o, i) <==> FailedAttempt(missing[..n], fix, o, i)
      {
      }
      assert FailedAttempt(missing, fix, o, n) <==> missing[n] == o && !AutoFixes(o, fix(n));
    }
  }

  /** Missing are exactly the orders without a successful row. */
  lemma UnsyncedAre(snapshot: Snapshot, orders: seq<Order>)
    ensures forall o :: o in Unsynced(snapshot, orders) <==> o in orders && (o.id !in snapshot || !snapshot[o.id].success)
  {
  }

  // ------------------------------------------------------------------------------------------
  // Order lines never look like drift
  // ------------------------------------------------------------------------------------------

  /**
   An order whose total is its subtotal, with at most 1000 bundle items, never shows a total_amount drift
   if Odoo's total is the sum of the lines the middleware sent.
   */
  lemma LinesNeverDrift(cat: OrderLines.Catalog, items: seq<OrderLines.Item>, order: Order, read: OdooRead)
    requires OrderLines.Sane(cat, items) && OrderLines.BundleCount(cat, items) <= 1000
    requires order.totalAmount == OrderLines.Subtotal(items)
    requires read.Found? && read.amountTotal == Total(OrderLines.LinesOf(cat, items))
    ensures Drift(order.id, TotalAmount) !in DriftsBetween(order, read)
  {
    OrderLines.OrderTotal(cat, items);
  }
}
