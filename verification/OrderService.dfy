/**
 `OrderService.sync` over its two stores, and its place in the claim protocol: the effect of one call
 is exactly the effect of the protocol actions it takes.
 */
module OrderService {
  import opened Common
  import opened OrderProtocol

  datatype SyncResult =
    | SkippedDuplicate
    | SkippedInFlight
    | SkippedExistsInOdoo(found: SaleOrder)
    | Synced(created: SaleOrder)
    | SyncRaised(error: string)
    | NoResult // the call died, or an exception of the database left it

  /** What goes wrong in the call; `recorded` is whether the failure is then written to the row. */
  datatype Fault =
    | NoFault
    | DiesAfterClaim
    | CheckFails(recorded: bool)                   // check_order_exists raises
    | DiesAfterCheck
    | RecordFails(committed: bool, recorded: bool) // the write after an order was found raises, before or after its commit
    | CreateFails(recorded: bool)                  // create_sale_order raises, Odoo stored nothing
    | CreateRaisesAfterwards(recorded: bool)       // Odoo stored the order, a later request of create_sale_order raises
    | EndsInPhaseC(committed: bool)                // the call dies or raises in phase C, before or after its commit
  {
    function Raised(error: string): SyncResult
      requires CheckFails? || RecordFails? || CreateFails? || CreateRaisesAfterwards?
    {
      if recorded then SyncRaised(error) else NoResult
    }
  }

  /** How a call ends that raised in phase B. */
  function EndOfFailure(call: CallId, error: string, recorded: bool): Action {
    if recorded then RecordFailure(call, error) else Crash(call)
  }

  lemma CellRunFirst(c: Cell, first: (Action, int), rest: seq<(Action, int)>, nextId: SaleOrder)
    ensures CellRun(c, [first] + rest, nextId) == CellRun(CellStep(c, first, nextId), rest, nextId)
  {
    assert ([first] + rest)[1..] == rest;
  }

  lemma CellRunOne(c: Cell, a: (Action, int), nextId: SaleOrder)
    ensures CellRun(c, [a], nextId) == CellStep(c, a, nextId)
  {
    CellRunFirst(c, a, [], nextId);
    assert [a] + [] == [a];
  }

  lemma CellRunTwo(c: Cell, a: (Action, int), b: (Action, int), nextId: SaleOrder)
    ensures CellRun(c, [a, b], nextId) == CellStep(CellStep(c, a, nextId), b, nextId)
  {
    CellRunFirst(c, a, [b], nextId);
    CellRunOne(CellStep(c, a, nextId), b, nextId);
    assert [a] + [b] == [a, b];
  }

  /** A row that another call has settled, or holds since less than five minutes. */
  predicate TurnsAway(existing: Option<Row>, now: int) {
    existing.Some? &&
    (existing.value.status == Success || (existing.value.status == Syncing && now < existing.value.updatedAt + 300))
  }

  /** The row while the call holds it. */
  function FreshlyClaimed(existing: Option<Row>, now: int): Row {
    match existing
    case None => Row(Syncing, None, 0, now, None)
    case Some(row) => Row(Syncing, row.odooOrderId, row.retryCount + 1, now, row.lastError)
  }

  /** The row is settled and names one of these orders. */
  predicate NamesOne(row: Row, orders: set<SaleOrder>, tries: int, now: int) {
    && row.status == Success && row.odooOrderId.Some? && row.odooOrderId.value in orders
    && row.lastError.None? && row.retryCount == tries && row.updatedAt == now
  }

  predicate FailedWith(row: Row, error: string, tries: int, now: int) {
    row.status == Failed && row.lastError == Some(error) && row.retryCount == tries && row.updatedAt == now
  }

  /**
   What phases B and C make of the claimed row and of the orders in Odoo, told without the protocol: the
   call creates an order exactly if there was none, and only a call that is cut short leaves its claim.
   */
  predicate Outcome(
    claimed: Row, orders: set<SaleOrder>, freshId: SaleOrder, fault: Fault, error: string, now: int,
    row: Row, orders': set<SaleOrder>)
  {
    var tries := claimed.retryCount;
    match fault
    case DiesAfterClaim => row == claimed && orders' == orders
    case DiesAfterCheck => row == claimed && orders' == orders
    case CheckFails(recorded) =>
      orders' == orders && (if recorded then FailedWith(row, error, tries + 1, now) else row == claimed)
    case RecordFails(committed, recorded) =>
      if orders != {} then
        orders' == orders &&
        (if recorded then FailedWith(row, error, tries + 1, now)
         else if committed then NamesOne(row, orders, tries, now)
         else row == claimed)
      else orders' == {freshId} && NamesOne(row, orders', tries, now)
    case CreateFails(recorded) =>
      orders' == orders &&
      (if orders != {} then NamesOne(row, orders, tries, now)
       else if recorded then FailedWith(row, error, tries + 1, now)
       else row == claimed)
    case CreateRaisesAfterwards(recorded) =>
      if orders != {} then orders' == orders && NamesOne(row, orders, tries, now)
      else orders' == {freshId} && (if recorded then FailedWith(row, error, tries + 1, now) else row == claimed)
    case EndsInPhaseC(committed) =>
      if orders != {} then orders' == orders && NamesOne(row, orders, tries, now)
      else orders' == {freshId} && (if committed then NamesOne(row, orders', tries, now) else row == claimed)
    case NoFault =>
      orders' == (if orders == {} then {freshId} else orders) && NamesOne(row, orders', tries, now)
  }

  /** What a call that has claimed the row returns. */
  predicate ReturnsAfterClaim(c: Cell, fault: Fault, error: string, nextId: SaleOrder, result: SyncResult) {
    match fault
    case DiesAfterClaim => result == NoResult
    case CheckFails(_) => result == fault.Raised(error)
    case DiesAfterCheck => result == NoResult
    case _ =>
      if c.orders != {} then
        if fault.RecordFails? then result == fault.Raised(error)
        else result.SkippedExistsInOdoo? && result.found in c.orders
      else
        if fault.CreateFails? || fault.CreateRaisesAfterwards? then result == fault.Raised(error)
        else if fault.EndsInPhaseC? then result == NoResult
        else result == Synced(nextId)
  }

  /** Whether a call that found the cell `c` at its claim returns `result`. */
  predicate Returns(c: Cell, now: int, fault: Fault, error: string, nextId: SaleOrder, result: SyncResult) {
    match ClaimRow(c.row, now)
    case Duplicate => result == SkippedDuplicate
    case InFlight => result == SkippedInFlight
    case Claim(_) => ReturnsAfterClaim(c, fault, error, nextId, result)
  }

  class OrderService {
    /** The order_mapping table. */
    var mappings: map<Key, Row>
    /** Odoo's sale orders, each with the platform order it was created for. */
    var saleOrders: map<SaleOrder, Key>
    var nextSaleOrderId: int

    ghost predicate Valid()
      reads this
    {
      forall id :: id in saleOrders ==> id.id < nextSaleOrderId
    }

    ghost function OrdersOf(key: Key): set<SaleOrder>
      reads this
    {
      set id | id in saleOrders && saleOrders[id] == key
    }

    /** The protocol's view of one platform order, seen between two calls. */
    ghost function View(key: Key): Cell
      reads this
    {
      Cell(if key in mappings then Some(mappings[key]) else None, OrdersOf(key), map[])
    }

    constructor ()
      ensures Valid() && mappings == map[] && saleOrders == map[]
    {
      mappings, saleOrders, nextSaleOrderId := map[], map[], 1;
    }

    /** `OdooClient.check_order_exists`: one matching sale order, any of them. */
    method CheckOrderExists(key: Key) returns (found: Option<SaleOrder>)
      ensures found.None? <==> OrdersOf(key) == {}
      ensures found.Some? ==> found.value in OrdersOf(key)
    {
      if id :| id in saleOrders && saleOrders[id] == key {
        found := Some(id);
        assert id in OrdersOf(key);
      } else {
        found := None;
      }
    }

    /** `OdooClient.create_sale_order`, as far as the store is concerned. */
    method CreateSaleOrder(key: Key) returns (id: SaleOrder)
      requires Valid()
      modifies this`saleOrders, this`nextSaleOrderId
      ensures Valid() && id == SaleOrder(old(nextSaleOrderId)) && id !in old(saleOrders)
      ensures saleOrders == old(saleOrders)[id := key]
      ensures OrdersOf(key) == old(OrdersOf(key)) + {id}
      ensures forall k :: k != key ==> OrdersOf(k) == old(OrdersOf(k))
    {
      id := SaleOrder(nextSaleOrderId);
      nextSaleOrderId := nextSaleOrderId + 1;
      saleOrders := saleOrders[id := key];
    }

    /** Phase A. */
    method ClaimPhase(key: Key, now: int) returns (outcome: ClaimOutcome)
      modifies this`mappings
      ensures outcome == ClaimRow(old(View(key)).row, now)
      ensures mappings == (if outcome.Claim? then old(mappings)[key := outcome.row] else old(mappings))
    {
      if key in mappings {
        var row := mappings[key];
        if row.status == Success {
          return Duplicate;
        }
        if row.status == Syncing {
          var age := now - row.updatedAt;
          if age < SYNCING_STALE_AFTER {
            return InFlight;
          }
        }
        row := row.(status := Syncing);
        row := row.(retryCount := row.retryCount + 1);
        row := row.(updatedAt := now);
        mappings := mappings[key := row];
      } else {
        mappings := mappings[key := Row(Syncing, None, 0, now, None)];
      }
      return Claim(mappings[key]);
    }

    /** Phase C, and the write after an order was found in Odoo. */
    method RecordOrder(key: Key, id: SaleOrder, now: int)
      requires key in mappings
      modifies this`mappings
      ensures mappings == old(mappings)[key := SucceedRow(old(mappings[key]), id, now)]
    {
      var row := mappings[key];
      row := row.(odooOrderId := Some(id));
      row := row.(status := Success);
      row := row.(lastError := None);
      mappings := mappings[key := Stamped(mappings[key], row, now)];
    }

    /** The `except` branch. */
    method RecordError(key: Key, error: string, now: int)
      requires key in mappings
      modifies this`mappings
      ensures mappings == old(mappings)[key := FailRow(old(mappings[key]), error, now)]
    {
      var row := mappings[key];
      row := row.(status := Failed);
      row := row.(retryCount := row.retryCount + 1);
      row := row.(lastError := Some(error));
      mappings := mappings[key := Stamped(mappings[key], row, now)];
    }

    /** The protocol's cell `c` shows this store with `call` as the only call under way. */
    ghost predicate InCall(key: Key, c: Cell, call: CallId)
      reads this
    {
      key in mappings && c.(calls := map[]) == View(key) && c.calls.Keys == {call}
    }

    /** The `except` branch, if the call gets to finish it. */
    method RecordIf(recorded: bool, key: Key, error: string, now: int)
      requires key in mappings
      modifies this`mappings
      ensures mappings ==
              if recorded then old(mappings)[key := FailRow(old(mappings[key]), error, now)] else old(mappings)
    {
      if recorded {
        RecordError(key, error, now);
      }
    }

    /** Phase B when Odoo already holds `id`: record it, or fail to. */
    method SettleExisting(key: Key, call: CallId, id: SaleOrder, now: int, fault: Fault, error: string, ghost c: Cell)
      returns (result: SyncResult, ghost trace: seq<(Action, int)>)
      requires InCall(key, c, call) && c.calls[call].phase == OrderSeen(id)
      modifies this`mappings
      ensures View(key) == CellRun(c, trace, SaleOrder(nextSaleOrderId))
      ensures forall k :: k != key ==> View(k) == old(View(k))
      ensures result == if fault.RecordFails? then fault.Raised(error) else SkippedExistsInOdoo(id)
      ensures key in mappings && saleOrders == old(saleOrders)
      ensures old(mappings[key].status) == Syncing ==>
                var row, tries := mappings[key], old(mappings[key].retryCount);
                if fault.RecordFails? && fault.recorded then FailedWith(row, error, tries + 1, now)
                else if fault.RecordFails? && !fault.committed then row == old(mappings[key])
                else NamesOne(row, {id}, tries, now)
    {
      ghost var nextId := SaleOrder(nextSaleOrderId);
      if !fault.RecordFails? {
        RecordOrder(key, id, now);
        trace := [(RecordExists(call), now)];
        CellRunOne(c, trace[0], nextId);
        assert CellStep(c, trace[0], nextId).calls == map[];
        return SkippedExistsInOdoo(id), trace;
      }
      if fault.committed {
        RecordOrder(key, id, now);
      }
      trace := [(RecordExistsRaises(call, fault.committed), now), (EndOfFailure(call, error, fault.recorded), now)];
      CellRunTwo(c, trace[0], trace[1], nextId);
      RecordIf(fault.recorded, key, error, now);
      assert CellRun(c, trace, nextId).calls == map[];
      return fault.Raised(error), trace;
    }

    /** Phases B and C when Odoo holds no order. */
    method CreateAndRecord(key: Key, call: CallId, now: int, fault: Fault, error: string, ghost c: Cell)
      returns (result: SyncResult, ghost trace: seq<(Action, int)>)
      requires Valid() && InCall(key, c, call) && c.calls[call].phase == NoOrderSeen
      modifies this
      ensures Valid()
      ensures View(key) == CellRun(c, trace, SaleOrder(old(nextSaleOrderId)))
      ensures forall k :: k != key ==> View(k) == old(View(k))
      ensures result == if fault.CreateFails? || fault.CreateRaisesAfterwards? then fault.Raised(error)
                        else if fault.EndsInPhaseC? then NoResult
                        else Synced(SaleOrder(old(nextSaleOrderId)))
      ensures key in mappings
      ensures OrdersOf(key) == old(OrdersOf(key)) + (if fault.CreateFails? then {} else {SaleOrder(old(nextSaleOrderId))})
      ensures old(mappings[key].status) == Syncing ==>
                var row, tries := mappings[key], old(mappings[key].retryCount);
                if fault.CreateFails? || fault.CreateRaisesAfterwards? then
                  if fault.recorded then FailedWith(row, error, tries + 1, now) else row == old(mappings[key])
                else if fault.EndsInPhaseC? && !fault.committed then row == old(mappings[key])
                else NamesOne(row, {SaleOrder(old(nextSaleOrderId))}, tries, now)
    {
      ghost var nextId := SaleOrder(nextSaleOrderId);
      if fault.CreateFails? {
        RecordIf(fault.recorded, key, error, now);
        trace := [(CreateRaises(call), now), (EndOfFailure(call, error, fault.recorded), now)];
        CellRunTwo(c, trace[0], trace[1], nextId);
        assert CellRun(c, trace, nextId).calls == map[];
        return fault.Raised(error), trace;
      }
      var id := CreateSaleOrder(key);
      if fault.CreateRaisesAfterwards? {
        RecordIf(fault.recorded, key, error, now);
        trace := [(Create(call, true), now), (EndOfFailure(call, error, fault.recorded), now)];
        CellRunTwo(c, trace[0], trace[1], nextId);
        assert CellRun(c, trace, nextId).calls == map[];
        return fault.Raised(error), trace;
      }
      result, trace := PhaseC(key, call, id, now, fault, CellStep(c, (Create(call, false), now), nextId));
      CellRunFirst(c, (Create(call, false), now), trace, nextId);
      trace := [(Create(call, false), now)] + trace;
    }

    /** Phase C, which may die or raise before or after its commit. */
    method PhaseC(key: Key, call: CallId, id: SaleOrder, now: int, fault: Fault, ghost c: Cell)
      returns (result: SyncResult, ghost trace: seq<(Action, int)>)
      requires InCall(key, c, call) && c.calls[call].phase == Created(id)
      modifies this`mappings
      ensures forall freshId :: View(key) == CellRun(c, trace, freshId)
      ensures forall k :: k != key ==> View(k) == old(View(k))
      ensures result == if fault.EndsInPhaseC? then NoResult else Synced(id)
      ensures key in mappings
      ensures old(mappings[key].status) == Syncing ==>
                if fault.EndsInPhaseC? && !fault.committed then mappings[key] == old(mappings[key])
                else NamesOne(mappings[key], {id}, old(mappings[key].retryCount), now)
    {
      var done := !fault.EndsInPhaseC? || fault.committed;
      if done {
        RecordOrder(key, id, now);
      }
      ghost var last := (if done then RecordSuccess(call) else Crash(call), now);
      trace := [last];
      assert forall freshId :: CellStep(c, last, freshId).calls == map[];
      forall freshId
        ensures CellRun(c, trace, freshId) == CellStep(c, last, freshId)
      {
        CellRunOne(c, last, freshId);
      }
      result := if fault.EndsInPhaseC? then NoResult else Synced(id);
    }

    /** `check_order_exists` raised. */
    method CheckRaised(key: Key, call: CallId, claimTime: int, recordTime: int, recorded: bool, error: string, ghost c: Cell)
      returns (ghost trace: seq<(Action, int)>)
      requires InCall(key, c, call) && c.calls[call].phase == Claimed
      modifies this`mappings
      ensures View(key) == CellRun(c, trace, SaleOrder(nextSaleOrderId))
      ensures forall k :: k != key ==> View(k) == old(View(k))
      ensures key in mappings && OrdersOf(key) == old(OrdersOf(key))
      ensures old(mappings[key].status) == Syncing ==>
                if recorded then FailedWith(mappings[key], error, old(mappings[key].retryCount) + 1, recordTime)
                else mappings[key] == old(mappings[key])
    {
      ghost var nextId := SaleOrder(nextSaleOrderId);
      RecordIf(recorded, key, error, recordTime);
      trace := [(CheckRaises(call), claimTime), (EndOfFailure(call, error, recorded), recordTime)];
      CellRunTwo(c, trace[0], trace[1], nextId);
      assert CellRun(c, trace, nextId).calls == map[];
    }

    /** Phases B and C of a call whose claim has been committed. */
    method AfterClaim(key: Key, call: CallId, claimTime: int, recordTime: int, fault: Fault, error: string, ghost c: Cell)
      returns (result: SyncResult, ghost trace: seq<(Action, int)>)
      requires Valid() && InCall(key, c, call) && c.calls[call].phase == Claimed
      modifies this
      ensures Valid()
      ensures View(key) == CellRun(c, trace, SaleOrder(old(nextSaleOrderId)))
      ensures forall k :: k != key ==> View(k) == old(View(k))
      ensures ReturnsAfterClaim(c, fault, error, SaleOrder(old(nextSaleOrderId)), result)
      ensures key in mappings
      ensures old(mappings[key].status) == Syncing ==>
                Outcome(old(mappings[key]), old(OrdersOf(key)), SaleOrder(old(nextSaleOrderId)), fault, error, recordTime,
                        mappings[key], OrdersOf(key))
    {
      ghost var nextId := SaleOrder(nextSaleOrderId);
      if fault.DiesAfterClaim? {
        trace := [(Crash(call), claimTime)];
        CellRunOne(c, trace[0], nextId);
        assert CellStep(c, trace[0], nextId).calls == map[];
        return NoResult, trace;
      }
      if fault.CheckFails? {
        trace := CheckRaised(key, call, claimTime, recordTime, fault.recorded, error, c);
        return fault.Raised(error), trace;
      }
      ghost var first: (Action, int);
      ghost var rest: seq<(Action, int)>;
      var existing := CheckOrderExists(key);
      first := (if existing.Some? then CheckFinds(call, existing.value) else CheckFindsNone(call), claimTime);
      if fault.DiesAfterCheck? {
        rest := [(Crash(call), claimTime)];
        CellRunOne(CellStep(c, first, nextId), rest[0], nextId);
        assert CellStep(CellStep(c, first, nextId), rest[0], nextId).calls == map[];
        result := NoResult;
      } else if existing.Some? {
        result, rest := SettleExisting(key, call, existing.value, recordTime, fault, error, CellStep(c, first, nextId));
      } else {
        result, rest := CreateAndRecord(key, call, recordTime, fault, error, CellStep(c, first, nextId));
      }
      trace := [first] + rest;
      CellRunFirst(c, first, rest, nextId);
    }

    /**
     One call, claiming at `claimTime` and writing its outcome at `recordTime`. `trace` lists the
     protocol actions it takes.
     */
    method Sync(key: Key, call: CallId, claimTime: int, recordTime: int, fault: Fault, error: string)
      returns (result: SyncResult, ghost trace: seq<(Action, int)>)
      requires Valid()
      modifies this
      ensures Valid()
      ensures View(key) == CellRun(old(View(key)), trace, SaleOrder(old(nextSaleOrderId)))
      ensures forall k :: k != key ==> View(k) == old(View(k))
      ensures Returns(old(View(key)), claimTime, fault, error, SaleOrder(old(nextSaleOrderId)), result)
      ensures TurnsAway(old(View(key)).row, claimTime) ==>
                && mappings == old(mappings) && saleOrders == old(saleOrders)
                && result == if old(View(key)).row.value.status == Success then SkippedDuplicate else SkippedInFlight
      ensures !TurnsAway(old(View(key)).row, claimTime) ==>
                && key in mappings
                && Outcome(FreshlyClaimed(old(View(key)).row, claimTime), old(OrdersOf(key)), SaleOrder(old(nextSaleOrderId)),
                           fault, error, recordTime, mappings[key], OrdersOf(key))
    {
      ghost var nextId, c := SaleOrder(nextSaleOrderId), View(key);
      ghost var start := (Start(call), claimTime);
      var outcome := ClaimPhase(key, claimTime);
      CellRunOne(c, start, nextId);
      if outcome.Duplicate? {
        return SkippedDuplicate, [start];
      } else if outcome.InFlight? {
        return SkippedInFlight, [start];
      }
      ghost var claimed := CellStep(c, start, nextId);
      assert claimed.calls == map[call := Call(Claimed, claimTime)];
      ghost var rest: seq<(Action, int)>;
      result, rest := AfterClaim(key, call, claimTime, recordTime, fault, error, claimed);
      trace := [start] + rest;
      CellRunFirst(c, start, rest, nextId);
    }
  }
}
