/**
 The claim protocol by which any number of interleaved `sync` calls, each of which may crash or
 raise at any point, create a sale order in Odoo for a platform order.

 Every database transaction and every Odoo request is one atomic step. All the data about one
 platform order (its order_mapping row, the sale orders Odoo holds for it and the `sync` calls
 working on it) forms a `Cell`; the cells share only the clock and Odoo's id counter.
 */
module OrderProtocol {
  import opened Common

  /** `_SYNCING_STALE_AFTER`, in seconds. */
  const SYNCING_STALE_AFTER := 300

  /** A platform and its order id, the unique key of order_mapping. */
  datatype Key = Key(platform: string, platformOrderId: string)

  datatype CallId = CallId(n: nat)

  /** The id of a sale order in Odoo. */
  datatype SaleOrder = SaleOrder(id: int)

  datatype Status = Pending | Syncing | Success | Failed | DeadLetter

  /** A row of order_mapping. */
  datatype Row = Row(
    status: Status,
    odooOrderId: Option<SaleOrder>,
    retryCount: int,
    updatedAt: int,
    lastError: Option<string>)

  // ------------------------------------------------------------------------------------------
  // What one transaction does to the row
  // ------------------------------------------------------------------------------------------

  datatype ClaimOutcome = Duplicate | InFlight | Claim(row: Row)

  /** A row that another call holds: marked `syncing` less than five minutes ago. */
  predicate FreshClaim(row: Row, now: int) {
    row.status == Syncing && now - row.updatedAt < SYNCING_STALE_AFTER
  }

  /** Phase A: skip, insert, or take over the row. */
  function ClaimRow(existing: Option<Row>, now: int): ClaimOutcome {
    match existing
    case None => Claim(Row(Syncing, None, 0, now, None))
    case Some(row) =>
      if row.status == Success then Duplicate
      else if FreshClaim(row, now) then InFlight
      else Claim(row.(status := Syncing, retryCount := row.retryCount + 1, updatedAt := now))
  }

  /** Writes to a row stamp `updated_at`, unless no column changes. */
  function Stamped(old_: Row, new_: Row, now: int): Row {
    if old_ == new_ then old_ else new_.(updatedAt := now)
  }

  /** Phase C, and the write after `check_order_exists` found the order. */
  function SucceedRow(row: Row, odooId: SaleOrder, now: int): Row {
    Stamped(row, row.(status := Success, odooOrderId := Some(odooId), lastError := None), now)
  }

  /** The `except` branch of phase B. */
  function FailRow(row: Row, error: string, now: int): Row {
    Stamped(row, row.(status := Failed, retryCount := row.retryCount + 1, lastError := Some(error)), now)
  }

  /** `retry_order` of the admin UI. */
  function RetryRow(row: Row, now: int): Row {
    Stamped(row, row.(status := Pending, retryCount := 0, lastError := None), now)
  }

  /** The order worker's write after a product was not found. */
  function DeadLetterRow(row: Row, error: string, now: int): Row {
    Stamped(row, row.(status := DeadLetter, lastError := Some(error)), now)
  }

  /** Phase A, said case by case: who is turned away, and what a claim leaves as it was. */
  lemma ClaimExactly(existing: Option<Row>, now: int)
    ensures var outcome := ClaimRow(existing, now);
            && (outcome == Duplicate <==> existing.Some? && existing.value.status == Success)
            && (outcome == InFlight <==>
                  existing.Some? && existing.value.status == Syncing && existing.value.updatedAt > now - 300)
            && (outcome.Claim? ==>
                  var row := outcome.row;
                  && row.status == Syncing && row.updatedAt == now
                  && row.retryCount == (if existing.Some? then existing.value.retryCount + 1 else 0)
                  && row.odooOrderId == (if existing.Some? then existing.value.odooOrderId else None)
                  && row.lastError == (if existing.Some? then existing.value.lastError else None))
  {
  }

  /** The writes of the admin UI and of the order worker; a write that changes no column does not touch `updated_at`. */
  lemma UnlockedWritesAre(row: Row, error: string, now: int)
    ensures var retried := RetryRow(row, now);
            && retried.status == Pending && retried.retryCount == 0 && retried.lastError.None?
            && retried.odooOrderId == row.odooOrderId && retried.updatedAt == if retried == row then row.updatedAt else now
    ensures var dead := DeadLetterRow(row, error, now);
            && dead.status == DeadLetter && dead.lastError == Some(error) && dead.retryCount == row.retryCount
            && dead.odooOrderId == row.odooOrderId && dead.updatedAt == if dead == row then row.updatedAt else now
  {
  }

  // ------------------------------------------------------------------------------------------
  // Interleavings
  // ------------------------------------------------------------------------------------------

  /** Where a `sync` call that holds a claim stands. */
  datatype Phase =
    | Claimed                // phase A committed, Odoo not asked yet
    | NoOrderSeen            // check_order_exists returned None
    | OrderSeen(odooId: SaleOrder) // check_order_exists returned an id
    | Raised                 // phase B raised, failure not recorded yet
    | Created(createdId: SaleOrder) // create_sale_order returned, phase C not run yet

  datatype Call = Call(phase: Phase, claimedAt: int)

  datatype Cell = Cell(row: Option<Row>, orders: set<SaleOrder>, calls: map<CallId, Call>)

  const EMPTY_CELL := Cell(None, {}, map[])

  datatype Action =
    | Start(call: CallId)
    | CheckFindsNone(call: CallId)
    | CheckFinds(call: CallId, odooId: SaleOrder)
    | CheckRaises(call: CallId)
    | RecordExists(call: CallId)
    | RecordExistsRaises(call: CallId, committed: bool)
    | Create(call: CallId, raises: bool) // `raises`: Odoo stored the order, then the call raised
    | CreateRaises(call: CallId)         // Odoo stored nothing
    | RecordFailure(call: CallId, error: string)
    | RecordSuccess(call: CallId)
    | Crash(call: CallId)
    | RetryOrder
    | MarkDeadLetter(error: string)

  /** Whether the action can happen next in this cell. */
  predicate Enabled(c: Cell, a: Action, now: int) {
    match a
    case Start(i) => i !in c.calls
    case CheckFindsNone(i) => i in c.calls && c.calls[i].phase == Claimed && c.orders == {}
    case CheckFinds(i, id) => i in c.calls && c.calls[i].phase == Claimed && id in c.orders
    case CheckRaises(i) => i in c.calls && c.calls[i].phase == Claimed
    case RecordExists(i) => i in c.calls && c.calls[i].phase.OrderSeen? && c.row.Some?
    case RecordExistsRaises(i, _) => i in c.calls && c.calls[i].phase.OrderSeen? && c.row.Some?
    case Create(i, _) => i in c.calls && c.calls[i].phase == NoOrderSeen
    case CreateRaises(i) => i in c.calls && c.calls[i].phase == NoOrderSeen
    case RecordFailure(i, _) => i in c.calls && c.calls[i].phase == Raised && c.row.Some?
    case RecordSuccess(i) => i in c.calls && c.calls[i].phase.Created? && c.row.Some?
    case Crash(i) => i in c.calls
    case RetryOrder => c.row.Some? && c.row.value.status in {Failed, DeadLetter}
    case MarkDeadLetter(_) => c.row.Some?
  }

  function Goto(c: Cell, i: CallId, phase: Phase): Cell
    requires i in c.calls
  {
    c.(calls := c.calls[i := c.calls[i].(phase := phase)])
  }

  function End(c: Cell, i: CallId): Cell {
    c.(calls := Without(c.calls, i))
  }

  /** The effect of an action; `freshId` is the id Odoo gives to the next sale order. */
  function Apply(c: Cell, a: Action, now: int, freshId: SaleOrder): Cell
    requires Enabled(c, a, now)
  {
    match a
    case Start(i) =>
      (match ClaimRow(c.row, now)
       case Claim(row) => c.(row := Some(row), calls := c.calls[i := Call(Claimed, now)])
       case _ => c)
    case CheckFindsNone(i) => Goto(c, i, NoOrderSeen)
    case CheckFinds(i, id) => Goto(c, i, OrderSeen(id))
    case CheckRaises(i) => Goto(c, i, Raised)
    case RecordExists(i) => End(c.(row := Some(SucceedRow(c.row.value, c.calls[i].phase.odooId, now))), i)
    case RecordExistsRaises(i, committed) =>
      var written := SucceedRow(c.row.value, c.calls[i].phase.odooId, now);
      Goto(c.(row := Some(if committed then written else c.row.value)), i, Raised)
    case Create(i, raises) =>
      Goto(c.(orders := c.orders + {freshId}), i, if raises then Raised else Created(freshId))
    case CreateRaises(i) => Goto(c, i, Raised)
    case RecordFailure(i, error) => End(c.(row := Some(FailRow(c.row.value, error, now))), i)
    case RecordSuccess(i) => End(c.(row := Some(SucceedRow(c.row.value, c.calls[i].phase.createdId, now))), i)
    case Crash(i) => End(c, i)
    case RetryOrder => c.(row := Some(RetryRow(c.row.value, now)))
    case MarkDeadLetter(error) => c.(row := Some(DeadLetterRow(c.row.value, error, now)))
  }

  /**
   The assumptions about the outside. Phase B ends or dies within five minutes of its claim: what it
   still does to the world after `check_order_exists` (the Odoo create, the failure record) happens
   before the claim turns stale. The order worker's dead-letter write, which takes no lock, does not
   hit a row that a live claim holds.
   */
  predicate Timely(c: Cell, a: Action, now: int)
    requires Enabled(c, a, now)
  {
    match a
    case Create(i, _) => now - c.calls[i].claimedAt < SYNCING_STALE_AFTER
    case RecordFailure(i, _) => now - c.calls[i].claimedAt < SYNCING_STALE_AFTER
    case MarkDeadLetter(_) => !FreshClaim(c.row.value, now)
    case _ => true
  }

  datatype State = State(now: int, nextId: int, cells: map<Key, Cell>)

  datatype Event = Tick(seconds: nat) | Act(key: Key, action: Action)

  function CellOf(s: State, key: Key): Cell {
    if key in s.cells then s.cells[key] else EMPTY_CELL
  }

  predicate EventEnabled(s: State, e: Event) {
    e.Act? ==> Enabled(CellOf(s, e.key), e.action, s.now)
  }

  /** One event; an event that cannot happen leaves the state as it is. */
  function Step(s: State, e: Event): State {
    if !EventEnabled(s, e) then s else
    match e
    case Tick(seconds) => s.(now := s.now + seconds)
    case Act(key, a) =>
      s.(cells := s.cells[key := Apply(CellOf(s, key), a, s.now, SaleOrder(s.nextId))],
         nextId := if a.Create? then s.nextId + 1 else s.nextId)
  }

  function Run(s: State, events: seq<Event>): State
    decreases |events|
  {
    if events == [] then s else Run(Step(s, events[0]), events[1..])
  }

  predicate TimelyEvent(s: State, e: Event) {
    e.Act? && EventEnabled(s, e) ==> Timely(CellOf(s, e.key), e.action, s.now)
  }

  /** Every event of the run that happens meets the assumptions. */
  predicate TimelyRun(s: State, events: seq<Event>)
    decreases |events|
  {
    events == [] || (TimelyEvent(s, events[0]) && TimelyRun(Step(s, events[0]), events[1..]))
  }

  function Init(now: int): State { State(now, 1, map[]) }

  // ------------------------------------------------------------------------------------------
  // Invariant
  // ------------------------------------------------------------------------------------------

  /** A call whose phase B has not ended and whose claim is not stale. */
  predicate Active(call: Call, now: int) {
    !call.phase.Created? && now - call.claimedAt < SYNCING_STALE_AFTER
  }

  predicate CallInv(c: Cell, call: Call, now: int) {
    && call.claimedAt <= now
    && (call.phase.OrderSeen? ==> call.phase.odooId in c.orders)
    && (call.phase.Created? ==> call.phase.createdId in c.orders)
    && (Active(call, now) && call.phase == NoOrderSeen ==> c.orders == {})
    && (Active(call, now) && c.orders == {} ==>
          c.row.Some? && c.row.value.status == Syncing && c.row.value.updatedAt == call.claimedAt)
  }

  predicate SuccessNamesOrder(c: Cell) {
    c.row.Some? && c.row.value.status == Success ==>
      c.row.value.odooOrderId.Some? && c.orders == {c.row.value.odooOrderId.value}
  }

  ghost predicate CellInv(c: Cell, now: int) {
    && (forall x, y :: x in c.orders && y in c.orders ==> x == y)
    && SuccessNamesOrder(c)
    && (c.row.Some? ==> c.row.value.updatedAt <= now)
    && (forall i :: i in c.calls ==> CallInv(c, c.calls[i], now))
    && (c.orders == {} ==>
          forall i, j :: i in c.calls && j in c.calls && Active(c.calls[i], now) && Active(c.calls[j], now) ==> i == j)
  }

  lemma TickKeepsCell(c: Cell, now: int, later: int)
    requires CellInv(c, now) && now <= later
    ensures CellInv(c, later)
  {
    assert forall i :: i in c.calls ==> (Active(c.calls[i], later) ==> Active(c.calls[i], now));
  }

  /** The creating call is the only active one, so no other has seen that there is no order. */
  lemma CreateKeepsCell(c: Cell, i: CallId, raises: bool, now: int, freshId: SaleOrder)
    requires CellInv(c, now) && Enabled(c, Create(i, raises), now) && Timely(c, Create(i, raises), now)
    ensures CellInv(Apply(c, Create(i, raises), now, freshId), now)
  {
    var c' := Apply(c, Create(i, raises), now, freshId);
    assert CallInv(c, c.calls[i], now) && Active(c.calls[i], now);
    assert c'.orders == {freshId};
    assert forall j :: j in c.calls && j != i ==> CallInv(c, c.calls[j], now) && !Active(c.calls[j], now);
    assert forall j :: j in c'.calls && j != i ==> c'.calls[j] == c.calls[j];
  }

  lemma StartKeepsCell(c: Cell, i: CallId, now: int, freshId: SaleOrder)
    requires CellInv(c, now) && Enabled(c, Start(i), now)
    ensures CellInv(Apply(c, Start(i), now, freshId), now)
  {
  }

  lemma ActionKeepsCell(c: Cell, a: Action, now: int, freshId: SaleOrder)
    requires CellInv(c, now) && Enabled(c, a, now) && Timely(c, a, now)
    ensures CellInv(Apply(c, a, now, freshId), now)
  {
    match a
    case Create(i, raises) => CreateKeepsCell(c, i, raises, now, freshId);
    case Start(i) => StartKeepsCell(c, i, now, freshId);
    case _ =>
  }

  ghost predicate Inv(s: State) {
    && (forall k :: k in s.cells ==> CellInv(s.cells[k], s.now))
    && (forall k, id :: k in s.cells && id in s.cells[k].orders ==> id.id < s.nextId)
    && (forall k, l :: k in s.cells && l in s.cells && k != l ==> s.cells[k].orders !! s.cells[l].orders)
  }

  lemma ActionKeepsIds(s: State, key: Key, a: Action)
    requires Inv(s) && EventEnabled(s, Act(key, a))
    ensures var s' := Step(s, Act(key, a));
            && (forall k, id :: k in s'.cells && id in s'.cells[k].orders ==> id.id < s'.nextId)
            && (forall k, l :: k in s'.cells && l in s'.cells && k != l ==> s'.cells[k].orders !! s'.cells[l].orders)
  {
    var c := CellOf(s, key);
    var c' := Apply(c, a, s.now, SaleOrder(s.nextId));
    assert c'.orders == if a.Create? then c.orders + {SaleOrder(s.nextId)} else c.orders;
    assert key in s.cells ==> c == s.cells[key];
  }

  lemma StepKeepsInv(s: State, e: Event)
    requires Inv(s) && TimelyEvent(s, e)
    ensures Inv(Step(s, e))
  {
    match e
    case Tick(seconds) =>
      forall k | k in s.cells ensures CellInv(s.cells[k], s.now + seconds) {
        TickKeepsCell(s.cells[k], s.now, s.now + seconds);
      }
    case Act(key, a) =>
      if EventEnabled(s, e) {
        ActionKeepsCell(CellOf(s, key), a, s.now, SaleOrder(s.nextId));
        ActionKeepsIds(s, key, a);
      }
  }

  lemma {:induction false} RunKeepsInv(s: State, events: seq<Event>)
    requires Inv(s) && TimelyRun(s, events)
    ensures Inv(Run(s, events))
    decreases |events|
  {
    if events != [] {
      StepKeepsInv(s, events[0]);
      RunKeepsInv(Step(s, events[0]), events[1..]);
    }
  }

  // ------------------------------------------------------------------------------------------
  // Main results
  // ------------------------------------------------------------------------------------------

  /**
   However many `sync` calls interleave, and wherever they crash or raise, Odoo never holds two sale
   orders for one platform order, no sale order serves two platform orders, and a `success` row names
   the sale order that Odoo holds.
   */
  lemma AtMostOneSaleOrder(start: int, events: seq<Event>, key: Key, other: Key)
    requires TimelyRun(Init(start), events)
    ensures var s := Run(Init(start), events);
            && |CellOf(s, key).orders| <= 1
            && SuccessNamesOrder(CellOf(s, key))
            && (key != other ==> CellOf(s, key).orders !! CellOf(s, other).orders)
  {
    RunKeepsInv(Init(start), events);
    var s := Run(Init(start), events);
    AtMostOneElement(CellOf(s, key).orders);
  }

  /** Odoo never loses an order, so the order a row was once said to have is the one it keeps. */
  lemma {:induction false} OrdersPersist(s: State, events: seq<Event>, key: Key)
    ensures CellOf(s, key).orders <= CellOf(Run(s, events), key).orders
    decreases |events|
  {
    if events != [] {
      OrdersPersist(Step(s, events[0]), events[1..], key);
    }
  }

  lemma {:induction false} RunAppend(s: State, before: seq<Event>, after: seq<Event>)
    ensures Run(s, before + after) == Run(Run(s, before), after)
    ensures TimelyRun(s, before + after) <==> TimelyRun(s, before) && TimelyRun(Run(s, before), after)
    decreases |before|
  {
    if before == [] {
      assert before + after == after;
    } else {
      assert (before + after)[0] == before[0] && (before + after)[1..] == before[1..] + after;
      RunAppend(Step(s, before[0]), before[1..], after);
    }
  }

  /** Two `success` rows seen for one key at different moments of a run name the same sale order. */
  lemma NameIsStable(start: int, before: seq<Event>, after: seq<Event>, key: Key)
    requires TimelyRun(Init(start), before + after)
    ensures var r := CellOf(Run(Init(start), before), key).row;
            var r' := CellOf(Run(Init(start), before + after), key).row;
            (r.Some? && r.value.status == Success && r'.Some? && r'.value.status == Success) ==>
              r.value.odooOrderId == r'.value.odooOrderId
  {
    RunAppend(Init(start), before, after);
    RunKeepsInv(Init(start), before);
    RunKeepsInv(Init(start), before + after);
    OrdersPersist(Run(Init(start), before), after, key);
  }

  /** One action at its clock reading; one that cannot happen does nothing. */
  function CellStep(c: Cell, timed: (Action, int), freshId: SaleOrder): Cell {
    if Enabled(c, timed.0, timed.1) then Apply(c, timed.0, timed.1, freshId) else c
  }

  function CellRun(c: Cell, actions: seq<(Action, int)>, freshId: SaleOrder): Cell
    decreases |actions|
  {
    if actions == [] then c else CellRun(CellStep(c, actions[0], freshId), actions[1..], freshId)
  }

  lemma {:induction false} CellRunExtend(c: Cell, actions: seq<(Action, int)>, last: (Action, int), freshId: SaleOrder)
    ensures CellRun(c, actions + [last], freshId) == CellStep(CellRun(c, actions, freshId), last, freshId)
    decreases |actions|
  {
    if actions == [] {
      assert actions + [last] == [last] && [last][1..] == [];
    } else {
      assert (actions + [last])[1..] == actions[1..] + [last];
      CellRunExtend(CellStep(c, actions[0], freshId), actions[1..], last, freshId);
    }
  }

  /** A `sync` call that nothing disturbs; `id` is the sale order Odoo answers with if it has one. */
  function QuietCall(c: Cell, i: CallId, id: SaleOrder, now: int): seq<(Action, int)> {
    if c.orders == {} then
      [(Start(i), now), (CheckFindsNone(i), now), (Create(i, false), now), (RecordSuccess(i), now)]
    else
      [(Start(i), now), (CheckFinds(i, id), now), (RecordExists(i), now)]
  }

  lemma QuietCreation(c: Cell, i: CallId, now: int, freshId: SaleOrder)
    requires CellInv(c, now) && i !in c.calls && c.orders == {}
    ensures var later := now + SYNCING_STALE_AFTER;
            var c1 := CellStep(c, (Start(i), later), freshId);
            var c2 := CellStep(c1, (CheckFindsNone(i), later), freshId);
            var c3 := CellStep(c2, (Create(i, false), later), freshId);
            var c4 := CellStep(c3, (RecordSuccess(i), later), freshId);
            c4.orders == {freshId} && c4.row.Some? && c4.row.value.status == Success && SuccessNamesOrder(c4)
  {
  }

  lemma QuietRecovery(c: Cell, i: CallId, id: SaleOrder, now: int, freshId: SaleOrder)
    requires CellInv(c, now) && i !in c.calls && id in c.orders
    ensures var later := now + SYNCING_STALE_AFTER;
            var c1 := CellStep(c, (Start(i), later), freshId);
            var c2 := CellStep(c1, (CheckFinds(i, id), later), freshId);
            var c3 := CellStep(c2, (RecordExists(i), later), freshId);
            c3.orders == {id} && c3.row.Some? && c3.row.value.status == Success && SuccessNamesOrder(c3)
  {
    assert c.orders == {id};
  }

  lemma QuietCallOnCell(c: Cell, i: CallId, id: SaleOrder, now: int, freshId: SaleOrder)
    requires CellInv(c, now) && i !in c.calls && (c.orders != {} ==> id in c.orders)
    ensures var c' := CellRun(c, QuietCall(c, i, id, now + SYNCING_STALE_AFTER), freshId);
            && c'.orders == (if c.orders == {} then {freshId} else {id})
            && c'.row.Some? && c'.row.value.status == Success && SuccessNamesOrder(c')
  {
    var acts := QuietCall(c, i, id, now + SYNCING_STALE_AFTER);
    CellRunExtend(c, [], acts[0], freshId);
    CellRunExtend(c, [acts[0]], acts[1], freshId);
    CellRunExtend(c, [acts[0], acts[1]], acts[2], freshId);
    assert acts[..3] == [acts[0], acts[1], acts[2]];
    if c.orders == {} {
      CellRunExtend(c, acts[..3], acts[3], freshId);
      assert acts == acts[..3] + [acts[3]];
      QuietCreation(c, i, now, freshId);
    } else {
      assert acts == acts[..3];
      QuietRecovery(c, i, id, now, freshId);
    }
  }

  /**
   Recovery: whatever a run left behind (crashed holders, unrecorded creates, failures), five minutes
   later one `sync` call that runs undisturbed ends with a `success` row naming the single sale order,
   and it creates one only if Odoo holds none.
   */
  lemma QuietCallSettles(start: int, events: seq<Event>, key: Key, i: CallId, id: SaleOrder)
    requires TimelyRun(Init(start), events)
    requires var c := CellOf(Run(Init(start), events), key);
             i !in c.calls && (c.orders != {} ==> id in c.orders)
    ensures var s := Run(Init(start), events);
            var c := CellOf(s, key);
            var c' := CellRun(c, QuietCall(c, i, id, s.now + SYNCING_STALE_AFTER), SaleOrder(s.nextId));
            && c'.orders == (if c.orders == {} then {SaleOrder(s.nextId)} else {id})
            && c'.row.Some? && c'.row.value.status == Success && SuccessNamesOrder(c')
  {
    RunKeepsInv(Init(start), events);
    var s := Run(Init(start), events);
    QuietCallOnCell(CellOf(s, key), i, id, s.now, SaleOrder(s.nextId));
  }

  // ------------------------------------------------------------------------------------------
  // The assumptions are needed
  // ------------------------------------------------------------------------------------------

  /** A call has been told that no order exists, but its row no longer keeps other calls out. */
  predicate Unprotected(c: Cell, i: CallId, now: int) {
    && i in c.calls && c.calls[i].phase == NoOrderSeen && c.orders == {}
    && (c.row.Some? ==> c.row.value.status != Success && !FreshClaim(c.row.value, now))
  }

  function Overtaking(key: Key, i: CallId, j: CallId): seq<Event> {
    [Act(key, Start(j)), Act(key, CheckFindsNone(j)), Act(key, Create(j, false)), Act(key, Create(i, false))]
  }

  lemma RunOne(s: State, e: Event)
    ensures Run(s, [e]) == Step(s, e)
    ensures TimelyRun(s, [e]) <==> TimelyEvent(s, e)
  {
    assert [e][1..] == [];
    assert Run(Step(s, e), []) == Step(s, e) && TimelyRun(Step(s, e), []);
  }

  lemma RunThree(s: State, a: Event, b: Event, c: Event)
    ensures var s1 := Step(s, a);
            var s2 := Step(s1, b);
            && Run(s, [a, b, c]) == Step(s2, c)
            && (TimelyRun(s, [a, b, c]) <==> TimelyEvent(s, a) && TimelyEvent(s1, b) && TimelyEvent(s2, c))
  {
    var s1 := Step(s, a);
    assert [a, b, c] == [a] + [b, c] && [b, c] == [b] + [c];
    RunAppend(s, [a], [b, c]);
    RunAppend(s1, [b], [c]);
    RunOne(s, a);
    RunOne(s1, b);
    RunOne(Step(s1, b), c);
  }

  lemma SecondCallCreates(s: State, key: Key, i: CallId, j: CallId)
    requires Unprotected(CellOf(s, key), i, s.now) && j !in CellOf(s, key).calls
    ensures var e := Overtaking(key, i, j);
            var t := Step(Step(Step(s, e[0]), e[1]), e[2]);
            && t.nextId == s.nextId + 1 && CellOf(t, key).orders == {SaleOrder(s.nextId)}
            && i in CellOf(t, key).calls && CellOf(t, key).calls[i].phase == NoOrderSeen
  {
    var e := Overtaking(key, i, j);
    var s1 := Step(s, e[0]);
    assert CellOf(s1, key).calls[j] == Call(Claimed, s.now) && CellOf(s1, key).calls[i] == CellOf(s, key).calls[i];
    var s2 := Step(s1, e[1]);
    assert CellOf(s2, key).calls[j].phase == NoOrderSeen && CellOf(s2, key).calls[i] == CellOf(s, key).calls[i];
  }

  /** From any such state, one more call is enough to make Odoo hold two orders. */
  lemma UnprotectedClaimDuplicates(s: State, key: Key, i: CallId, j: CallId)
    requires Unprotected(CellOf(s, key), i, s.now) && j !in CellOf(s, key).calls
    ensures CellOf(Run(s, Overtaking(key, i, j)), key).orders == {SaleOrder(s.nextId), SaleOrder(s.nextId + 1)}
  {
    var e := Overtaking(key, i, j);
    RunAppend(s, e[..3], [e[3]]);
    assert e == e[..3] + [e[3]] && e[..3] == [e[0], e[1], e[2]];
    RunThree(s, e[0], e[1], e[2]);
    SecondCallCreates(s, key, i, j);
    RunOne(Run(s, e[..3]), e[3]);
  }

  /**
   What ends the protection of an active call that was told that no order exists: exactly the lock-free
   dead-letter write and a late failure record, both excluded by Timely.
   */
  lemma ProtectionEndsExactly(c: Cell, i: CallId, a: Action, now: int, freshId: SaleOrder)
    requires CellInv(c, now) && i in c.calls && c.calls[i].phase == NoOrderSeen && Active(c.calls[i], now)
    requires Enabled(c, a, now)
    ensures Unprotected(Apply(c, a, now, freshId), i, now) <==> a.MarkDeadLetter? || a.RecordFailure?
    ensures a.MarkDeadLetter? || a.RecordFailure? ==> !Timely(c, a, now)
  {
    assert CallInv(c, c.calls[i], now) && FreshClaim(c.row.value, now);
    if a.RecordFailure? {
      assert CallInv(c, c.calls[a.call], now);
    }
  }

  /** And with the passing of time it ends exactly when the claim is five minutes old. */
  lemma ProtectionTimesOut(c: Cell, i: CallId, now: int, later: int)
    requires CellInv(c, now) && i in c.calls && c.calls[i].phase == NoOrderSeen && Active(c.calls[i], now)
    requires now <= later
    ensures Unprotected(c, i, later) <==> later >= c.calls[i].claimedAt + SYNCING_STALE_AFTER
  {
    assert CallInv(c, c.calls[i], now);
  }

  /** A late create of another call, which leaves the protection as it is, makes two orders at once. */
  lemma LateCreateDuplicates(c: Cell, i: CallId, k: CallId, raises: bool, now: int, first: SaleOrder, second: SaleOrder)
    requires CellInv(c, now) && i in c.calls && c.calls[i].phase == NoOrderSeen && Active(c.calls[i], now)
    requires k != i && Enabled(c, Create(k, raises), now) && first != second
    ensures !Timely(c, Create(k, raises), now)
    ensures var c' := Apply(c, Create(k, raises), now, first);
            && Enabled(c', Create(i, false), now) && Timely(c', Create(i, false), now)
            && Apply(c', Create(i, false), now, second).orders == {first, second}
  {
    assert CallInv(c, c.calls[i], now) && CallInv(c, c.calls[k], now);
  }

  const FIRST := CallId(0)

  /** A claim that a timely run leaves open for five minutes becomes unprotected. */
  lemma StalledClaimIsUnprotected(key: Key)
    ensures var stalled := [Act(key, Start(FIRST)), Act(key, CheckFindsNone(FIRST)), Tick(SYNCING_STALE_AFTER)];
            var s := Run(Init(0), stalled);
            TimelyRun(Init(0), stalled) && Unprotected(CellOf(s, key), FIRST, s.now)
  {
    RunThree(Init(0), Act(key, Start(FIRST)), Act(key, CheckFindsNone(FIRST)), Tick(SYNCING_STALE_AFTER));
  }

  const SECOND := CallId(1)

  /** A call raises, stalls for five minutes and is overtaken by another one, which finds no order. */
  function Overtaken(key: Key): seq<Event> {
    [Act(key, Start(FIRST)), Act(key, CheckRaises(FIRST)), Tick(SYNCING_STALE_AFTER)] +
    [Act(key, Start(SECOND)), Act(key, CheckFindsNone(SECOND))]
  }

  lemma OvertakenCell(key: Key)
    ensures TimelyRun(Init(0), Overtaken(key))
    ensures var s := Run(Init(0), Overtaken(key));
            && s.now == SYNCING_STALE_AFTER
            && CellOf(s, key) == Cell(Some(Row(Syncing, None, 1, SYNCING_STALE_AFTER, None)), {},
                 map[FIRST := Call(Raised, 0), SECOND := Call(NoOrderSeen, SYNCING_STALE_AFTER)])
  {
    var stall := [Act(key, Start(FIRST)), Act(key, CheckRaises(FIRST)), Tick(SYNCING_STALE_AFTER)];
    var take := [Act(key, Start(SECOND)), Act(key, CheckFindsNone(SECOND))];
    RunThree(Init(0), stall[0], stall[1], stall[2]);
    var s := Run(Init(0), stall);
    assert CellOf(s, key) == Cell(Some(Row(Syncing, None, 0, 0, None)), {}, map[FIRST := Call(Raised, 0)]);
    RunAppend(Init(0), stall, take);
    assert take == [take[0]] + [take[1]];
    RunAppend(s, [take[0]], [take[1]]);
    RunOne(s, take[0]);
    RunOne(Step(s, take[0]), take[1]);
  }

  /** The overtaken call still has its failure to record, and that ends the protection of the other. */
  lemma LateFailureIsReached(key: Key, error: string)
    ensures var s := Run(Init(0), Overtaken(key));
            var late := Act(key, RecordFailure(FIRST, error));
            && TimelyRun(Init(0), Overtaken(key)) && EventEnabled(s, late)
            && SECOND in CellOf(s, key).calls && Active(CellOf(s, key).calls[SECOND], s.now)
            && Unprotected(CellOf(Step(s, late), key), SECOND, s.now)
  {
    OvertakenCell(key);
  }

  // ------------------------------------------------------------------------------------------
  // When an untimely action leads to two orders
  // ------------------------------------------------------------------------------------------

  predicate TwoOrders(s: State, key: Key) {
    |CellOf(s, key).orders| >= 2
  }

  /** A continuation that meets all the assumptions gives the key two orders. */
  ghost predicate CanDuplicate(s: State, key: Key) {
    exists events :: TimelyRun(s, events) && TwoOrders(Run(s, events), key)
  }

  lemma InvNeverDuplicates(s: State, key: Key)
    requires Inv(s)
    ensures !CanDuplicate(s, key)
  {
    forall events | TimelyRun(s, events)
      ensures !TwoOrders(Run(s, events), key)
    {
      RunKeepsInv(s, events);
      AtMostOneElement(CellOf(Run(s, events), key).orders);
    }
  }

  /** The cell after the action is as good as any other in a timely run, so no harm is done. */
  lemma HarmlessAction(s: State, key: Key, a: Action)
    requires Inv(s) && EventEnabled(s, Act(key, a))
    requires CellInv(Apply(CellOf(s, key), a, s.now, SaleOrder(s.nextId)), s.now)
    ensures !CanDuplicate(Step(s, Act(key, a)), key)
  {
    ActionKeepsIds(s, key, a);
    InvNeverDuplicates(Step(s, Act(key, a)), key);
  }

  ghost predicate HasActive(c: Cell, now: int) {
    exists i :: i in c.calls && Active(c.calls[i], now)
  }

  ghost predicate HasActiveCreator(c: Cell, now: int) {
    exists i :: i in c.calls && c.calls[i].phase == NoOrderSeen && Active(c.calls[i], now)
  }

  /** No order yet, an active call, and a row that keeps nobody out. */
  predicate Exposed(s: State, key: Key, i: CallId) {
    var c := CellOf(s, key);
    && i in c.calls && Active(c.calls[i], s.now) && !c.calls[i].phase.OrderSeen? && c.orders == {}
    && c.row.Some? && c.row.value.status != Success && !FreshClaim(c.row.value, s.now)
  }

  lemma {:induction false} FreshCall(calls: map<CallId, Call>) returns (i: CallId)
    ensures i !in calls
    ensures forall j :: j in calls ==> j.n < i.n
    decreases |calls.Keys|
  {
    i := CallId(0);
    if calls.Keys != {} {
      var j :| j in calls.Keys;
      var rest := Without(calls, j);
      assert rest.Keys == calls.Keys - {j};
      i := FreshCall(rest);
      i := if j.n < i.n then i else CallId(j.n + 1);
      assert forall k :: k in calls ==> k == j || k in rest;
    }
  }

  lemma OvertakingIsTimely(s: State, key: Key, i: CallId, j: CallId)
    requires Unprotected(CellOf(s, key), i, s.now) && Active(CellOf(s, key).calls[i], s.now)
    requires j !in CellOf(s, key).calls
    ensures TimelyRun(s, Overtaking(key, i, j))
  {
    var e := Overtaking(key, i, j);
    assert e == e[..3] + [e[3]] && e[..3] == [e[0], e[1], e[2]];
    RunAppend(s, e[..3], [e[3]]);
    RunThree(s, e[0], e[1], e[2]);
    RunOne(Run(s, e[..3]), e[3]);
    var s1 := Step(s, e[0]);
    assert CellOf(s1, key).calls[j] == Call(Claimed, s.now) && CellOf(s1, key).calls[i] == CellOf(s, key).calls[i];
    var s2 := Step(s1, e[1]);
    assert CellOf(s2, key).calls[j] == Call(NoOrderSeen, s.now) && CellOf(s2, key).calls[i] == CellOf(s, key).calls[i];
  }

  /** A call that is still to create, and another one that overtakes it. */
  lemma UnprotectedCanDuplicate(s: State, key: Key, i: CallId)
    requires Unprotected(CellOf(s, key), i, s.now) && Active(CellOf(s, key).calls[i], s.now)
    ensures CanDuplicate(s, key)
  {
    var j := FreshCall(CellOf(s, key).calls);
    var events := Overtaking(key, i, j);
    UnprotectedClaimDuplicates(s, key, i, j);
    OvertakingIsTimely(s, key, i, j);
    var a, b := SaleOrder(s.nextId), SaleOrder(s.nextId + 1);
    assert |{a, b}| == 2;
    assert TwoOrders(Run(s, events), key);
  }

  lemma PrefixCanDuplicate(s: State, before: seq<Event>, key: Key)
    requires TimelyRun(s, before) && CanDuplicate(Run(s, before), key)
    ensures CanDuplicate(s, key)
  {
    var events :| TimelyRun(Run(s, before), events) && TwoOrders(Run(Run(s, before), events), key);
    RunAppend(s, before, events);
  }

  /** It still has its failure to record, which unprotects a call that claims the row meanwhile. */
  lemma RaisedCanDuplicate(s: State, key: Key, i: CallId)
    requires Exposed(s, key, i) && CellOf(s, key).calls[i].phase == Raised
    ensures CanDuplicate(s, key)
  {
    var j := FreshCall(CellOf(s, key).calls);
    var start, check, fail := Act(key, Start(j)), Act(key, CheckFindsNone(j)), Act(key, RecordFailure(i, ""));
    RunThree(s, start, check, fail);
    var s1 := Step(s, start);
    assert CellOf(s1, key).calls[j] == Call(Claimed, s.now) && CellOf(s1, key).calls[i] == CellOf(s, key).calls[i];
    var s2 := Step(s1, check);
    assert CellOf(s2, key).calls[j] == Call(NoOrderSeen, s.now) && CellOf(s2, key).calls[i] == CellOf(s, key).calls[i];
    var s3 := Step(s2, fail);
    UnprotectedCanDuplicate(s3, key, j);
    PrefixCanDuplicate(s, [start, check, fail], key);
  }

  /** Whatever the exposed call is about to do, a timely continuation ends with two orders. */
  lemma ExposedCanDuplicate(s: State, key: Key, i: CallId)
    requires Exposed(s, key, i)
    ensures CanDuplicate(s, key)
  {
    match CellOf(s, key).calls[i].phase
    case NoOrderSeen => UnprotectedCanDuplicate(s, key, i);
    case Claimed =>
      var check := Act(key, CheckFindsNone(i));
      RunOne(s, check);
      UnprotectedCanDuplicate(Step(s, check), key, i);
      PrefixCanDuplicate(s, [check], key);
    case Raised => RaisedCanDuplicate(s, key, i);
  }

  lemma TwoElements(x: SaleOrder, y: SaleOrder, orders: set<SaleOrder>)
    requires x != y && x in orders && y in orders
    ensures |orders| >= 2
  {
    assert {x, y} <= orders;
    var rest := orders - {x, y};
    assert orders == rest + {x, y} && |{x, y}| == 2;
  }

  lemma LateCreateKeepsCell(c: Cell, k: CallId, raises: bool, now: int, freshId: SaleOrder)
    requires CellInv(c, now) && Enabled(c, Create(k, raises), now) && c.orders == {} && !HasActiveCreator(c, now)
    ensures CellInv(Apply(c, Create(k, raises), now, freshId), now)
  {
    var c' := Apply(c, Create(k, raises), now, freshId);
    forall i | i in c'.calls
      ensures CallInv(c', c'.calls[i], now)
    {
      assert CallInv(c, c.calls[i], now);
    }
  }

  lemma LateCreateExactly(s: State, key: Key, a: Action)
    requires Inv(s) && EventEnabled(s, Act(key, a)) && !Timely(CellOf(s, key), a, s.now) && a.Create?
    ensures var c := CellOf(s, key);
            CanDuplicate(Step(s, Act(key, a)), key) <==> c.orders != {} || HasActiveCreator(c, s.now)
  {
    var c, t := CellOf(s, key), Step(s, Act(key, a));
    if x :| x in c.orders {
      assert x != SaleOrder(s.nextId) && {x, SaleOrder(s.nextId)} <= CellOf(t, key).orders;
      TwoElements(x, SaleOrder(s.nextId), CellOf(t, key).orders);
      assert TimelyRun(t, []) && Run(t, []) == t;
      assert TwoOrders(Run(t, []), key);
    } else if HasActiveCreator(c, s.now) {
      var i :| i in c.calls && c.calls[i].phase == NoOrderSeen && Active(c.calls[i], s.now);
      var create := Act(key, Create(i, false));
      assert CellOf(t, key).calls[i] == c.calls[i];
      RunOne(t, create);
      TwoElements(SaleOrder(s.nextId), SaleOrder(t.nextId), CellOf(Step(t, create), key).orders);
      assert TwoOrders(Run(t, [create]), key);
    } else {
      LateCreateKeepsCell(c, a.call, a.raises, s.now, SaleOrder(s.nextId));
      HarmlessAction(s, key, a);
    }
  }

  lemma UnlockedWriteKeepsCell(c: Cell, a: Action, now: int, freshId: SaleOrder)
    requires CellInv(c, now) && Enabled(c, a, now) && (a.MarkDeadLetter? || a.RecordFailure?)
    requires c.orders != {} || !HasActive(c, now)
    ensures CellInv(Apply(c, a, now, freshId), now)
  {
  }

  lemma UnlockedWriteExactly(s: State, key: Key, a: Action)
    requires Inv(s) && EventEnabled(s, Act(key, a)) && !Timely(CellOf(s, key), a, s.now) && !a.Create?
    ensures var c := CellOf(s, key);
            CanDuplicate(Step(s, Act(key, a)), key) <==> c.orders == {} && HasActive(c, s.now)
  {
    var c := CellOf(s, key);
    if c.orders == {} && HasActive(c, s.now) {
      var i :| i in c.calls && Active(c.calls[i], s.now);
      assert CallInv(c, c.calls[i], s.now);
      ExposedCanDuplicate(Step(s, Act(key, a)), key, i);
    } else {
      UnlockedWriteKeepsCell(c, a, s.now, SaleOrder(s.nextId));
      HarmlessAction(s, key, a);
    }
  }

  /**
   For every state that a timely run can be in and every action that breaks an assumption: exactly when a
   continuation that keeps them all leads to two orders.
   */
  lemma UntimelyDuplicatesExactly(s: State, key: Key, a: Action)
    requires Inv(s) && EventEnabled(s, Act(key, a)) && !Timely(CellOf(s, key), a, s.now)
    ensures var c := CellOf(s, key);
            CanDuplicate(Step(s, Act(key, a)), key) <==>
            if a.Create? then c.orders != {} || HasActiveCreator(c, s.now)
            else c.orders == {} && HasActive(c, s.now)
  {
    if a.Create? {
      LateCreateExactly(s, key, a);
    } else {
      UnlockedWriteExactly(s, key, a);
    }
  }
}
