/**
 Any number of relays, immediate publishers, operators, consumers and cleanup runs working on the
 same outbox, interleaved transaction by transaction, with dispatchers that may crash anywhere.

 All about one row forms a `Cell`: the row itself (`None` once it is pruned), the dispatchers that
 have claimed it and not yet recorded an outcome, and a history of what happened to it.
 */
module OutboxProtocol {
  import opened Common
  import opened OutboxRow

  datatype DispatchId = DispatchId(n: nat)

  /** What `send_task` has done so far; it may raise although the broker got the message. */
  datatype Outcome = Unsent | Accepted | Rejected

  datatype Dispatch = Dispatch(claimedAt: int, outcome: Outcome)

  datatype History = History(
    maxRetries: int,         // of the row, as inserted
    sent: bool,              // the broker got the event at least once
    claims: nat,             // dispatches begun
    crashes: nat,            // dispatches that died before they recorded an outcome
    publishes: nat,          // outcomes recorded as published
    failures: nat,           // outcomes recorded as failed
    rejected: nat,           // sends that raised since the last manual reset
    unrecorded: nat,         // those of them whose dispatcher died before recording
    firstClaim: Option<int>,
    exhaustedAt: Option<int>) // when a recorded failure used up the last retry

  datatype Cell = Cell(row: Option<Row>, live: map<DispatchId, Dispatch>, history: History)

  datatype Action =
    | ClaimPending(d: DispatchId)  // try_publish_immediately
    | ClaimDue(d: DispatchId)      // relay_pending
    | Send(d: DispatchId, raises: bool, delivered: bool)
    | RecordPublished(d: DispatchId)
    | RecordFailure(d: DispatchId, error: string)
    | Crash(d: DispatchId)
    | ManualReset
    | WorkerDeadLetter(error: string)
    | Prune

  predicate Enabled(c: Cell, a: Action, now: int) {
    match a
    case ClaimPending(d) => d !in c.live && c.row.Some? && c.row.value.status == Pending
    case ClaimDue(d) => d !in c.live && c.row.Some? && Due(c.row.value, now)
    case Send(d, raises, delivered) => d in c.live && c.live[d].outcome == Unsent && (raises || delivered)
    case RecordPublished(d) => d in c.live && c.live[d].outcome == Accepted
    case RecordFailure(d, _) =>
      d in c.live && c.live[d].outcome == Rejected && (c.row.Some? ==> c.row.value.retryCount >= 0)
    case Crash(d) => d in c.live
    case ManualReset => c.row.Some?
    case WorkerDeadLetter(_) => c.row.Some? && c.history.sent
    case Prune => c.row.Some? && Prunable(c.row.value, now)
  }

  function ClaimedBy(c: Cell, d: DispatchId, now: int): Cell
    requires c.row.Some?
  {
    var row, h := c.row.value, c.history;
    if Mapped(row) then
      Cell(Some(Prepared(row, now)), c.live[d := Dispatch(now, Unsent)],
           h.(claims := h.claims + 1, firstClaim := if h.firstClaim.None? then Some(now) else h.firstClaim))
    else
      c.(row := Some(Prepared(row, now)))
  }

  function Apply(c: Cell, a: Action, now: int): Cell
    requires Enabled(c, a, now)
  {
    var h := c.history;
    match a
    case ClaimPending(d) => ClaimedBy(c, d, now)
    case ClaimDue(d) => ClaimedBy(c, d, now)
    case Send(d, raises, delivered) =>
      c.(live := c.live[d := c.live[d].(outcome := if raises then Rejected else Accepted)],
         history := h.(sent := h.sent || delivered, rejected := if raises then h.rejected + 1 else h.rejected))
    case RecordPublished(d) =>
      Cell(if c.row.Some? then Some(RecordedPublished(c.row.value, now)) else None,
           Without(c.live, d), h.(publishes := h.publishes + 1))
    case RecordFailure(d, error) =>
      var row := if c.row.Some? then Some(RecordedFailure(c.row.value, error, now)) else None;
      Cell(row, Without(c.live, d),
           h.(failures := h.failures + 1,
              exhaustedAt := if row.Some? && row.value.status == DeadLetter then Some(now) else h.exhaustedAt))
    case Crash(d) =>
      Cell(c.row, Without(c.live, d),
           h.(crashes := h.crashes + 1,
              unrecorded := if c.live[d].outcome == Rejected then h.unrecorded + 1 else h.unrecorded))
    case ManualReset =>
      Cell(Some(Reset(c.row.value, now)), c.live, h.(rejected := 0, unrecorded := 0))
    case WorkerDeadLetter(error) => c.(row := Some(DeadLettered(c.row.value, error)))
    case Prune => c.(row := None)
  }

  datatype State = State(now: int, cells: map<OutboxId, Cell>)

  datatype Event =
    | Tick(seconds: nat)
    | Insert(id: OutboxId, platform: string, eventType: string, maxRetries: int)
    | Act(id: OutboxId, action: Action)

  predicate EventEnabled(s: State, e: Event) {
    match e
    case Tick(_) => true
    case Insert(id, _, _, maxRetries) => id !in s.cells && maxRetries >= 1
    case Act(id, a) => id in s.cells && Enabled(s.cells[id], a, s.now)
  }

  function NewCell(platform: string, eventType: string, maxRetries: int, now: int): Cell {
    Cell(Some(NewRow(platform, eventType, maxRetries, now)), map[],
         History(maxRetries, false, 0, 0, 0, 0, 0, 0, None, None))
  }

  /** One event; an event that cannot happen leaves the state as it is. */
  function Step(s: State, e: Event): State {
    if !EventEnabled(s, e) then s else
    match e
    case Tick(seconds) => s.(now := s.now + seconds)
    case Insert(id, platform, eventType, maxRetries) =>
      s.(cells := s.cells[id := NewCell(platform, eventType, maxRetries, s.now)])
    case Act(id, a) => s.(cells := s.cells[id := Apply(s.cells[id], a, s.now)])
  }

  function Run(s: State, events: seq<Event>): State
    decreases |events|
  {
    if events == [] then s else Run(Step(s, events[0]), events[1..])
  }

  function Init(now: int): State { State(now, map[]) }

  // ------------------------------------------------------------------------------------------
  // No event is lost, whatever the timing
  // ------------------------------------------------------------------------------------------

  const MAX_DELAY := 14400

  ghost predicate Safe(c: Cell, now: int) {
    && c.history.maxRetries >= 1
    && (c.row.None? ==> c.history.sent)
    && (forall d :: d in c.live && c.live[d].outcome == Accepted ==> c.history.sent)
    && (c.row.Some? ==> var r := c.row.value;
          && r.maxRetries == c.history.maxRetries && r.retryCount >= 0
          && (r.status == Published ==> c.history.sent && r.publishedAt.Some?)
          && (IsActive(r) ==> r.retryCount < r.maxRetries && r.processAfter <= now + MAX_DELAY))
  }

  lemma DelayBounds(retries: int)
    requires retries >= 1
    ensures 60 <= Delay(retries) <= MAX_DELAY
  {
  }

  lemma ActionKeepsSafe(c: Cell, a: Action, now: int)
    requires Safe(c, now) && Enabled(c, a, now)
    ensures Safe(Apply(c, a, now), now)
  {
    if a.RecordFailure? && c.row.Some? {
      DelayBounds(c.row.value.retryCount + 1);
    }
  }

  ghost predicate AllSafe(s: State) {
    forall id :: id in s.cells ==> Safe(s.cells[id], s.now)
  }

  lemma {:induction false} RunKeepsSafe(s: State, events: seq<Event>)
    requires AllSafe(s)
    ensures AllSafe(Run(s, events))
    decreases |events|
  {
    if events != [] {
      var e := events[0];
      if e.Act? && EventEnabled(s, e) {
        ActionKeepsSafe(s.cells[e.id], e.action, s.now);
      }
      RunKeepsSafe(Step(s, e), events[1..]);
    }
  }

  lemma {:induction false} CellsPersist(s: State, events: seq<Event>, id: OutboxId)
    ensures id in s.cells ==> id in Run(s, events).cells
    decreases |events|
  {
    if events != [] {
      CellsPersist(Step(s, events[0]), events[1..], id);
    }
  }

  /**
   Every event ever inserted has reached the broker, or is dead-lettered, or is in a row that the relay
   will take at the latest four hours from now if nobody does before; `published` implies that the
   broker got it, and so does the row being gone.
   */
  lemma NoEventLost(start: int, before: seq<Event>, after: seq<Event>, id: OutboxId)
    requires id in Run(Init(start), before).cells
    ensures var s := Run(Run(Init(start), before), after);
            && id in s.cells
            && (var c := s.cells[id];
                && (c.row.None? || c.row.value.status == Published ==> c.history.sent)
                && (c.history.sent || (c.row.Some? && (c.row.value.status == DeadLetter || Due(c.row.value, s.now + MAX_DELAY)))))
  {
    RunKeepsSafe(Init(start), before);
    CellsPersist(Run(Init(start), before), after, id);
    RunKeepsSafe(Run(Init(start), before), after);
  }

  // ------------------------------------------------------------------------------------------
  // The lease: at most one dispatcher per row
  // ------------------------------------------------------------------------------------------

  /**
   The timing assumption: a dispatcher has recorded its outcome or died before its lease runs out, so
   the clock does not reach the end of the lease of a live one; and operators do not reset a row that
   is being dispatched.
   */
  predicate Leased(s: State, e: Event) {
    match e
    case Tick(seconds) =>
      forall id, d :: id in s.cells && d in s.cells[id].live ==>
        s.now + seconds < s.cells[id].live[d].claimedAt + PROCESSING_LEASE_SEC
    case Act(id, ManualReset) => id in s.cells ==> s.cells[id].live == map[]
    case _ => true
  }

  predicate LeasedRun(s: State, events: seq<Event>)
    decreases |events|
  {
    events == [] || (Leased(s, events[0]) && LeasedRun(Step(s, events[0]), events[1..]))
  }

  predicate NoManualReset(events: seq<Event>) {
    forall i :: 0 <= i < |events| ==> !(events[i].Act? && events[i].action.ManualReset?)
  }

  predicate LiveInv(c: Cell, d: Dispatch, now: int) {
    && d.claimedAt <= now < d.claimedAt + PROCESSING_LEASE_SEC
    && c.row.Some?
    && (var r := c.row.value;
        && Mapped(r)
        && r.retryCount < r.maxRetries
        && (r.status == DeadLetter ||
            (r.status == Processing && r.processAfter == d.claimedAt + PROCESSING_LEASE_SEC))
        && c.history.rejected == r.retryCount + c.history.unrecorded + (if d.outcome == Rejected then 1 else 0))
  }

  ghost predicate Exclusive(c: Cell, now: int) {
    && Safe(c, now)
    && (forall d, e :: d in c.live && e in c.live ==> d == e)
    && (forall d :: d in c.live ==> LiveInv(c, c.live[d], now))
    && (c.row.Some? ==> c.row.value.retryCount <= c.row.value.maxRetries)
    && (c.row.Some? && c.live.Keys == {} ==>
          c.history.rejected == c.row.value.retryCount + c.history.unrecorded)
  }

  lemma ActionKeepsExclusive(c: Cell, a: Action, now: int)
    requires Exclusive(c, now) && Enabled(c, a, now) && (a.ManualReset? ==> c.live == map[])
    ensures Exclusive(Apply(c, a, now), now)
  {
    ActionKeepsSafe(c, a, now);
    match a
    case RecordPublished(d) =>
      assert LiveInv(c, c.live[d], now) && Apply(c, a, now).live.Keys == {};
    case RecordFailure(d, _) =>
      assert LiveInv(c, c.live[d], now) && Apply(c, a, now).live.Keys == {};
    case Crash(d) =>
      assert LiveInv(c, c.live[d], now) && Apply(c, a, now).live.Keys == {};
    case ClaimPending(d) =>
      assert c.live.Keys == {};
    case ClaimDue(d) =>
      assert c.live.Keys == {};
    case Send(d, _, _) =>
      assert d in Apply(c, a, now).live.Keys;
    case _ =>
  }

  // ------------------------------------------------------------------------------------------
  // Attempts and backoff, when no operator resets the row
  // ------------------------------------------------------------------------------------------

  /** The pauses after the first `n` recorded failures, added up. */
  function DelaySum(n: int): int {
    if n <= 0 then 0 else DelaySum(n - 1) + Delay(n)
  }

  ghost predicate Counted(c: Cell) {
    var h := c.history;
    && h.claims == h.failures + h.crashes + h.publishes + (if c.live.Keys == {} then 0 else 1)
    && (c.row.Some? ==> c.row.value.retryCount == h.failures)
    && h.publishes <= 1
    && (c.row.None? || c.row.value.status == Published ==> h.publishes == 1)
    && (h.publishes == 1 ==>
          c.live.Keys == {} && h.failures < h.maxRetries && (c.row.Some? ==> !IsActive(c.row.value)))
  }

  ghost predicate Paced(c: Cell) {
    var h := c.history;
    && (h.firstClaim.None? ==> h.claims == 0)
    && (c.row.Some? && c.row.value.status == Pending ==> h.claims == 0 && h.firstClaim.None?)
    && (h.firstClaim.Some? ==>
          && (c.row.Some? && IsActive(c.row.value) ==> c.row.value.processAfter >= h.firstClaim.value + DelaySum(h.failures))
          && (forall d :: d in c.live ==> c.live[d].claimedAt >= h.firstClaim.value + DelaySum(h.failures)))
    && (h.exhaustedAt.Some? ==>
          h.firstClaim.Some? && h.exhaustedAt.value >= h.firstClaim.value + DelaySum(h.maxRetries - 1))
  }

  lemma ActionKeepsCounted(c: Cell, a: Action, now: int)
    requires Exclusive(c, now) && Counted(c) && Enabled(c, a, now) && !a.ManualReset?
    ensures Counted(Apply(c, a, now))
  {
    var c' := Apply(c, a, now);
    match a
    case RecordPublished(d) =>
      assert LiveInv(c, c.live[d], now) && c'.live.Keys == {};
    case RecordFailure(d, _) =>
      assert LiveInv(c, c.live[d], now) && c'.live.Keys == {};
    case Crash(d) =>
      assert LiveInv(c, c.live[d], now) && c'.live.Keys == {};
    case ClaimPending(d) =>
      assert c.live.Keys == {};
      assert Mapped(c.row.value) ==> d in c'.live.Keys;
    case ClaimDue(d) =>
      assert c.live.Keys == {};
      assert Mapped(c.row.value) ==> d in c'.live.Keys;
    case Send(d, _, _) =>
      assert d in c.live.Keys && d in c'.live.Keys;
    case _ =>
  }

  lemma FailureKeepsPaced(c: Cell, d: DispatchId, error: string, now: int)
    requires Exclusive(c, now) && Counted(c) && Paced(c) && Enabled(c, RecordFailure(d, error), now)
    ensures Paced(Apply(c, RecordFailure(d, error), now))
  {
    assert LiveInv(c, c.live[d], now);
    assert DelaySum(c.history.failures + 1) == DelaySum(c.history.failures) + Delay(c.history.failures + 1);
  }

  lemma ClaimKeepsPaced(c: Cell, d: DispatchId, now: int)
    requires Exclusive(c, now) && Counted(c) && Paced(c)
    requires Enabled(c, ClaimPending(d), now) || Enabled(c, ClaimDue(d), now)
    ensures Paced(ClaimedBy(c, d, now))
  {
    assert c.live.Keys == {} || exists e :: e in c.live;
  }

  lemma ActionKeepsPaced(c: Cell, a: Action, now: int)
    requires Exclusive(c, now) && Counted(c) && Paced(c) && Enabled(c, a, now) && !a.ManualReset?
    ensures Paced(Apply(c, a, now))
  {
    match a
    case RecordFailure(d, error) => FailureKeepsPaced(c, d, error, now);
    case ClaimPending(d) => ClaimKeepsPaced(c, d, now);
    case ClaimDue(d) => ClaimKeepsPaced(c, d, now);
    case _ =>
  }

  ghost predicate AllExclusive(s: State) {
    forall id :: id in s.cells ==> Exclusive(s.cells[id], s.now)
  }

  ghost predicate AllCounted(s: State) {
    forall id :: id in s.cells ==> Counted(s.cells[id]) && Paced(s.cells[id])
  }

  lemma StepKeepsExclusive(s: State, e: Event)
    requires AllExclusive(s) && Leased(s, e)
    ensures AllExclusive(Step(s, e))
  {
    if e.Act? && EventEnabled(s, e) {
      ActionKeepsExclusive(s.cells[e.id], e.action, s.now);
    }
  }

  lemma StepKeepsCounted(s: State, e: Event)
    requires AllExclusive(s) && AllCounted(s) && !(e.Act? && e.action.ManualReset?)
    ensures AllCounted(Step(s, e))
  {
    if e.Act? && EventEnabled(s, e) {
      ActionKeepsCounted(s.cells[e.id], e.action, s.now);
      ActionKeepsPaced(s.cells[e.id], e.action, s.now);
    }
  }

  lemma {:induction false} LeasedRunKeeps(s: State, events: seq<Event>)
    requires AllExclusive(s) && LeasedRun(s, events)
    ensures AllExclusive(Run(s, events))
    ensures AllCounted(s) && NoManualReset(events) ==> AllCounted(Run(s, events))
    decreases |events|
  {
    if events != [] {
      StepKeepsExclusive(s, events[0]);
      if AllCounted(s) && NoManualReset(events) {
        StepKeepsCounted(s, events[0]);
      }
      LeasedRunKeeps(Step(s, events[0]), events[1..]);
    }
  }

  /**
   Under the lease assumption no row ever has two live dispatchers, and its retry count is the number
   of sends that raised since the last manual reset, less those whose dispatcher died, or has yet,
   to record it; it never passes the row's limit.
   */
  lemma LeaseIsExclusive(start: int, events: seq<Event>, id: OutboxId)
    requires LeasedRun(Init(start), events) && id in Run(Init(start), events).cells
    ensures var c := Run(Init(start), events).cells[id];
            && |c.live.Keys| <= 1
            && (c.row.Some? ==>
                  && c.row.value.retryCount <= c.row.value.maxRetries
                  && c.history.rejected == c.row.value.retryCount + c.history.unrecorded +
                       (if exists d :: d in c.live && c.live[d].outcome == Rejected then 1 else 0))
  {
    LeasedRunKeeps(Init(start), events);
    var c := Run(Init(start), events).cells[id];
    AtMostOneElement(c.live.Keys);
    if d :| d in c.live && c.live[d].outcome == Rejected {
      assert LiveInv(c, c.live[d], Run(Init(start), events).now);
    } else if c.live.Keys != {} {
      var e :| e in c.live.Keys;
      assert LiveInv(c, c.live[e], Run(Init(start), events).now);
    }
  }

  /**
   Without manual resets a row is dispatched at most once per retry, plus once for every dispatcher
   that crashed on it: with finitely many crashes the publishers stop claiming it.
   */
  lemma AttemptsAreBounded(start: int, events: seq<Event>, id: OutboxId)
    requires LeasedRun(Init(start), events) && NoManualReset(events) && id in Run(Init(start), events).cells
    ensures var h := Run(Init(start), events).cells[id].history;
            h.claims <= h.maxRetries + h.crashes
  {
    LeasedRunKeeps(Init(start), events);
    var c := Run(Init(start), events).cells[id];
    if c.live.Keys != {} {
      var d :| d in c.live.Keys;
      assert LiveInv(c, c.live[d], Run(Init(start), events).now);
    }
  }

  /** The pauses before the last of `attempts` sends: 1, 5, 30 and 120 minutes, then 240 each. */
  function LeastWait(attempts: int): int {
    if attempts <= 1 then 0
    else if attempts == 2 then 60
    else if attempts == 3 then 360
    else if attempts == 4 then 2160
    else 9360 + 14400 * (attempts - 5)
  }

  lemma {:induction false} DelaySumIs(n: int)
    requires n >= 0
    ensures DelaySum(n) == LeastWait(n + 1)
    decreases n
  {
    if n > 5 {
      DelaySumIs(n - 1);
      assert Delay(n) == 14400;
    } else if n > 0 {
      DelaySumIs(n - 1);
    }
  }

  /** A row gives up no earlier than its first claim plus all the pauses between its attempts. */
  lemma BackoffIsRespected(start: int, events: seq<Event>, id: OutboxId)
    requires LeasedRun(Init(start), events) && NoManualReset(events) && id in Run(Init(start), events).cells
    ensures var h := Run(Init(start), events).cells[id].history;
            h.maxRetries >= 1 &&
            (h.exhaustedAt.Some? ==>
               h.firstClaim.Some? && h.exhaustedAt.value >= h.firstClaim.value + LeastWait(h.maxRetries))
  {
    LeasedRunKeeps(Init(start), events);
    DelaySumIs(Run(Init(start), events).cells[id].history.maxRetries - 1);
  }

  // ------------------------------------------------------------------------------------------
  // The assumptions are needed
  // ------------------------------------------------------------------------------------------

  /** Some publisher can claim the row. */
  ghost predicate Claimable(c: Cell, now: int) {
    exists e :: Enabled(c, ClaimPending(e), now) || Enabled(c, ClaimDue(e), now)
  }

  /** A second dispatcher can join exactly from the end of the first one's lease on. */
  lemma SecondClaimExactly(c: Cell, d: DispatchId, now: int, later: int)
    requires Exclusive(c, now) && d in c.live && later >= now
    ensures Claimable(c, later) <==>
            c.row.value.status == Processing && later >= c.live[d].claimedAt + PROCESSING_LEASE_SEC
  {
    assert LiveInv(c, c.live[d], now);
    assert DispatchId(d.n + 1) !in c.live;
    if Due(c.row.value, later) {
      assert Enabled(c, ClaimDue(DispatchId(d.n + 1)), later);
    }
  }

  /** A manual reset during a dispatch lets a second dispatcher join at once, whatever the lease. */
  lemma ResetAdmitsSecond(c: Cell, d: DispatchId, e: DispatchId, now: int)
    requires Exclusive(c, now) && d in c.live && e !in c.live
    ensures Enabled(c, ManualReset, now)
    ensures var reset := Apply(c, ManualReset, now);
            Enabled(reset, ClaimPending(e), now) && Apply(reset, ClaimPending(e), now).live.Keys == {d, e}
  {
    assert LiveInv(c, c.live[d], now);
  }

  /** `k` dispatchers claim the row one after the other, each past the lease of the one before; all their sends raise. */
  function Overlapping(id: OutboxId, first: nat, k: nat): seq<Event>
    decreases k
  {
    if k == 0 then []
    else
      var d := DispatchId(first);
      [Tick(MAX_DELAY), Act(id, ClaimDue(d))] + Overlapping(id, first + 1, k - 1) +
      [Act(id, Send(d, true, false)), Act(id, RecordFailure(d, "timeout"))]
  }

  /** A row of this cell can be claimed again and again; dispatchers from `first` on are new. */
  ghost predicate Reclaimable(s: State, id: OutboxId, first: nat) {
    && id in s.cells && Safe(s.cells[id], s.now) && s.cells[id].row.Some?
    && IsActive(s.cells[id].row.value) && Mapped(s.cells[id].row.value)
    && forall d :: d in s.cells[id].live ==> d.n < first
  }

  lemma {:induction false} RunAppend(s: State, before: seq<Event>, after: seq<Event>)
    ensures Run(s, before + after) == Run(Run(s, before), after)
    decreases |before|
  {
    if before == [] {
      assert before + after == after;
    } else {
      assert (before + after)[0] == before[0] && (before + after)[1..] == before[1..] + after;
      RunAppend(Step(s, before[0]), before[1..], after);
    }
  }

  lemma RunTwo(s: State, a: Event, b: Event)
    ensures Run(s, [a, b]) == Step(Step(s, a), b)
  {
    assert [a, b][1..] == [b] && [b][1..] == [];
    assert Run(Step(Step(s, a), b), []) == Step(Step(s, a), b);
  }

  /** Waiting out every delay, a new dispatcher claims the row. */
  lemma ReclaimStep(s: State, id: OutboxId, first: nat)
    requires Reclaimable(s, id, first)
    ensures var t := Run(s, [Tick(MAX_DELAY), Act(id, ClaimDue(DispatchId(first)))]);
            && Reclaimable(t, id, first + 1)
            && t.cells[id].live == s.cells[id].live[DispatchId(first) := Dispatch(t.now, Unsent)]
            && t.cells[id].row.value.retryCount == s.cells[id].row.value.retryCount
            && t.cells[id].row.value.maxRetries == s.cells[id].row.value.maxRetries
  {
    var d := DispatchId(first);
    RunTwo(s, Tick(MAX_DELAY), Act(id, ClaimDue(d)));
    assert d !in s.cells[id].live;
    assert Enabled(s.cells[id], ClaimDue(d), s.now + MAX_DELAY);
    ActionKeepsSafe(s.cells[id], ClaimDue(d), s.now + MAX_DELAY);
  }

  /** A dispatcher that has not sent yet can still fail and record it. */
  lemma FailStep(s: State, id: OutboxId, d: DispatchId)
    requires id in s.cells && s.cells[id].row.Some? && s.cells[id].row.value.retryCount >= 0
    requires d in s.cells[id].live && s.cells[id].live[d].outcome == Unsent
    ensures var t := Run(s, [Act(id, Send(d, true, false)), Act(id, RecordFailure(d, "timeout"))]);
            && id in t.cells && t.cells[id].row.Some?
            && t.cells[id].row.value.retryCount == s.cells[id].row.value.retryCount + 1
            && t.cells[id].row.value.maxRetries == s.cells[id].row.value.maxRetries
            && t.cells[id].live == Without(s.cells[id].live, d)
  {
    var send, record := Act(id, Send(d, true, false)), Act(id, RecordFailure(d, "timeout"));
    RunTwo(s, send, record);
    var sent := Apply(s.cells[id], send.action, s.now);
    assert Step(s, send).cells[id] == sent && Enabled(sent, record.action, s.now);
  }

  lemma {:induction false} OverlapCounts(s: State, id: OutboxId, first: nat, k: nat)
    requires Reclaimable(s, id, first)
    ensures var t := Run(s, Overlapping(id, first, k));
            && id in t.cells && t.cells[id].row.Some?
            && t.cells[id].row.value.retryCount == s.cells[id].row.value.retryCount + k
            && t.cells[id].row.value.maxRetries == s.cells[id].row.value.maxRetries
            && t.cells[id].live == s.cells[id].live
    ensures NoManualReset(Overlapping(id, first, k))
    decreases k
  {
    if k > 0 {
      var d := DispatchId(first);
      var claim := [Tick(MAX_DELAY), Act(id, ClaimDue(d))];
      var inner := Overlapping(id, first + 1, k - 1);
      var fail := [Act(id, Send(d, true, false)), Act(id, RecordFailure(d, "timeout"))];
      ReclaimStep(s, id, first);
      OverlapCounts(Run(s, claim), id, first + 1, k - 1);
      FailStep(Run(Run(s, claim), inner), id, d);
      RunAppend(s, claim, inner);
      RunAppend(s, claim + inner, fail);
    }
  }

  lemma {:induction false} FreshDispatch(live: map<DispatchId, Dispatch>) returns (first: nat)
    ensures forall d :: d in live ==> d.n < first
    decreases |live.Keys|
  {
    first := 0;
    if live.Keys != {} {
      var d :| d in live.Keys;
      var rest := Without(live, d);
      assert rest.Keys == live.Keys - {d};
      first := FreshDispatch(rest);
      first := if d.n < first then first else d.n + 1;
      assert forall e :: e in live ==> e == d || e in rest;
    }
  }

  /**
   Past the lease the retry count has no bound: from every safe state (every reachable one is) with an
   active row that has a queue, for every k there is a run without manual reset that adds k to its retry
   count; one claim more than retries are left leads above the limit.
   */
  lemma OverlapExceedsRetries(s: State, id: OutboxId, k: nat) returns (events: seq<Event>)
    requires AllSafe(s) && id in s.cells && s.cells[id].row.Some?
    requires IsActive(s.cells[id].row.value) && Mapped(s.cells[id].row.value)
    ensures NoManualReset(events)
    ensures var r := s.cells[id].row.value;
            var t := Run(s, events);
            && id in t.cells && t.cells[id].row.Some?
            && t.cells[id].row.value.retryCount == r.retryCount + k
            && (r.retryCount + k > r.maxRetries ==>
                  t.cells[id].row.value.retryCount > t.cells[id].row.value.maxRetries)
  {
    var first := FreshDispatch(s.cells[id].live);
    events := Overlapping(id, first, k);
    OverlapCounts(s, id, first, k);
  }

  // ------------------------------------------------------------------------------------------
  // One publisher without a time limit is enough
  // ------------------------------------------------------------------------------------------

  /** All dispatchers but `d` on row `id` keep their leases. */
  predicate LeasedBut(s: State, e: Event, id: OutboxId, d: DispatchId) {
    match e
    case Tick(seconds) =>
      forall other, x :: other in s.cells && x in s.cells[other].live && (other != id || x != d) ==>
        s.now + seconds < s.cells[other].live[x].claimedAt + PROCESSING_LEASE_SEC
    case Act(other, ManualReset) => other in s.cells ==> s.cells[other].live == map[]
    case _ => true
  }

  predicate LeasedButRun(s: State, events: seq<Event>, id: OutboxId, d: DispatchId)
    decreases |events|
  {
    events == [] || (LeasedBut(s, events[0], id, d) && LeasedButRun(Step(s, events[0]), events[1..], id, d))
  }

  lemma {:induction false} LeasedButAppend(s: State, before: seq<Event>, after: seq<Event>, id: OutboxId, d: DispatchId)
    ensures LeasedButRun(s, before + after, id, d) <==>
            LeasedButRun(s, before, id, d) && LeasedButRun(Run(s, before), after, id, d)
    decreases |before|
  {
    if before == [] {
      assert before + after == after;
    } else {
      assert (before + after)[0] == before[0] && (before + after)[1..] == before[1..] + after;
      LeasedButAppend(Step(s, before[0]), before[1..], after, id, d);
    }
  }

  lemma LeasedButTwo(s: State, a: Event, b: Event, id: OutboxId, d: DispatchId)
    ensures LeasedButRun(s, [a, b], id, d) <==> LeasedBut(s, a, id, d) && LeasedBut(Step(s, a), b, id, d)
  {
    assert [a, b][1..] == [b] && [b][1..] == [];
    assert LeasedButRun(Step(Step(s, a), b), [], id, d);
  }

  /** A relay waits out every delay and claims the row. */
  function RelayClaims(id: OutboxId, e: DispatchId): seq<Event> {
    [Tick(MAX_DELAY), Act(id, ClaimDue(e))]
  }

  /** Its send raises, which it records at once. */
  function Fails(id: OutboxId, e: DispatchId): seq<Event> {
    [Act(id, Send(e, true, false)), Act(id, RecordFailure(e, "timeout"))]
  }

  /** `k` relays one after the other. */
  function FailingRelays(id: OutboxId, first: nat, k: nat): seq<Event>
    decreases k
  {
    if k == 0 then []
    else RelayClaims(id, DispatchId(first)) + Fails(id, DispatchId(first)) + FailingRelays(id, first + 1, k - 1)
  }

  /** The only dispatcher anywhere is `d` on row `id`, which has not sent yet; `left` retries are left. */
  ghost predicate Stalled(s: State, id: OutboxId, d: DispatchId, left: nat) {
    && AllSafe(s) && id in s.cells && s.cells[id].row.Some? && Mapped(s.cells[id].row.value)
    && (forall other, x :: other in s.cells && x in s.cells[other].live ==> other == id && x == d)
    && d in s.cells[id].live && s.cells[id].live[d].outcome == Unsent
    && s.cells[id].row.value.retryCount + left == s.cells[id].row.value.maxRetries
    && (left > 0 ==> IsActive(s.cells[id].row.value))
  }

  lemma RelayClaimed(s: State, id: OutboxId, d: DispatchId, e: DispatchId, left: nat)
    requires Stalled(s, id, d, left) && left > 0 && e != d
    ensures var t := Run(s, RelayClaims(id, e));
            && LeasedButRun(s, RelayClaims(id, e), id, d) && AllSafe(t)
            && t.now == s.now + MAX_DELAY && Enabled(s.cells[id], ClaimDue(e), t.now)
            && t.cells == s.cells[id := Apply(s.cells[id], ClaimDue(e), t.now)]
  {
    var claim := RelayClaims(id, e);
    assert e !in s.cells[id].live;
    assert Due(s.cells[id].row.value, s.now + MAX_DELAY);
    RunTwo(s, claim[0], claim[1]);
    LeasedButTwo(s, claim[0], claim[1], id, d);
    ActionKeepsSafe(s.cells[id], ClaimDue(e), s.now + MAX_DELAY);
  }

  lemma RelayFails(s: State, id: OutboxId, d: DispatchId, e: DispatchId, left: nat)
    requires Stalled(s, id, d, left) && left > 0 && e != d
    ensures var events := RelayClaims(id, e) + Fails(id, e);
            && LeasedButRun(s, events, id, d) && Stalled(Run(s, events), id, d, left - 1)
            && Run(s, events).cells[id].row.value.maxRetries == s.cells[id].row.value.maxRetries
  {
    var claim, fail := RelayClaims(id, e), Fails(id, e);
    RelayClaimed(s, id, d, e, left);
    RunAppend(s, claim, fail);
    LeasedButAppend(s, claim, fail, id, d);
    var t := Run(s, claim);
    RunTwo(t, fail[0], fail[1]);
    LeasedButTwo(t, fail[0], fail[1], id, d);
    ActionKeepsSafe(t.cells[id], Send(e, true, false), t.now);
    var sent := Step(t, fail[0]);
    assert sent.cells[id] == Apply(t.cells[id], Send(e, true, false), t.now);
    ActionKeepsSafe(sent.cells[id], RecordFailure(e, "timeout"), sent.now);
  }

  lemma {:induction false} RelaysExhaust(s: State, id: OutboxId, d: DispatchId, first: nat, left: nat)
    requires Stalled(s, id, d, left) && d.n < first
    ensures LeasedButRun(s, FailingRelays(id, first, left), id, d)
    ensures var t := Run(s, FailingRelays(id, first, left));
            Stalled(t, id, d, 0) && t.cells[id].row.value.maxRetries == s.cells[id].row.value.maxRetries
    decreases left
  {
    if left > 0 {
      var round := RelayClaims(id, DispatchId(first)) + Fails(id, DispatchId(first));
      var rest := FailingRelays(id, first + 1, left - 1);
      RelayFails(s, id, d, DispatchId(first), left);
      RunAppend(s, round, rest);
      LeasedButAppend(s, round, rest, id, d);
      RelaysExhaust(Run(s, round), id, d, first + 1, left - 1);
    }
  }

  const IMMEDIATE := DispatchId(0)

  /** An immediate publisher claims a new row and stalls; relays use up its retries; then its own send raises. */
  function StalledPublisher(id: OutboxId, maxRetries: nat): seq<Event> {
    [Insert(id, "shopee", "order", maxRetries), Act(id, ClaimPending(IMMEDIATE))] +
    (FailingRelays(id, 1, maxRetries) + Fails(id, IMMEDIATE))
  }

  /**
   One immediate publisher that outlives its lease is enough: with every other dispatcher within its lease
   the row still ends above its limit, whatever that is.
   */
  lemma StalledPublisherExceedsRetries(start: int, id: OutboxId, maxRetries: nat)
    requires maxRetries >= 1
    ensures var events := StalledPublisher(id, maxRetries);
            var t := Run(Init(start), events);
            && LeasedButRun(Init(start), events, id, IMMEDIATE)
            && id in t.cells && t.cells[id].row.Some? && t.cells[id].row.value.maxRetries == maxRetries
            && t.cells[id].row.value.retryCount == maxRetries + 1
  {
    var s0 := Init(start);
    var begin := [Insert(id, "shopee", "order", maxRetries), Act(id, ClaimPending(IMMEDIATE))];
    var relays, fail := FailingRelays(id, 1, maxRetries), Fails(id, IMMEDIATE);
    RunTwo(s0, begin[0], begin[1]);
    LeasedButTwo(s0, begin[0], begin[1], id, IMMEDIATE);
    var s := Run(s0, begin);
    assert s.cells[id].live == map[IMMEDIATE := Dispatch(start, Unsent)];
    RunKeepsSafe(s0, begin);
    RelaysExhaust(s, id, IMMEDIATE, 1, maxRetries);
    var t := Run(s, relays);
    FailStep(t, id, IMMEDIATE);
    LeasedButTwo(t, fail[0], fail[1], id, IMMEDIATE);
    RunAppend(s, relays, fail);
    LeasedButAppend(s, relays, fail, id, IMMEDIATE);
    RunAppend(s0, begin, relays + fail);
    LeasedButAppend(s0, begin, relays + fail, id, IMMEDIATE);
  }

  // ------------------------------------------------------------------------------------------
  // When `dead_letter` is final
  // ------------------------------------------------------------------------------------------

  predicate IsDead(s: State, id: OutboxId) {
    id in s.cells && s.cells[id].row.Some? && s.cells[id].row.value.status == DeadLetter
  }

  /** All that the live dispatchers can still record is a failure that leaves no retry. */
  predicate NothingToRecord(c: Cell) {
    forall d :: d in c.live ==>
      c.live[d].outcome == Rejected && c.row.Some? && c.row.value.retryCount + 1 >= c.row.value.maxRetries
  }

  ghost predicate StaysDead(s: State, id: OutboxId) {
    forall events :: NoManualReset(events) ==> IsDead(Run(s, events), id)
  }

  lemma StepKeepsDead(s: State, e: Event, id: OutboxId)
    requires IsDead(s, id) && NothingToRecord(s.cells[id]) && !(e.Act? && e.action.ManualReset?)
    ensures IsDead(Step(s, e), id) && NothingToRecord(Step(s, e).cells[id])
  {
  }

  lemma {:induction false} RunKeepsDead(s: State, events: seq<Event>, id: OutboxId)
    requires IsDead(s, id) && NothingToRecord(s.cells[id]) && NoManualReset(events)
    ensures IsDead(Run(s, events), id)
    decreases |events|
  {
    if events != [] {
      StepKeepsDead(s, events[0], id);
      RunKeepsDead(Step(s, events[0]), events[1..], id);
    }
  }

  /** What brings the row back: the outcome of dispatcher `d`, sent first if need be. */
  function Revival(id: OutboxId, d: DispatchId, outcome: Outcome): seq<Event> {
    match outcome
    case Unsent => [Act(id, Send(d, false, true)), Act(id, RecordPublished(d))]
    case Accepted => [Tick(0), Act(id, RecordPublished(d))]
    case Rejected => [Tick(0), Act(id, RecordFailure(d, "timeout"))]
  }

  lemma DispatcherRevives(s: State, id: OutboxId, d: DispatchId)
    requires IsDead(s, id) && Safe(s.cells[id], s.now) && d in s.cells[id].live
    requires s.cells[id].live[d].outcome == Rejected ==>
               s.cells[id].row.value.retryCount + 1 < s.cells[id].row.value.maxRetries
    ensures var events := Revival(id, d, s.cells[id].live[d].outcome);
            NoManualReset(events) && !IsDead(Run(s, events), id)
  {
    var events := Revival(id, d, s.cells[id].live[d].outcome);
    RunTwo(s, events[0], events[1]);
    assert events == [events[0], events[1]];
  }

  /**
   A dead-lettered row stays dead-lettered, whatever happens short of a manual retry, exactly if its live
   dispatchers have nothing but failures without a retry left to record.
   */
  lemma DeadLetterIsFinalExactly(s: State, id: OutboxId)
    requires AllSafe(s) && IsDead(s, id)
    ensures StaysDead(s, id) <==> NothingToRecord(s.cells[id])
  {
    if NothingToRecord(s.cells[id]) {
      forall events | NoManualReset(events)
        ensures IsDead(Run(s, events), id)
      {
        RunKeepsDead(s, events, id);
      }
    } else {
      var d :| d in s.cells[id].live &&
               !(s.cells[id].live[d].outcome == Rejected &&
                 s.cells[id].row.value.retryCount + 1 >= s.cells[id].row.value.maxRetries);
      DispatcherRevives(s, id, d);
    }
  }

  lemma {:induction false} LeasedAppend(s: State, before: seq<Event>, after: seq<Event>)
    ensures LeasedRun(s, before + after) <==> LeasedRun(s, before) && LeasedRun(Run(s, before), after)
    decreases |before|
  {
    if before == [] {
      assert before + after == after;
    } else {
      assert (before + after)[0] == before[0] && (before + after)[1..] == before[1..] + after;
      LeasedAppend(Step(s, before[0]), before[1..], after);
    }
  }

  lemma LeasedTwo(s: State, a: Event, b: Event)
    ensures LeasedRun(s, [a, b]) <==> Leased(s, a) && Leased(Step(s, a), b)
  {
    assert [a, b][1..] == [b] && [b][1..] == [];
    assert LeasedRun(Step(Step(s, a), b), []);
  }

  /** The consumer dead-letters the row before its publisher has recorded that the broker took it. */
  function ConsumerFirst(id: OutboxId, d: DispatchId, maxRetries: int): seq<Event> {
    [Insert(id, "shopee", "order", maxRetries), Act(id, ClaimPending(d)), Act(id, Send(d, false, true)),
     Act(id, WorkerDeadLetter("ProductNotFound"))]
  }

  /** Such a row is dead-lettered in a run that keeps every lease, and then becomes `published`. */
  lemma DeadLetterIsOverwritten(start: int, id: OutboxId, d: DispatchId, maxRetries: int)
    requires maxRetries >= 1
    ensures var events := ConsumerFirst(id, d, maxRetries);
            var s := Run(Init(start), events);
            var t := Step(s, Act(id, RecordPublished(d)));
            && LeasedRun(Init(start), events) && Leased(s, Act(id, RecordPublished(d))) && NoManualReset(events)
            && IsDead(s, id)
            && id in t.cells && t.cells[id].row.Some? && t.cells[id].row.value.status == Published
  {
    var e := ConsumerFirst(id, d, maxRetries);
    var s0 := Init(start);
    var s1 := Step(s0, e[0]);
    var s2 := Step(s1, e[1]);
    var s3 := Step(s2, e[2]);
    assert s2.cells[id].live == map[d := Dispatch(start, Unsent)];
    assert s3.cells[id].live == map[d := Dispatch(start, Accepted)] && s3.cells[id].history.sent;
    LeasedAppend(s0, [e[0], e[1]], [e[2], e[3]]);
    assert e == [e[0], e[1]] + [e[2], e[3]];
    RunAppend(s0, [e[0], e[1]], [e[2], e[3]]);
    RunTwo(s0, e[0], e[1]);
    RunTwo(s2, e[2], e[3]);
    LeasedTwo(s0, e[0], e[1]);
    LeasedTwo(s2, e[2], e[3]);
  }
}
