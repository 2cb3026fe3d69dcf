/** The Shopee webhook: replay check, outbox insert and event log, in the order the handler runs them. */
module Webhooks {
  import opened Common
  import opened OutboxRow

  const NONCE_TTL := 300

  const EVENT_TYPE_MAP: map<int, string> := map[3 := "order", 4 := "logistics", 15 := "stock"]

  datatype Body = Malformed | Parsed(code: int, orderSn: Option<string>)

  /** `valid` is the outcome of the HMAC check; a missing signature header is the empty string. */
  datatype Request = Request(signature: string, valid: bool, body: Body)

  datatype LogEntry = LogEntry(signature: string, valid: bool, outboxId: Option<OutboxId>)

  datatype Response = Acknowledged | Replay | NoAnswer

  /** What fails while a request is handled. */
  datatype Faults = Faults(
    checkRedisDown: bool, // during the replay check
    markRedisDown: bool,  // when the nonce is to be set
    diesBefore: bool,     // the process dies before the commit
    diesAfter: bool)      // the process dies after the commit, before the nonce is set

  predicate Known(req: Request) {
    req.body.Parsed? && req.body.code in EVENT_TYPE_MAP
  }

  /** The part of the signature in the nonce key. */
  function Prefix(signature: string): string {
    if |signature| <= 32 then signature else signature[..32]
  }

  /** A row of webhook_outbox: what the publishers work with, and what the event came with. */
  datatype Entry = Entry(row: Row, eventCode: int, orderSn: Option<string>, signature: string)

  type Table = map<OutboxId, Entry>

  datatype State = State(
    now: int,
    nonces: map<string, int>, // Redis: prefix to expiry
    log: seq<LogEntry>,       // webhook_event_log
    rows: Table,              // webhook_outbox
    nextId: nat)

  predicate InLog(log: seq<LogEntry>, signature: string) {
    exists i :: 0 <= i < |log| && log[i].signature == signature && log[i].valid
  }

  /** `_is_replay`. */
  predicate IsReplay(w: State, signature: string, redisDown: bool) {
    if redisDown then InLog(w.log, signature)
    else Prefix(signature) in w.nonces && w.now < w.nonces[Prefix(signature)]
  }

  function Logged(w: State, req: Request, outboxId: Option<OutboxId>): State {
    w.(log := w.log + [LogEntry(req.signature, req.valid, outboxId)])
  }

  /** `_mark_processed`. */
  function Marked(w: State, signature: string, faults: Faults): State {
    if faults.markRedisDown || faults.diesAfter || signature == "" then w
    else w.(nonces := w.nonces[Prefix(signature) := w.now + NONCE_TTL])
  }

  /** The outbox row of a request of a known type; five retries are the column's default. */
  function NewEntry(req: Request, now: int): Entry
    requires Known(req)
  {
    Entry(NewRow("shopee", EVENT_TYPE_MAP[req.body.code], 5, now), req.body.code, req.body.orderSn, req.signature)
  }

  function Inserted(w: State, req: Request): State
    requires Known(req)
  {
    Logged(w.(rows := w.rows[OutboxId(w.nextId) := NewEntry(req, w.now)], nextId := w.nextId + 1),
           req, Some(OutboxId(w.nextId)))
  }

  /** `shopee_webhook`. */
  function Receive(w: State, req: Request, faults: Faults): (State, Response) {
    var answer := if faults.diesAfter then NoAnswer else Acknowledged;
    if req.valid && req.signature != "" && IsReplay(w, req.signature, faults.checkRedisDown) then (w, Replay)
    else if faults.diesBefore then (w, NoAnswer)
    else if !req.valid || req.body.Malformed? then (Logged(w, req, None), answer)
    else if !Known(req) then (Marked(Logged(w, req, None), req.signature, faults), answer)
    else (Marked(Inserted(w, req), req.signature, faults), answer)
  }

  class WebhookReceiver {
    var nonces: map<string, int>
    var log: seq<LogEntry>
    var rows: Table
    var nextId: nat

    ghost function View(now: int): State
      reads this
    {
      State(now, nonces, log, rows, nextId)
    }

    constructor ()
      ensures nonces == map[] && log == [] && rows == map[] && nextId == 0
    {
      nonces, log, rows, nextId := map[], [], map[], 0;
    }

    method IsReplayed(signature: string, now: int, redisDown: bool) returns (replay: bool)
      ensures replay == IsReplay(View(now), signature, redisDown)
    {
      if !redisDown {
        return Prefix(signature) in nonces && now < nonces[Prefix(signature)];
      }
      for i := 0 to |log|
        invariant !InLog(log[..i], signature)
      {
        assert log[..i + 1] == log[..i] + [log[i]];
        if log[i].signature == signature && log[i].valid {
          return true;
        }
      }
      assert log[..|log|] == log;
      return false;
    }

    method ShopeeWebhook(req: Request, now: int, faults: Faults) returns (response: Response)
      modifies this
      ensures (View(now), response) == Receive(old(View(now)), req, faults)
    {
      if req.valid && req.signature != "" {
        var replay := IsReplayed(req.signature, now, faults.checkRedisDown);
        if replay {
          return Replay;
        }
      }
      if faults.diesBefore {
        return NoAnswer;
      }
      response := if faults.diesAfter then NoAnswer else Acknowledged;
      var marks := !faults.markRedisDown && !faults.diesAfter && req.signature != "";
      if !req.valid || req.body.Malformed? {
        log := log + [LogEntry(req.signature, req.valid, None)];
        return;
      }
      if req.body.code !in EVENT_TYPE_MAP {
        log := log + [LogEntry(req.signature, true, None)];
      } else {
        var id := OutboxId(nextId);
        rows := rows[id := NewEntry(req, now)];
        nextId := nextId + 1;
        log := log + [LogEntry(req.signature, true, Some(id))];
      }
      if marks {
        nonces := nonces[Prefix(req.signature) := now + NONCE_TTL];
      }
    }
  }

  // ------------------------------------------------------------------------------------------
  // What one request leaves
  // ------------------------------------------------------------------------------------------

  /** Ids that were given out are below the next one. */
  predicate FreshIds(w: State) {
    forall id :: id in w.rows ==> id.n < w.nextId
  }

  /** The event type of a code that has one. */
  predicate IsType(code: int, eventType: string) {
    (code == 3 && eventType == "order") || (code == 4 && eventType == "logistics") || (code == 15 && eventType == "stock")
  }

  /**
   A signed order, logistics or stock event that is acknowledged is one more row of the outbox, due at once,
   and one more log entry that points to it; nothing else is inserted or overwritten.
   */
  lemma AcknowledgedIsInserted(w: State, req: Request, faults: Faults)
    requires FreshIds(w) && req.valid && req.body.Parsed? && req.body.code in {3, 4, 15}
    requires Receive(w, req, faults).1 == Acknowledged
    ensures var w' := Receive(w, req, faults).0;
            var id := OutboxId(w.nextId);
            && id !in w.rows && id in w'.rows && w'.rows == w.rows[id := w'.rows[id]] && FreshIds(w')
            && w'.log == w.log + [LogEntry(req.signature, true, Some(id))]
            && (var e := w'.rows[id];
                && e.eventCode == req.body.code && e.orderSn == req.body.orderSn && e.signature == req.signature
                && e.row.platform == "shopee" && IsType(req.body.code, e.row.eventType)
                && e.row.status == Pending && e.row.retryCount == 0 && e.row.maxRetries == 5
                && e.row.processAfter == w.now && e.row.createdAt == w.now && e.row.publishedAt.None?)
  {
  }

  /** No other request touches the outbox, and only signed ones with a body leave a nonce. */
  lemma OthersInsertNothing(w: State, req: Request, faults: Faults)
    requires !req.valid || req.body.Malformed? || req.body.code !in {3, 4, 15}
    ensures var (w', response) := Receive(w, req, faults);
            && w'.rows == w.rows
            && (response == Acknowledged ==> w'.log == w.log + [LogEntry(req.signature, req.valid, None)])
            && (!req.valid ==> response != Replay)
            && (!req.valid || req.body.Malformed? ==> w'.nonces == w.nonces)
  {
  }

  /** A request that dies before the commit, or is answered as a replay, changes nothing. */
  lemma NothingWithoutCommit(w: State, req: Request, faults: Faults)
    ensures faults.diesBefore || Receive(w, req, faults).1 == Replay ==> Receive(w, req, faults).0 == w
    ensures faults.diesBefore ==> Receive(w, req, faults).1 != Acknowledged
  {
  }

  const NO_FAULTS := Faults(false, false, false, false)

  /** Once acknowledged, a signed request is answered as a replay for five minutes, and not any longer. */
  lemma ReplayedForFiveMinutes(w: State, req: Request, faults: Faults, later: int)
    requires req.valid && req.body.Parsed? && req.signature != "" && later >= w.now
    requires Receive(w, req, faults).1 == Acknowledged && !faults.markRedisDown
    ensures var w' := Receive(w, req, faults).0.(now := later);
            Receive(w', req, NO_FAULTS).1 == if later < w.now + 300 then Replay else Acknowledged
  {
  }

  /** With Redis down a signed request is a replay exactly if the log has it, with its whole signature, as a signed one. */
  lemma LogDecidesWithoutRedis(w: State, req: Request, faults: Faults)
    requires req.valid && req.signature != "" && faults.checkRedisDown
    ensures Receive(w, req, faults).1 == Replay <==>
            exists i :: 0 <= i < |w.log| && w.log[i].signature == req.signature && w.log[i].valid
  {
  }

  // ------------------------------------------------------------------------------------------
  // Runs
  // ------------------------------------------------------------------------------------------

  datatype Event =
    | Tick(seconds: nat)
    | Arrives(req: Request, faults: Faults)
    | EvictNonce(prefix: string)            // Redis may lose any key
    | PruneLog(from: nat)                   // retention of the event log
    | ChangeRows(rows: Table)               // publishers, operators and clean-up

  /** The handler's state with a history that it does not keep itself. */
  datatype World = World(
    state: State,
    ingested: set<string>, // signatures of all rows that ever were in the outbox
    seen: set<Request>)    // signed requests that ever got into the event log

  function Signatures(rows: Table): set<string> {
    set id | id in rows :: rows[id].signature
  }

  /** Rows change and go, but none appears and none changes its signature. */
  predicate CanBecome(rows: Table, rows': Table) {
    forall id :: id in rows' ==> id in rows && rows'[id].signature == rows[id].signature
  }

  function StateAfter(w: State, e: Event): State {
    match e
    case Tick(seconds) => w.(now := w.now + seconds)
    case Arrives(req, faults) => Receive(w, req, faults).0
    case EvictNonce(prefix) => w.(nonces := Without(w.nonces, prefix))
    case PruneLog(from) => if from <= |w.log| then w.(log := w.log[from..]) else w
    case ChangeRows(rows) => if CanBecome(w.rows, rows) then w.(rows := rows) else w
  }

  /** The history is read off the tables. */
  function Step(h: World, e: Event): World {
    var w' := StateAfter(h.state, e);
    World(w', h.ingested + Signatures(w'.rows),
          if e.Arrives? && e.req.valid && |w'.log| > |h.state.log| then h.seen + {e.req} else h.seen)
  }

  function Run(h: World, events: seq<Event>): World
    decreases |events|
  {
    if events == [] then h else Run(Step(h, events[0]), events[1..])
  }

  function Init(now: int): World { World(State(now, map[], [], map[], 0), {}, {}) }

  /** What is said to be ingested was in the outbox at some moment of the run. */
  lemma {:induction false} IngestedWasInserted(h: World, events: seq<Event>, signature: string) returns (n: nat)
    requires signature in Run(h, events).ingested && signature !in h.ingested
    ensures n <= |events| && signature in Signatures(Run(h, events[..n]).state.rows)
    decreases |events|
  {
    var next := Step(h, events[0]);
    if signature in next.ingested {
      n := 1;
      assert events[..1][1..] == [] && Run(next, []) == next;
    } else {
      n := IngestedWasInserted(next, events[1..], signature);
      n := n + 1;
      assert events[..n][1..] == events[1..][..n - 1];
    }
  }

  /**
   The trace that the signed request `first` leaves does not make `second` look like a replay that was never
   ingested. A malformed request leaves its signature in the event log only, any other one also leaves
   the first 32 characters in a nonce; and one that is ingested vouches for its own signature.
   */
  predicate Harmless(first: Request, second: Request) {
    || second.signature == ""
    || (Known(first) && first.signature == second.signature)
    || (if first.body.Malformed? then first.signature != second.signature
        else Prefix(first.signature) != Prefix(second.signature))
  }

  /** What the signature scheme must give. */
  predicate Compatible(seen: set<Request>, req: Request) {
    forall r :: r in seen ==> Harmless(r, req)
  }

  /** Every trace a signed event leaves comes from a request that, if of a known type, was ingested. */
  ghost predicate Traced(h: World, signature: string, inNonce: bool) {
    exists r :: r in h.seen && (Known(r) ==> r.signature in h.ingested) &&
      (if inNonce then !r.body.Malformed? && Prefix(r.signature) == signature else r.signature == signature)
  }

  ghost predicate Inv(h: World) {
    && FreshIds(h.state)
    && (forall p :: p in h.state.nonces ==> Traced(h, p, true))
    && (forall i :: 0 <= i < |h.state.log| && h.state.log[i].valid ==> Traced(h, h.state.log[i].signature, false))
  }

  lemma TracesPersist(h: World, h': World, signature: string, inNonce: bool)
    requires Traced(h, signature, inNonce) && h.seen <= h'.seen && h.ingested <= h'.ingested
    ensures Traced(h', signature, inNonce)
  {
    var r :| r in h.seen && (Known(r) ==> r.signature in h.ingested) &&
             (if inNonce then !r.body.Malformed? && Prefix(r.signature) == signature else r.signature == signature);
    assert r in h'.seen;
  }

  lemma ReceiveKeepsInv(h: World, req: Request, faults: Faults)
    requires Inv(h)
    ensures Inv(Step(h, Arrives(req, faults)))
  {
    var h' := Step(h, Arrives(req, faults));
    var w, w' := h.state, h'.state;
    if w' != w {
      assert w'.log[..|w.log|] == w.log && |w'.log| == |w.log| + 1;
      if req.valid {
        if Known(req) {
          assert OutboxId(w.nextId) in w'.rows && w'.rows[OutboxId(w.nextId)].signature == req.signature;
        }
        assert req in h'.seen && (Known(req) ==> req.signature in h'.ingested);
        assert Traced(h', req.signature, false);
        assert !req.body.Malformed? ==> Traced(h', Prefix(req.signature), true);
      }
      forall p | p in w'.nonces
        ensures Traced(h', p, true)
      {
        if p in w.nonces {
          TracesPersist(h, h', p, true);
        }
      }
    }
    forall i | 0 <= i < |w'.log| && w'.log[i].valid
      ensures Traced(h', w'.log[i].signature, false)
    {
      if i < |w.log| {
        assert w'.log[i] == w.log[i];
        TracesPersist(h, h', w.log[i].signature, false);
      }
    }
    if w' == w {
      forall p | p in w'.nonces
        ensures Traced(h', p, true)
      {
        TracesPersist(h, h', p, true);
      }
    }
  }

  lemma OthersKeepInv(h: World, e: Event)
    requires Inv(h) && !e.Arrives?
    ensures Inv(Step(h, e))
  {
    var h' := Step(h, e);
    forall p | p in h'.state.nonces
      ensures Traced(h', p, true)
    {
      TracesPersist(h, h', p, true);
    }
    forall i | 0 <= i < |h'.state.log| && h'.state.log[i].valid
      ensures Traced(h', h'.state.log[i].signature, false)
    {
      var j := i + |h.state.log| - |h'.state.log|;
      assert h'.state.log[i] == h.state.log[j];
      TracesPersist(h, h', h.state.log[j].signature, false);
    }
  }

  lemma {:induction false} RunKeepsInv(h: World, events: seq<Event>)
    requires Inv(h)
    ensures Inv(Run(h, events))
    decreases |events|
  {
    if events != [] {
      match events[0] {
        case Arrives(req, faults) => ReceiveKeepsInv(h, req, faults);
        case _ => OthersKeepInv(h, events[0]);
      }
      RunKeepsInv(Step(h, events[0]), events[1..]);
    }
  }

  /**
   A signed request of a known type that gets an answer, `ok` or `replay`, is in the outbox, whatever failed
   on the way: `ok` means that its row is there now, `replay` that it was there before.
   */
  lemma AnsweredMeansIngested(start: int, events: seq<Event>, req: Request, faults: Faults)
    requires Compatible(Run(Init(start), events).seen, req) && req.valid && Known(req)
    ensures var h := Run(Init(start), events);
            var (w', response) := Receive(h.state, req, faults);
            && (response == Replay ==> req.signature in h.ingested)
            && (response == Acknowledged ==> req.signature in Signatures(w'.rows))
  {
    RunKeepsInv(Init(start), events);
    var h := Run(Init(start), events);
    var w := h.state;
    var (w', response) := Receive(w, req, faults);
    if response == Replay {
      if faults.checkRedisDown {
        var i :| 0 <= i < |w.log| && w.log[i].signature == req.signature && w.log[i].valid;
        assert Traced(h, w.log[i].signature, false);
      } else {
        assert Traced(h, Prefix(req.signature), true);
      }
    } else if response == Acknowledged {
      AcknowledgedIsInserted(w, req, faults);
      assert OutboxId(w.nextId) in w'.rows;
    }
  }

  /** Answered, `req` has been ingested. */
  predicate Ingests(h: World, req: Request, faults: Faults) {
    var (w', response) := Receive(h.state, req, faults);
    response != NoAnswer ==> req.signature in h.ingested + Signatures(w'.rows)
  }

  /** Without that property of signatures an event can be dropped: only 32 characters are compared. */
  lemma PrefixCollisionDropsEvent(h: World, first: Request, second: Request)
    requires first.valid && second.valid && Known(first) && Known(second) && first.signature != "" && second.signature != ""
    requires Prefix(first.signature) == Prefix(second.signature) && first.signature != second.signature
    requires second.signature !in h.ingested + Signatures(h.state.rows) && FreshIds(h.state)
    requires !IsReplay(h.state, first.signature, false)
    ensures var h1 := Step(h, Arrives(first, NO_FAULTS));
            Receive(h1.state, second, NO_FAULTS).1 == Replay && second.signature !in h1.ingested
  {
    AcknowledgedIsInserted(h.state, first, NO_FAULTS);
  }

  /** Every signed request of the run is one of these. */
  predicate OnlyFrom(events: seq<Event>, reqs: set<Request>) {
    forall i :: 0 <= i < |events| && events[i].Arrives? && events[i].req.valid ==> events[i].req in reqs
  }

  lemma {:induction false} SeenFrom(h: World, events: seq<Event>, reqs: set<Request>)
    requires OnlyFrom(events, reqs) && h.seen <= reqs
    ensures Run(h, events).seen <= reqs
    decreases |events|
  {
    if events != [] {
      SeenFrom(Step(h, events[0]), events[1..], reqs);
    }
  }

  /** Nothing that happens to these requests, in any order, any number of times and with any faults, makes `req` get lost. */
  ghost predicate NeverLost(reqs: set<Request>, req: Request) {
    forall start: int, events, faults :: OnlyFrom(events, reqs) ==> Ingests(Run(Init(start), events), req, faults)
  }

  /** With Redis down the event log is asked, which also knows malformed requests. */
  function LosingFaults(first: Request): Faults {
    Faults(first.body.Malformed?, false, false, false)
  }

  lemma EmptyPrefix(a: string, b: string)
    requires Prefix(a) == Prefix(b)
    ensures a == "" <==> b == ""
  {
    assert |Prefix(a)| == if |a| <= 32 then |a| else 32;
    assert |Prefix(b)| == if |b| <= 32 then |b| else 32;
  }

  lemma HarmfulDrops(first: Request, second: Request)
    requires first.valid && second.valid && Known(second) && !Harmless(first, second)
    ensures !Ingests(Run(Init(0), [Arrives(first, NO_FAULTS)]), second, LosingFaults(first))
  {
    var once := [Arrives(first, NO_FAULTS)];
    var h := Run(Init(0), once);
    assert h == Step(Init(0), once[0]) by {
      assert once[1..] == [] && Run(Step(Init(0), once[0]), []) == Step(Init(0), once[0]);
    }
    var w := h.state;
    assert second.signature !in h.ingested by {
      assert forall id :: id in w.rows ==> w.rows[id].signature == first.signature && Known(first);
    }
    EmptyPrefix(first.signature, second.signature);
    if first.body.Malformed? {
      assert w.log[0] == LogEntry(first.signature, true, None) && InLog(w.log, second.signature);
    }
    assert Receive(w, second, LosingFaults(first)) == (w, Replay);
  }

  /** Any set of signed requests never makes a signed known one get lost exactly if each of them is harmless to it. */
  lemma NeverLostExactly(reqs: set<Request>, req: Request)
    requires req.valid && Known(req) && forall r :: r in reqs ==> r.valid
    ensures NeverLost(reqs, req) <==> forall r :: r in reqs ==> Harmless(r, req)
  {
    if r :| r in reqs && !Harmless(r, req) {
      assert OnlyFrom([Arrives(r, NO_FAULTS)], reqs);
      HarmfulDrops(r, req);
    } else {
      forall start: int, events, faults | OnlyFrom(events, reqs)
        ensures Ingests(Run(Init(start), events), req, faults)
      {
        SeenFrom(Init(start), events, reqs);
        AnsweredMeansIngested(start, events, req, faults);
      }
    }
  }
}
