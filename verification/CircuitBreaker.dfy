/**
 The per-process circuit breaker. `call` is two locked steps around an unlocked one, so the results of
 calls that were admitted in one state are recorded in another: a run is any sequence of admissions
 and recordings, in the order of their clock readings.
 */
module CircuitBreaker {
  import opened Common

  datatype Mode = Closed | Open | HalfOpen

  datatype Config = Config(failureThreshold: int, rollingWindow: int, openTimeout: int, halfOpenSuccessRequired: int) {
    /** What the breakers of the repository satisfy. */
    predicate Sensible() {
      failureThreshold >= 1 && rollingWindow >= 1 && halfOpenSuccessRequired >= 1
    }
  }

  datatype Breaker = Breaker(mode: Mode, failures: seq<int>, openedAt: Option<int>, halfOpenPasses: int)

  const INITIAL := Breaker(Closed, [], None, 0)

  /** The failures less than a window old. */
  function Recent(failures: seq<int>, now: int, window: int): (r: seq<int>)
    ensures |r| <= |failures|
    decreases |failures|
  {
    if failures == [] then []
    else
      var n := |failures| - 1;
      Recent(failures[..n], now, window) + (if now - failures[n] < window then [failures[n]] else [])
  }

  // ------------------------------------------------------------------------------------------
  // The locked steps
  // ------------------------------------------------------------------------------------------

  /** `_maybe_transition_to_half_open`. */
  function MaybeHalfOpen(b: Breaker, cfg: Config, now: int): Breaker {
    if b.mode == Open && b.openedAt.Some? && now - b.openedAt.value >= cfg.openTimeout
    then b.(mode := HalfOpen, halfOpenPasses := 0)
    else b
  }

  predicate Admitted(b: Breaker, cfg: Config, now: int) {
    MaybeHalfOpen(b, cfg, now).mode != Open
  }

  predicate Trips(b: Breaker, cfg: Config, now: int) {
    b.mode == HalfOpen || |Recent(b.failures, now, cfg.rollingWindow)| + 1 >= cfg.failureThreshold
  }

  /** `_record_failure`. */
  function Failed(b: Breaker, cfg: Config, now: int): Breaker {
    var counted := b.(failures := Recent(b.failures, now, cfg.rollingWindow) + [now]);
    if Trips(b, cfg, now) then counted.(mode := Open, openedAt := Some(now)) else counted
  }

  /** `_record_success`. */
  function Succeeded(b: Breaker, cfg: Config): Breaker {
    match b.mode
    case HalfOpen =>
      if b.halfOpenPasses + 1 >= cfg.halfOpenSuccessRequired then INITIAL
      else b.(halfOpenPasses := b.halfOpenPasses + 1)
    case Closed => b.(failures := [])
    case Open => b
  }

  datatype CallResult = Rejected | Raised | Returned

  class CircuitBreaker {
    const cfg: Config
    var state: Mode
    var failures: seq<int>
    var openedAt: Option<int>
    var halfOpenPasses: int

    function View(): Breaker
      reads this
    {
      Breaker(state, failures, openedAt, halfOpenPasses)
    }

    constructor (cfg: Config)
      ensures this.cfg == cfg && View() == INITIAL
    {
      this.cfg := cfg;
      state, failures, openedAt, halfOpenPasses := Closed, [], None, 0;
    }

    method MaybeTransitionToHalfOpen(now: int)
      modifies this
      ensures View() == MaybeHalfOpen(old(View()), cfg, now)
    {
      if state != Open || openedAt == None {
        return;
      }
      if now - openedAt.value >= cfg.openTimeout {
        state := HalfOpen;
        halfOpenPasses := 0;
      }
    }

    method OpenAt(now: int)
      modifies this`state, this`openedAt
      ensures state == Open && openedAt == Some(now)
    {
      state := Open;
      openedAt := Some(now);
    }

    method Close()
      modifies this
      ensures View() == INITIAL
    {
      state := Closed;
      failures := [];
      openedAt := None;
      halfOpenPasses := 0;
    }

    method RecordFailure(now: int)
      modifies this
      ensures View() == Failed(old(View()), cfg, now)
    {
      var kept: seq<int> := [];
      for i := 0 to |failures|
        invariant failures == old(failures) && kept == Recent(failures[..i], now, cfg.rollingWindow)
      {
        assert failures[..i + 1][..i] == failures[..i];
        if now - failures[i] < cfg.rollingWindow {
          kept := kept + [failures[i]];
        }
      }
      assert failures[..|failures|] == failures;
      failures := kept;
      failures := failures + [now];
      if state == HalfOpen || |failures| >= cfg.failureThreshold {
        OpenAt(now);
      }
    }

    method RecordSuccess()
      modifies this
      ensures View() == Succeeded(old(View()), cfg)
    {
      if state == HalfOpen {
        halfOpenPasses := halfOpenPasses + 1;
        if halfOpenPasses >= cfg.halfOpenSuccessRequired {
          Close();
        }
      } else if state == Closed {
        failures := [];
      }
    }

    /** One call that no other call overlaps. */
    method Call(admitTime: int, raises: bool, recordTime: int) returns (result: CallResult)
      modifies this
      ensures result == if !Admitted(old(View()), cfg, admitTime) then Rejected else if raises then Raised else Returned
      ensures var asked := MaybeHalfOpen(old(View()), cfg, admitTime);
              View() == match result
                        case Rejected => asked
                        case Raised => Failed(asked, cfg, recordTime)
                        case Returned => Succeeded(asked, cfg)
    {
      MaybeTransitionToHalfOpen(admitTime);
      if state == Open {
        return Rejected;
      }
      if raises {
        RecordFailure(recordTime);
        return Raised;
      }
      RecordSuccess();
      return Returned;
    }
  }

  // ------------------------------------------------------------------------------------------
  // Runs
  // ------------------------------------------------------------------------------------------

  datatype Event = Ask(time: int) | Failure(time: int) | Success(time: int)

  function Step(b: Breaker, cfg: Config, e: Event): Breaker {
    match e
    case Ask(t) => MaybeHalfOpen(b, cfg, t)
    case Failure(t) => Failed(b, cfg, t)
    case Success(_) => Succeeded(b, cfg)
  }

  function Run(cfg: Config, events: seq<Event>): Breaker
    decreases |events|
  {
    if events == [] then INITIAL
    else
      var n := |events| - 1;
      Step(Run(cfg, events[..n]), cfg, events[n])
  }

  predicate Ordered(events: seq<Event>) {
    forall i, j :: 0 <= i < j < |events| ==> events[i].time <= events[j].time
  }

  /** Event i is a failure that opens the circuit, anew or again. */
  predicate TripAt(cfg: Config, events: seq<Event>, i: nat)
    requires i < |events|
  {
    events[i].Failure? && Trips(Run(cfg, events[..i]), cfg, events[i].time)
  }

  predicate RejectedAt(cfg: Config, events: seq<Event>, i: nat)
    requires i < |events|
  {
    events[i].Ask? && !Admitted(Run(cfg, events[..i]), cfg, events[i].time)
  }

  /** Between steps: CLOSED exactly when no opening time is kept, and both counters below their limits. */
  predicate Consistent(b: Breaker, cfg: Config) {
    && (b.mode == Closed <==> b.openedAt.None?)
    && (b.mode == Closed ==> |b.failures| < cfg.failureThreshold)
    && (b.mode == HalfOpen ==> 0 <= b.halfOpenPasses < cfg.halfOpenSuccessRequired)
  }

  lemma {:induction false} RunIsConsistent(cfg: Config, events: seq<Event>)
    requires cfg.Sensible()
    ensures Consistent(Run(cfg, events), cfg)
    decreases |events|
  {
    if events != [] {
      RunIsConsistent(cfg, events[..|events| - 1]);
    }
  }

  // ------------------------------------------------------------------------------------------
  // Cooldown
  // ------------------------------------------------------------------------------------------

  /** Since a trip at time t: still open, or a full timeout has passed. */
  lemma {:induction false} CooldownHolds(cfg: Config, events: seq<Event>, trip: nat)
    requires Ordered(events) && trip < |events| && TripAt(cfg, events, trip)
    requires events[|events| - 1].time < events[trip].time + cfg.openTimeout
    ensures var b := Run(cfg, events);
            b.mode == Open && b.openedAt.Some? && b.openedAt.value >= events[trip].time
    decreases |events|
  {
    var n := |events| - 1;
    if trip < n {
      assert events[..n][..trip] == events[..trip];
      assert events[n - 1].time <= events[n].time;
      CooldownHolds(cfg, events[..n], trip);
    }
  }

  /** The opening time that is kept is the time of some trip. */
  lemma {:induction false} OpenedByTrip(cfg: Config, events: seq<Event>) returns (trip: nat)
    requires Run(cfg, events).openedAt.Some?
    ensures trip < |events| && TripAt(cfg, events, trip) && events[trip].time == Run(cfg, events).openedAt.value
    decreases |events|
  {
    var n := |events| - 1;
    var before := Run(cfg, events[..n]);
    if events[n].Failure? && Trips(before, cfg, events[n].time) {
      trip := n;
    } else {
      trip := OpenedByTrip(cfg, events[..n]);
      assert events[..n][..trip] == events[..trip];
    }
  }

  lemma {:induction false} OpenHasTime(cfg: Config, events: seq<Event>)
    ensures Run(cfg, events).mode != Closed ==> Run(cfg, events).openedAt.Some?
    decreases |events|
  {
    if events != [] {
      OpenHasTime(cfg, events[..|events| - 1]);
    }
  }

  lemma LatestTrip(cfg: Config, events: seq<Event>, i: nat, j: nat)
    requires i < |events| && j < i && events[i].Ask? && events[i].time < events[j].time + cfg.openTimeout
    requires var b := Run(cfg, events[..i]); b.mode == Open && b.openedAt.Some? && b.openedAt.value >= events[j].time
    ensures RejectedAt(cfg, events, i)
  {
  }

  /**
   For every interleaving: a call is rejected exactly when some failure tripped the circuit less than
   `open_timeout` before it. Late successes do not shorten this, later trips only extend it.
   */
  lemma RejectedExactlyDuringCooldown(cfg: Config, events: seq<Event>, i: nat)
    requires Ordered(events) && i < |events| && events[i].Ask?
    ensures RejectedAt(cfg, events, i) <==>
            exists j: nat :: j < i && TripAt(cfg, events, j) && events[i].time < events[j].time + cfg.openTimeout
  {
    var before := events[..i];
    if RejectedAt(cfg, events, i) {
      var openedAt := Run(cfg, before).openedAt;
      if openedAt.None? {
        OpenHasTime(cfg, before);
      }
      var trip := OpenedByTrip(cfg, before);
      assert before[..trip] == events[..trip];
    }
    forall j: nat | j < i && TripAt(cfg, events, j) && events[i].time < events[j].time + cfg.openTimeout
      ensures RejectedAt(cfg, events, i)
    {
      assert before[..j] == events[..j];
      assert before[|before| - 1].time <= events[i].time;
      CooldownHolds(cfg, before, j);
      LatestTrip(cfg, events, i, j);
    }
  }

  /** A registered breaker. */
  datatype Entry = Entry(service: string, cfg: Config)

  type Registry = seq<Entry>

  function Registered(registry: Registry, service: string): Option<Config> {
    if registry == [] then None
    else if registry[0].service == service then Some(registry[0].cfg)
    else Registered(registry[1..], service)
  }

  function LongestTimeout(registry: Registry): (longest: int)
    requires registry != []
    ensures forall i :: 0 <= i < |registry| ==> registry[i].cfg.openTimeout <= longest
  {
    if |registry| == 1 then registry[0].cfg.openTimeout
    else
      var rest := LongestTimeout(registry[1..]);
      assert forall i :: 1 <= i < |registry| ==> registry[i] == registry[1..][i - 1];
      if registry[0].cfg.openTimeout > rest then registry[0].cfg.openTimeout else rest
  }

  /** `circuit_retry_countdown`: the named breaker's timeout, or the longest one for an unknown service. */
  function RetryCountdown(registry: Registry, service: Option<string>): int
    requires registry != []
  {
    if service.Some? && service.value != "" && Registered(registry, service.value).Some?
    then Registered(registry, service.value).value.openTimeout + 5
    else LongestTimeout(registry) + 5
  }

  lemma LaterIsAdmitted(cfg: Config, events: seq<Event>, first: nat, retry: nat)
    requires Ordered(events) && first < retry < |events|
    requires RejectedAt(cfg, events, first) && events[retry].Ask?
    requires events[retry].time >= events[first].time + cfg.openTimeout
    requires forall j: nat :: first < j < retry ==> !TripAt(cfg, events, j)
    ensures !RejectedAt(cfg, events, retry)
  {
    RejectedExactlyDuringCooldown(cfg, events, retry);
    forall j: nat | j < retry && TripAt(cfg, events, j)
      ensures events[j].time + cfg.openTimeout <= events[retry].time
    {
      assert events[first].Ask? && j != first;
      assert j < first;
      assert events[j].time <= events[first].time;
    }
  }

  /** The first entry of that name. */
  predicate Names(registry: Registry, i: int, service: string) {
    0 <= i < |registry| && registry[i].service == service && forall j :: 0 <= j < i ==> registry[j].service != service
  }

  lemma {:induction false} RegisteredAt(registry: Registry, service: string) returns (i: nat)
    requires Registered(registry, service).Some?
    ensures Names(registry, i, service) && registry[i].cfg == Registered(registry, service).value
    decreases |registry|
  {
    i := 0;
    if registry[0].service != service {
      i := RegisteredAt(registry[1..], service);
      i := i + 1;
    }
  }

  lemma {:induction false} LongestAt(registry: Registry) returns (i: nat)
    requires registry != []
    ensures i < |registry| && registry[i].cfg.openTimeout == LongestTimeout(registry)
    decreases |registry|
  {
    i := 0;
    if |registry| > 1 && registry[0].cfg.openTimeout <= LongestTimeout(registry[1..]) {
      i := LongestAt(registry[1..]);
      i := i + 1;
    }
  }

  /** A known service waits for its own breaker and five seconds more, any other for the slowest breaker. */
  lemma CountdownIs(registry: Registry, service: Option<string>)
    requires registry != []
    ensures var wait := RetryCountdown(registry, service) - 5;
            if service.Some? && service.value != "" && Registered(registry, service.value).Some? then
              exists i :: Names(registry, i, service.value) && wait == registry[i].cfg.openTimeout
            else
              && (exists i :: 0 <= i < |registry| && wait == registry[i].cfg.openTimeout)
              && (forall i :: 0 <= i < |registry| ==> registry[i].cfg.openTimeout <= wait)
  {
    if service.Some? && Registered(registry, service.value).Some? {
      var i := RegisteredAt(registry, service.value);
    }
    var j := LongestAt(registry);
  }

  lemma CountdownCovers(registry: Registry, service: Option<string>, own: Entry)
    requires own in registry
    requires service.Some? && Registered(registry, service.value).Some? ==> Registered(registry, service.value).value == own.cfg
    ensures RetryCountdown(registry, service) >= own.cfg.openTimeout + 5
  {
  }

  /**
   A call rejected by a registered breaker and retried after the countdown is admitted unless a failure
   tripped the circuit meanwhile, whether the error named the breaker or no known service.
   */
  lemma RetryIsAdmitted(
    registry: Registry, service: Option<string>, own: Entry, events: seq<Event>, first: nat, retry: nat)
    requires own in registry
    requires service.Some? && Registered(registry, service.value).Some? ==> Registered(registry, service.value).value == own.cfg
    requires Ordered(events) && first < retry < |events|
    requires RejectedAt(own.cfg, events, first) && events[retry].Ask?
    requires events[retry].time >= events[first].time + RetryCountdown(registry, service)
    requires forall j: nat :: first < j < retry ==> !TripAt(own.cfg, events, j)
    ensures !RejectedAt(own.cfg, events, retry)
  {
    CountdownCovers(registry, service, own);
    LaterIsAdmitted(own.cfg, events, first, retry);
  }

  // ------------------------------------------------------------------------------------------
  // The pruned list against the full history
  // ------------------------------------------------------------------------------------------

  /** The breaker with the failures since the last clear kept in full. */
  function ReferenceStep(b: Breaker, cfg: Config, e: Event): Breaker {
    match e
    case Failure(t) =>
      var counted := b.(failures := b.failures + [t]);
      if b.mode == HalfOpen || |Recent(counted.failures, t, cfg.rollingWindow)| >= cfg.failureThreshold
      then counted.(mode := Open, openedAt := Some(t)) else counted
    case _ => Step(b, cfg, e)
  }

  function ReferenceRun(cfg: Config, events: seq<Event>): Breaker
    decreases |events|
  {
    if events == [] then INITIAL
    else
      var n := |events| - 1;
      ReferenceStep(ReferenceRun(cfg, events[..n]), cfg, events[n])
  }

  lemma RecentAppend(failures: seq<int>, t: int, now: int, window: int)
    ensures Recent(failures + [t], now, window) == Recent(failures, now, window) + (if now - t < window then [t] else [])
  {
    assert (failures + [t])[..|failures|] == failures;
  }

  /** What was pruned at one moment is out of the window at every later one. */
  lemma {:induction false} PruneTwice(failures: seq<int>, then_: int, now: int, window: int)
    requires then_ <= now
    ensures Recent(Recent(failures, then_, window), now, window) == Recent(failures, now, window)
    decreases |failures|
  {
    if failures != [] {
      var n := |failures| - 1;
      PruneTwice(failures[..n], then_, now, window);
      var kept := Recent(failures[..n], then_, window);
      RecentAppend(kept, failures[n], now, window);
      assert Recent(kept, now, window) + [] == Recent(kept, now, window) && kept + [] == kept;
    }
  }

  /** The same failures are in the window at every moment from `last` on. */
  ghost predicate SameWindows(pruned: seq<int>, full: seq<int>, window: int, last: int) {
    forall t :: t >= last ==> Recent(pruned, t, window) == Recent(full, t, window)
  }

  /** The two agree on everything but pruned failures, which no decision from `last` on can see. */
  ghost predicate Agrees(b: Breaker, full: Breaker, cfg: Config, last: int) {
    && b.mode == full.mode && b.openedAt == full.openedAt && b.halfOpenPasses == full.halfOpenPasses
    && SameWindows(b.failures, full.failures, cfg.rollingWindow, last)
  }

  lemma AppendAgrees(pruned: seq<int>, full: seq<int>, t: int, now: int, window: int)
    requires t <= now && Recent(pruned, now, window) == Recent(full, now, window)
    ensures Recent(Recent(pruned, t, window) + [t], now, window) == Recent(full + [t], now, window)
  {
    RecentAppend(Recent(pruned, t, window), t, now, window);
    RecentAppend(full, t, now, window);
    PruneTwice(pruned, t, now, window);
  }

  lemma AppendKeepsWindows(pruned: seq<int>, full: seq<int>, window: int, last: int, t: int)
    requires SameWindows(pruned, full, window, last) && last <= t && window >= 1
    ensures SameWindows(Recent(pruned, t, window) + [t], full + [t], window, t)
    ensures |Recent(pruned, t, window)| + 1 == |Recent(full + [t], t, window)|
  {
    RecentAppend(full, t, t, window);
    forall now | now >= t
      ensures Recent(Recent(pruned, t, window) + [t], now, window) == Recent(full + [t], now, window)
    {
      AppendAgrees(pruned, full, t, now, window);
    }
  }

  lemma StepAgrees(b: Breaker, full: Breaker, cfg: Config, last: int, e: Event)
    requires Agrees(b, full, cfg, last) && last <= e.time && cfg.rollingWindow >= 1
    ensures Agrees(Step(b, cfg, e), ReferenceStep(full, cfg, e), cfg, e.time)
  {
    if e.Failure? {
      AppendKeepsWindows(b.failures, full.failures, cfg.rollingWindow, last, e.time);
    }
  }

  /** Refinement: pruning never changes a state, an opening time or an admission. */
  lemma {:induction false} PruningIsInvisible(cfg: Config, events: seq<Event>)
    requires Ordered(events) && cfg.rollingWindow >= 1
    ensures var last := if events == [] then 0 else events[|events| - 1].time;
            Agrees(Run(cfg, events), ReferenceRun(cfg, events), cfg, last)
    decreases |events|
  {
    if events != [] {
      var n := |events| - 1;
      PruningIsInvisible(cfg, events[..n]);
      if n > 0 {
        StepAgrees(Run(cfg, events[..n]), ReferenceRun(cfg, events[..n]), cfg, events[n - 1].time, events[n]);
      } else {
        StepAgrees(INITIAL, INITIAL, cfg, events[0].time, events[0]);
      }
    }
  }

  /** A success that empties the failure list: recorded while CLOSED, or the one that closes. */
  predicate Clears(b: Breaker, cfg: Config, e: Event) {
    e.Success? && (b.mode == Closed || (b.mode == HalfOpen && b.halfOpenPasses + 1 >= cfg.halfOpenSuccessRequired))
  }

  /** The failures recorded since the last clearing success, read off the run. */
  function FailuresSinceClear(cfg: Config, events: seq<Event>): seq<int>
    decreases |events|
  {
    if events == [] then []
    else
      var n := |events| - 1;
      if Clears(Run(cfg, events[..n]), cfg, events[n]) then []
      else FailuresSinceClear(cfg, events[..n]) + (if events[n].Failure? then [events[n].time] else [])
  }

  lemma {:induction false} HistoryIsKept(cfg: Config, events: seq<Event>)
    requires Ordered(events) && cfg.rollingWindow >= 1
    ensures ReferenceRun(cfg, events).failures == FailuresSinceClear(cfg, events)
    decreases |events|
  {
    if events != [] {
      var n := |events| - 1;
      HistoryIsKept(cfg, events[..n]);
      PruningIsInvisible(cfg, events[..n]);
    }
  }

  lemma FailureAfter(b: Breaker, full: Breaker, cfg: Config, last: int, t: int)
    requires Agrees(b, full, cfg, last) && b.mode == Closed && (last <= t || b == full == INITIAL)
    ensures Failed(b, cfg, t).mode == Open <==> |Recent(full.failures, t, cfg.rollingWindow)| + 1 >= cfg.failureThreshold
  {
    if last <= t {
      assert Recent(b.failures, t, cfg.rollingWindow) == Recent(full.failures, t, cfg.rollingWindow);
    }
  }

  /**
   From CLOSED a failure opens the circuit exactly when, with it, `failure_threshold` failures since the
   last recorded success or close lie in the window.
   */
  lemma OpensExactlyAtThreshold(cfg: Config, events: seq<Event>, t: int)
    requires Ordered(events + [Failure(t)]) && cfg.rollingWindow >= 1 && Run(cfg, events).mode == Closed
    ensures Run(cfg, events + [Failure(t)]).mode == Open <==>
            |Recent(FailuresSinceClear(cfg, events) + [t], t, cfg.rollingWindow)| >= cfg.failureThreshold
  {
    var all := events + [Failure(t)];
    assert all[..|events|] == events && all[|events|] == Failure(t);
    assert forall i :: 0 <= i < |events| ==> events[i] == all[i] && all[i].time <= t;
    PruningIsInvisible(cfg, events);
    HistoryIsKept(cfg, events);
    FailureAfter(Run(cfg, events), ReferenceRun(cfg, events), cfg, if events == [] then 0 else events[|events| - 1].time, t);
    RecentAppend(FailuresSinceClear(cfg, events), t, t, cfg.rollingWindow);
  }

  // ------------------------------------------------------------------------------------------
  // HALF_OPEN
  // ------------------------------------------------------------------------------------------

  /** Unlike in the state diagram, any number of calls are admitted in HALF_OPEN until an outcome is recorded. */
  lemma {:induction false} HalfOpenAdmitsEveryCall(cfg: Config, events: seq<Event>, asks: seq<Event>)
    requires Run(cfg, events).mode == HalfOpen
    requires forall i :: 0 <= i < |asks| ==> asks[i].Ask?
    ensures Run(cfg, events + asks) == Run(cfg, events)
    ensures forall i :: |events| <= i < |events + asks| ==> !RejectedAt(cfg, events + asks, i)
    decreases |asks|
  {
    var all := events + asks;
    if asks == [] {
      assert all == events;
    } else {
      var n := |asks| - 1;
      var before := events + asks[..n];
      HalfOpenAdmitsEveryCall(cfg, events, asks[..n]);
      assert all[..|all| - 1] == before && all[|all| - 1] == asks[n];
      forall i | |events| <= i < |all|
        ensures !RejectedAt(cfg, all, i)
      {
        if i < |before| {
          assert !RejectedAt(cfg, before, i) && all[i] == before[i];
          assert all[..i] == before[..i];
        }
      }
    }
  }

  function Zeros(k: nat): (times: seq<int>)
    ensures |times| == k
  {
    if k == 0 then [] else Zeros(k - 1) + [0]
  }

  lemma {:induction false} RecentZeros(k: nat, window: int)
    requires window >= 1
    ensures Recent(Zeros(k), 0, window) == Zeros(k)
  {
    if k > 0 {
      RecentZeros(k - 1, window);
      RecentAppend(Zeros(k - 1), 0, 0, window);
    }
  }

  /** Calls that were let through so far. */
  function Admissions(cfg: Config, events: seq<Event>): nat
    decreases |events|
  {
    if events == [] then 0
    else
      var n := |events| - 1;
      Admissions(cfg, events[..n]) + (if events[n].Ask? && Admitted(Run(cfg, events[..n]), cfg, events[n].time) then 1 else 0)
  }

  /** Outcomes recorded so far. */
  function Outcomes(events: seq<Event>): nat
    decreases |events|
  {
    if events == [] then 0
    else
      var n := |events| - 1;
      Outcomes(events[..n]) + (if events[n].Ask? then 0 else 1)
  }

  /** At no moment are there more outcomes than admitted calls. */
  predicate Genuine(cfg: Config, events: seq<Event>)
    decreases |events|
  {
    events == [] || (Genuine(cfg, events[..|events| - 1]) && Outcomes(events) <= Admissions(cfg, events))
  }

  lemma RunNext(cfg: Config, events: seq<Event>, e: Event)
    ensures Run(cfg, events + [e]) == Step(Run(cfg, events), cfg, e)
  {
    assert (events + [e])[..|events|] == events;
  }

  lemma GenuineNext(cfg: Config, events: seq<Event>, e: Event)
    requires Genuine(cfg, events)
    ensures Admissions(cfg, events + [e]) ==
            Admissions(cfg, events) + (if e.Ask? && Admitted(Run(cfg, events), cfg, e.time) then 1 else 0)
    ensures Outcomes(events + [e]) == Outcomes(events) + (if e.Ask? then 0 else 1)
    ensures Genuine(cfg, events + [e]) <==> Outcomes(events + [e]) <= Admissions(cfg, events + [e])
  {
    assert (events + [e])[..|events|] == events;
  }

  lemma {:induction false} AsksAreGenuine(cfg: Config, events: seq<Event>, asks: seq<Event>)
    requires Genuine(cfg, events) && Outcomes(events) <= Admissions(cfg, events)
    requires forall i :: 0 <= i < |asks| ==> asks[i].Ask?
    ensures Genuine(cfg, events + asks) && Outcomes(events + asks) <= Admissions(cfg, events + asks)
    decreases |asks|
  {
    if asks == [] {
      assert events + asks == events;
    } else {
      var n := |asks| - 1;
      AsksAreGenuine(cfg, events, asks[..n]);
      GenuineNext(cfg, events + asks[..n], asks[n]);
      assert events + asks == (events + asks[..n]) + [asks[n]];
    }
  }

  /** `k` calls one after the other, all failing. */
  function FailingCalls(k: nat): (events: seq<Event>)
    ensures |events| == 2 * k && forall i :: 0 <= i < |events| ==> events[i] == Ask(0) || events[i] == Failure(0)
  {
    if k == 0 then [] else FailingCalls(k - 1) + [Ask(0)] + [Failure(0)]
  }

  /** The breaker after `k` failures at once. */
  function AfterFailures(cfg: Config, k: nat): Breaker {
    if k < cfg.failureThreshold then Breaker(Closed, Zeros(k), None, 0) else Breaker(Open, Zeros(k), Some(0), 0)
  }

  lemma FailureCounts(cfg: Config, k: nat)
    requires cfg.Sensible() && k < cfg.failureThreshold
    ensures Failed(AfterFailures(cfg, k), cfg, 0) == AfterFailures(cfg, k + 1)
  {
    RecentZeros(k, cfg.rollingWindow);
  }

  /** The outcomes of the calls that were let through are all recorded. */
  predicate Settled(cfg: Config, events: seq<Event>) {
    Genuine(cfg, events) && Outcomes(events) == Admissions(cfg, events)
  }

  lemma OneMoreFailure(cfg: Config, before: seq<Event>, k: nat)
    requires cfg.Sensible() && k < cfg.failureThreshold
    requires Run(cfg, before) == AfterFailures(cfg, k) && Settled(cfg, before)
    ensures var after := before + [Ask(0)] + [Failure(0)];
            Run(cfg, after) == AfterFailures(cfg, k + 1) && Settled(cfg, after)
  {
    RunNext(cfg, before, Ask(0));
    GenuineNext(cfg, before, Ask(0));
    RunNext(cfg, before + [Ask(0)], Failure(0));
    GenuineNext(cfg, before + [Ask(0)], Failure(0));
    FailureCounts(cfg, k);
  }

  lemma {:induction false} FailuresTrip(cfg: Config, k: nat)
    requires cfg.Sensible() && k <= cfg.failureThreshold
    ensures Run(cfg, FailingCalls(k)) == AfterFailures(cfg, k) && Settled(cfg, FailingCalls(k))
  {
    if k > 0 {
      FailuresTrip(cfg, k - 1);
      OneMoreFailure(cfg, FailingCalls(k - 1), k - 1);
    }
  }

  /** The first call after the timeout finds the circuit half open. */
  lemma TimeoutHalfOpens(cfg: Config, trip: seq<Event>, k: nat, later: int)
    requires Run(cfg, trip) == Breaker(Open, Zeros(k), Some(0), 0) && Settled(cfg, trip) && later >= cfg.openTimeout
    ensures var events := trip + [Ask(later)];
            Run(cfg, events).mode == HalfOpen && Genuine(cfg, events) && Outcomes(events) <= Admissions(cfg, events)
  {
    RunNext(cfg, trip, Ask(later));
    GenuineNext(cfg, trip, Ask(later));
  }

  lemma LateAsksAreOrdered(trip: seq<Event>, asks: seq<Event>, later: int)
    requires later >= 0 && forall i :: 0 <= i < |trip| ==> trip[i].time == 0
    requires forall i :: 0 <= i < |asks| ==> asks[i].time == later
    ensures Ordered(trip + [Ask(later)] + asks)
  {
    var all := trip + [Ask(later)] + asks;
    assert forall i :: 0 <= i < |all| ==> all[i].time == if i < |trip| then 0 else later;
  }

  /** Every breaker gets to HALF_OPEN in a run of its calls, and then admits any number of calls at once. */
  lemma HalfOpenIsReached(cfg: Config, n: nat) returns (events: seq<Event>, asks: seq<Event>)
    requires cfg.Sensible()
    ensures |asks| == n && Ordered(events + asks) && Genuine(cfg, events + asks)
    ensures Run(cfg, events + asks).mode == HalfOpen
    ensures forall i :: 0 <= i < n ==> asks[i].Ask?
    ensures forall i :: |events| <= i < |events + asks| ==> !RejectedAt(cfg, events + asks, i)
  {
    var later := if cfg.openTimeout > 0 then cfg.openTimeout else 0;
    var trip := FailingCalls(cfg.failureThreshold);
    events := trip + [Ask(later)];
    asks := seq(n, i => Ask(later));
    FailuresTrip(cfg, cfg.failureThreshold);
    TimeoutHalfOpens(cfg, trip, cfg.failureThreshold, later);
    HalfOpenAdmitsEveryCall(cfg, events, asks);
    AsksAreGenuine(cfg, events, asks);
    LateAsksAreOrdered(trip, asks, later);
  }

  // ------------------------------------------------------------------------------------------
  // Recovery
  // ------------------------------------------------------------------------------------------

  predicate AllSuccesses(events: seq<Event>) {
    forall i :: 0 <= i < |events| ==> events[i].Success?
  }

  /** The first call after the timeout starts the count of successes anew. */
  lemma TimeoutStartsCount(cfg: Config, events: seq<Event>, time: int)
    requires var b := Run(cfg, events);
             b.mode == Open && b.openedAt.Some? && time >= b.openedAt.value + cfg.openTimeout
    ensures var b := Run(cfg, events + [Ask(time)]);
            b.mode == HalfOpen && b.halfOpenPasses == 0 && b.openedAt == Run(cfg, events).openedAt
  {
    RunNext(cfg, events, Ask(time));
  }

  /**
   From HALF_OPEN successes in a row close the circuit exactly when there are `halfOpenSuccessRequired` of
   them; it is then as if it had never failed, and further successes keep it so.
   */
  lemma {:induction false} SuccessesClose(cfg: Config, events: seq<Event>, successes: seq<Event>)
    requires cfg.Sensible() && AllSuccesses(successes)
    requires Run(cfg, events).mode == HalfOpen && Run(cfg, events).halfOpenPasses == 0
    ensures var b := Run(cfg, events + successes);
            if |successes| < cfg.halfOpenSuccessRequired then b.mode == HalfOpen && b.halfOpenPasses == |successes|
            else b == Breaker(Closed, [], None, 0)
    decreases |successes|
  {
    if successes == [] {
      assert events + successes == events;
    } else {
      var n := |successes| - 1;
      SuccessesClose(cfg, events, successes[..n]);
      RunNext(cfg, events + successes[..n], successes[n]);
      assert events + successes == events + successes[..n] + [successes[n]];
    }
  }

  /** A single failure in HALF_OPEN opens the circuit again, from that moment on. */
  lemma HalfOpenFailureReopens(cfg: Config, events: seq<Event>, time: int)
    requires Run(cfg, events).mode == HalfOpen
    ensures var b := Run(cfg, events + [Failure(time)]); b.mode == Open && b.openedAt == Some(time)
  {
    RunNext(cfg, events, Failure(time));
  }

  /** A success in CLOSED forgets all failures; in OPEN it changes nothing. */
  lemma SuccessForgets(cfg: Config, events: seq<Event>, time: int)
    ensures Run(cfg, events).mode == Closed ==> Run(cfg, events + [Success(time)]) == Run(cfg, events).(failures := [])
    ensures Run(cfg, events).mode == Open ==> Run(cfg, events + [Success(time)]) == Run(cfg, events)
  {
    RunNext(cfg, events, Success(time));
  }

  /** A closed circuit without failures stays closed until `failureThreshold` of them have been recorded. */
  lemma {:induction false} FewFailuresKeepClosed(cfg: Config, events: seq<Event>, failures: seq<Event>)
    requires Run(cfg, events) == Breaker(Closed, [], None, 0) && |failures| < cfg.failureThreshold
    requires forall i :: 0 <= i < |failures| ==> failures[i].Failure?
    ensures var b := Run(cfg, events + failures); b.mode == Closed && |b.failures| <= |failures|
    decreases |failures|
  {
    if failures == [] {
      assert events + failures == events;
    } else {
      var n := |failures| - 1;
      FewFailuresKeepClosed(cfg, events, failures[..n]);
      RunNext(cfg, events + failures[..n], failures[n]);
      assert events + failures == events + failures[..n] + [failures[n]];
    }
  }

  /** In any state a failure trips exactly if the circuit is half open or the window then holds the threshold. */
  lemma FailureTripsExactly(cfg: Config, events: seq<Event>, t: int)
    requires Ordered(events + [Failure(t)]) && cfg.rollingWindow >= 1
    ensures TripAt(cfg, events + [Failure(t)], |events|) <==>
            Run(cfg, events).mode == HalfOpen ||
            |Recent(FailuresSinceClear(cfg, events) + [t], t, cfg.rollingWindow)| >= cfg.failureThreshold
  {
    var all := events + [Failure(t)];
    assert all[..|events|] == events && all[|events|] == Failure(t);
    assert forall i :: 0 <= i < |events| ==> events[i] == all[i] && all[i].time <= t;
    PruningIsInvisible(cfg, events);
    HistoryIsKept(cfg, events);
    RecentAppend(FailuresSinceClear(cfg, events), t, t, cfg.rollingWindow);
    assert events != [] ==> events[|events| - 1].time <= t;
  }
}
