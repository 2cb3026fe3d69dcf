# Verified model of the marketplace middleware

The middleware takes orders from marketplaces (Shopee first), creates them as sale orders in Odoo and
publishes stock back. This project models the parts of it whose correctness does not show in any one
function, and proves what they guarantee over whole runs, over every interleaving and for every input.

| file | what it models |
|---|---|
| `OrderProtocol.dfy`, `OrderService.dfy` | the three-phase claim protocol of `OrderService.sync`, with crashes and exceptions anywhere, and the method itself |
| `OutboxRow.dfy`, `OutboxProtocol.dfy`, `OutboxService.dfy`, `OutboxDrain.dfy` | the transactional outbox: row transitions, concurrent publishers with leases, the service, successive relay rounds |
| `Webhooks.dfy` | the Shopee webhook: replay check, outbox insert, nonce |
| `Rounding.dfy`, `BundleSplit.dfy`, `OrderLines.dfy` | the sale order lines, with the split of a bundle price over its components |
| `CircuitBreaker.dfy` | the breaker, as locked steps around unlocked calls |
| `MappingCache.dfy`, `CacheStaleness.dfy` | product mappings behind Redis, without and with overlapping edits |
| `Stock.dfy` | platform and bundle stock |
| `Reconciliation.dfy` | the nightly comparison and its accounting |

`Common.dfy` holds shared datatypes and sequence lemmas. `dafny verify dfyconfig.toml` checks everything.

Two forms occur side by side. A class or method follows the source statement by statement and is proved
equal to a function on values. Where calls overlap, a protocol module takes the same functions as atomic
steps (one database transaction, one Odoo or broker request, one locked section) and reasons about
arbitrary sequences of events from the initial state. An event that cannot happen in a state leaves it
unchanged, so a run is any sequence of events. Time is one integer clock that never goes back.

## Assumptions and findings

* Orders. At most one sale order per platform order holds if what a `sync` call still does to the world
  after its claim (the Odoo create, the failure record) happens within five minutes of the claim, and the
  order worker's dead-letter write, which takes no lock, does not hit a row with a fresh claim. The
  recording of success may come arbitrarily late. `UntimelyDuplicatesExactly` says for each action that
  breaks an assumption when it does harm, that is when a continuation that keeps them all ends with two
  orders: a late create exactly if there is an order already or an active call that saw none, the two
  unlocked writes exactly if there is no order and some call is active. `ProtectionEndsExactly` and
  `ProtectionTimesOut` say which steps end the protection of a call that saw no order, and
  `StalledClaimIsUnprotected` and `LateFailureIsReached` that runs get there. All `sync` calls run in Celery
  tasks, whose `task_time_limit` of 300 seconds (`src/workers/app.py:31`) supports the timing assumption.
  The admin `retry_order` needs no assumption beyond its own status check. A comment in
  `src/services/outbox_service.py:180-182` relies on Odoo refusing a second order with the same platform
  order id; no such constraint is assumed here.
* Outbox. No event is lost, with no timing assumption at all. One dispatcher per row, the retry count, the
  bound on attempts and the backoff need every dispatcher to record or die within its 300 second lease and
  operators not to reset a row in dispatch. Relays run in Celery tasks, which the time limit of 300 seconds
  ends within the leases they took; the assumption concerns the immediate publishers, which run in the API
  process without a limit (`src/api/routers/webhooks.py:191`). `StalledPublisherExceedsRetries`: one of
  them that outlives its lease is enough for a row to end above its limit. `SecondClaimExactly`: a second
  dispatcher can join exactly when the lease is over. `ResetAdmitsSecond`: after a reset it can join at
  once. `OverlapExceedsRetries`: with any number of overrun leases the retry count has no bound.
* `dead_letter` is not final, since `_record_published` and `_record_failure` write whatever the status has
  become. `DeadLetterIsFinalExactly`: short of a manual retry it stays exactly if all that live dispatchers
  can still record is a failure without a retry left. `DeadLetterIsOverwritten` is a run, within every lease,
  in which the consumer dead-letters a row before its publisher records it as published.
* Webhooks. Only 32 characters of the signature enter the nonce key. `NeverLostExactly`: no handling of a
  set of signed requests makes a signed known one get lost exactly if each of them is harmless to it: its
  trace is not that of the other, or it is itself ingested under the same signature. A request of an
  unknown type leaves its 32 characters, a malformed one its signature in the event log only.
* Bundle prices. The last component can get a negative unit price (`NegativePriceIsReached`: a price of 3
  over five single pieces). `NegativePricesExactly` gives the exact condition: it never happens, for any
  order quantity, if and only if the rounded price of the other components does not exceed the bundle's.
* Bundle stock. Orders of one bundle listing fit the stock, whatever it is, if and only if no component SKU
  is listed twice (`OrdersFitExactly`). Orders over all listings of a platform fit if and only if no SKU
  occurs twice in all of them together (`ListingsFitExactly`): two bundles that share a component, or a
  component also sold on its own, are each published from the whole allocation. Saving rules out neither.
* Circuit breaker. `docs/diagrams/circuit-breaker.md` draws a single test request in HALF_OPEN; the code
  admits any number of calls there until an outcome is recorded (`HalfOpenAdmitsEveryCall`), and every
  breaker gets there (`HalfOpenIsReached`). The model follows the code.
* Cache. With atomic reads and edits it agrees with the tables (`CacheIsInvisible`). The code commits an
  edit and deletes the keys afterwards. `CoherentRunsExactly`: a key is coherent at every moment exactly if
  every edit that changes its answer commits while the key is neither served nor being filled.
  `SavesExactly`: after every deletion it is coherent again exactly if the fills that a changing commit
  overtook are over by the deletion. Bounded staleness holds always (`StalenessIsBounded`).
* Stock over platforms. `NoOversellExactly`: platforms never publish more than there is, whatever that is,
  if and only if their allocations less their buffers add up to at most 100 percent. The defaults give
  every platform 90 percent, so two unconfigured platforms oversell (`DefaultSharesOversell`).

## Model

| member | source | states |
|---|---|---|
| OrderProtocol.AtMostOneSaleOrder | src/services/order_service.py:31-139 | over every timely run of any number of interleaved, crashing or raising calls, Odoo holds at most one sale order per platform order, none serves two, and a `success` row names the one it holds |
| OrderProtocol.NameIsStable | src/services/order_service.py:124-132 | two `success` rows of one key at different moments of a run name the same sale order |
| OrderProtocol.QuietCallSettles | src/services/order_service.py:63-92 | recovery: whatever a timely run left behind, one undisturbed call five minutes later ends in `success` naming the single sale order, creating one only if there is none |
| OrderProtocol.UnprotectedClaimDuplicates | src/services/order_service.py:63-66 | from every state in which a call has seen no order but its row no longer keeps others out, one more call makes Odoo hold two orders |
| OrderProtocol.StalledClaimIsUnprotected | src/services/order_service.py:24 | such a state is reached by a timely run in which a claim stays open for five minutes |
| OrderProtocol.UntimelyDuplicatesExactly | src/services/order_service.py:98-132 | in every state of a timely run and for every action that breaks an assumption, a continuation that keeps them all ends with two orders if and only if: for a late create, there is an order or an active call that saw none; for an unlocked write, there is no order and some call is active |
| OrderProtocol.ExposedCanDuplicate | src/workers/order_worker.py:138-150 | from a row that keeps nobody out, whatever its active call is about to do, such a continuation exists |
| OrderProtocol.ProtectionEndsExactly | src/workers/order_worker.py:138-150 | the single actions after which an active call that saw no order is no longer protected are the lock-free dead-letter write and another call's late failure record, and exactly these |
| OrderProtocol.ProtectionTimesOut | src/services/order_service.py:63-66 | without such an action its protection ends exactly five minutes after its claim |
| OrderProtocol.LateCreateDuplicates | src/odoo/client.py:350 | another call's create past its five minutes leads to two orders at once |
| OrderProtocol.LateFailureIsReached | src/services/order_service.py:114-122 | a timely run after which an overtaken call records its failure and unprotects the call that took over |
| OrderProtocol.OrdersPersist | src/odoo/client.py:350-356 | no step of any run removes a sale order |
| OrderProtocol.RunKeepsInv | src/services/order_service.py:40-132 | the protocol invariant (unique order, exclusive fresh claims, calls that saw no order still see none) survives every timely run |
| OrderProtocol.ActionKeepsCell | src/services/order_service.py:40-132 | every single action of any phase keeps the invariant of its platform order |
| OrderProtocol.ClaimExactly | src/services/order_service.py:54-94 | a claim is refused as duplicate exactly for a `success` row and as in flight exactly for one marked less than 300 seconds ago; otherwise it stamps the row, counts a retry and keeps order id and error |
| OrderProtocol.UnlockedWritesAre | src/api/routers/admin.py:128-132 | the columns that a retry and a dead letter set, and those they keep |
| OrderService.OrderService.ClaimPhase | src/services/order_service.py:40-95 | phase A skips, waits, takes over or inserts exactly as the protocol's claim step, and changes no other row |
| OrderService.OrderService.CheckOrderExists | src/odoo/client.py:158-165 | returns a sale order of the key if and only if Odoo holds one |
| OrderService.OrderService.CreateSaleOrder | src/odoo/client.py:316-356 | adds one sale order with an unused id to its key and to no other |
| OrderService.OrderService.SettleExisting | src/services/order_service.py:103-122 | the row ends in `success` naming the found order, or `failed` with the error and one retry more, or as claimed; and this is the protocol's run |
| OrderService.OrderService.CreateAndRecord | src/services/order_service.py:113-132 | one new order unless the create stored nothing; the row ends in `success` naming it, or `failed` with the error and one retry more, or as claimed if cut short; and this is the protocol's run |
| OrderService.OrderService.PhaseC | src/services/order_service.py:124-132 | unless cut short before its commit the row ends in `success` naming the created order, its retry count unchanged; and this is the protocol's recording or crash |
| OrderService.OrderService.CheckRaised | src/services/order_service.py:114-122 | if the check raises, the failure is recorded with its error and one retry more, or the claim stays; no order is created |
| OrderService.OrderService.AfterClaim | src/services/order_service.py:98-139 | for every fault, the row and the orders of the key after phases B and C, from those before; other platform orders untouched; and this is a run of the protocol |
| OrderService.OrderService.Sync | src/services/order_service.py:31-139 | a call that is turned away changes nothing; any other one, dying or raising at any point, leaves the row and the orders of its key as its fault says: without one, `success` naming an order that Odoo holds, created exactly if there was none; and its effect is that of the protocol actions it takes |
| OrderService.OrderService.RecordOrder | src/services/order_service.py:124-132 | writes id and `success` and clears the error, in that row only |
| OrderService.OrderService.RecordError | src/services/order_service.py:114-122 | counts the failure and writes `failed` and the error, in that row only |
| OutboxProtocol.NoEventLost | src/services/outbox_service.py:84-107 | with no timing assumption, every row ever inserted has been sent, or is dead-lettered, or will be due within four hours; `published` and pruned rows were sent |
| OutboxProtocol.LeaseIsExclusive | src/services/outbox_service.py:161-162 | in leased runs a row has at most one live dispatcher, its retry count equals the failed sends since the last reset up to those not recorded, and never passes its limit |
| OutboxProtocol.AttemptsAreBounded | src/services/outbox_service.py:212-235 | in leased runs without manual reset a row is claimed at most `max_retries` times plus once per crash on it |
| OutboxProtocol.BackoffIsRespected | src/services/outbox_service.py:218-227 | in such runs a row exhausts its retries no earlier than its first claim plus 60, 360, 2160, 9360 seconds for two to five attempts, and 14400 more for each further one |
| OutboxRow.FailurePauses | src/services/outbox_service.py:218-227 | the n-th failure counts, and pauses the row for 60, 300, 1800, 7200 and from the fifth on 14400 seconds, or dead-letters it at its limit |
| OutboxRow.ClaimLeases | src/services/outbox_service.py:155-162 | the five kinds of events with a queue are leased for 300 seconds, all others dead-lettered with the reason |
| OutboxRow.PublishedIsDone | src/workers/scheduled.py:33-46 | a published row is never due again and is prunable exactly after 604800 seconds |
| OutboxRow.FiltersAre | src/services/outbox_service.py:86-92 | the relay's filter, and that only published rows are pruned |
| OutboxRow.ResetsAre | src/services/outbox_service.py:128-131 | what a manual reset and a consumer's dead letter set and keep |
| OutboxProtocol.SecondClaimExactly | src/services/outbox_service.py:47-62 | while a dispatcher is live a second one can claim the row exactly if it is `processing` and the lease has run out |
| OutboxProtocol.ResetAdmitsSecond | src/services/outbox_service.py:122-133 | a manual reset of any row in dispatch lets a second dispatcher join at once |
| OutboxProtocol.OverlapExceedsRetries | src/services/outbox_service.py:84-107 | from every safe state with an active row that has a queue and for every k, a run past the leases adds k to its retry count, so above any limit |
| OutboxProtocol.StalledPublisherExceedsRetries | src/services/outbox_service.py:41-72 | for every limit a run from the start with one stalled immediate publisher, all other dispatchers within their leases, ends one above the limit |
| OutboxProtocol.RelaysExhaust | src/services/outbox_service.py:84-118 | relays within their leases use up all retries of a row beside a stalled publisher |
| OutboxProtocol.OverlapCounts | src/services/outbox_service.py:211-235 | k dispatchers that claim past each other's leases and all fail count k retries and leave the others as they were |
| OutboxProtocol.DeadLetterIsFinalExactly | src/services/outbox_service.py:200-235 | a dead-lettered row stays so in every run without manual retry if and only if its live dispatchers have nothing but failures without a retry left to record |
| OutboxProtocol.DeadLetterIsOverwritten | src/workers/order_worker.py:133-137 | a run within every lease in which the consumer dead-letters a row that then becomes `published` |
| OutboxProtocol.RunKeepsSafe | src/services/outbox_service.py:145-235 | every run, however timed, keeps sent-before-published, sent-before-deleted and retries left on active rows |
| OutboxProtocol.ActionKeepsSafe | src/services/outbox_service.py:200-235 | so does every single action, including outcomes recorded after the row changed status |
| OutboxProtocol.ActionKeepsExclusive | src/services/outbox_service.py:47-62 | every action keeps the lease invariant |
| OutboxProtocol.ActionKeepsCounted | src/services/outbox_service.py:212-235 | every action keeps claims equal to failures, crashes, publications and live dispatchers |
| OutboxProtocol.ActionKeepsPaced | src/services/outbox_service.py:218-227 | every action keeps the due time at or after the first claim plus the delays so far |
| OutboxProtocol.LeasedRunKeeps | src/services/outbox_service.py:84-107 | all these invariants survive every leased run |
| OutboxProtocol.CellsPersist | src/services/outbox_service.py:84-107 | no run forgets a row that was inserted |
| OutboxService.OutboxService.PreparePublish | src/services/outbox_service.py:145-173 | leases a mapped row and dead-letters an unmapped one; only a mapped one is to be sent |
| OutboxService.OutboxService.RecordPublished | src/services/outbox_service.py:200-209 | writes `published` over any status; a row that is gone stays gone |
| OutboxService.OutboxService.RecordFailure | src/services/outbox_service.py:211-235 | counts, then dead-letters at the limit or delays by the table, and reports dead-lettering exactly |
| OutboxService.OutboxService.Dispatch | src/services/outbox_service.py:175-198 | records the outcome that the send had |
| OutboxService.OutboxService.TryPublishImmediately | src/services/outbox_service.py:41-72 | touches the row only if it is pending, and answers true exactly for a mapped row the broker accepts |
| OutboxService.OutboxService.ManualRetry | src/services/outbox_service.py:122-133 | resets a row from any status and then dispatches it like a new one |
| OutboxService.OutboxService.SelectDue | src/services/outbox_service.py:86-96 | the selection is the oldest due rows, in order, as many as batch and rows allow |
| OutboxService.OutboxService.ClaimBatch | src/services/outbox_service.py:100-107 | claims all and splits them into rows to send and rows without a queue |
| OutboxService.OutboxService.DispatchAll | src/services/outbox_service.py:109-117 | every row gets its own outcome and the counters add up |
| OutboxService.OutboxService.RelayPending | src/services/outbox_service.py:74-120 | takes the oldest due batch, leaves all other rows alone, `scanned` is `published` plus `failed` plus unmapped, and the dead letters reported are exactly the scanned rows that end up so |
| OutboxService.RelayComposes | src/services/outbox_service.py:84-118 | claiming a batch and then dispatching it amounts to one independent change per row |
| OutboxService.RelayedEnds | src/services/outbox_service.py:175-235 | a scanned row ends `published` with its time, `failed` with one retry more, or dead-lettered, by queue, send and limit |
| OutboxService.SelectNext | src/services/outbox_service.py:93-94 | adding the oldest remaining row keeps the selection sorted and complete |
| OutboxService.OutboxService.CleanupOutbox | src/workers/scheduled.py:24-65 | deletes exactly the rows published more than seven days ago and counts them |
| OutboxDrain.RelayDrains | src/workers/scheduled.py:17-21 | with an accepting broker and N active rows due, k rounds leave max(0, N - k * batch), so ceil(N / batch) rounds leave none |
| OutboxDrain.RelayIsOldestFirst | src/services/outbox_service.py:93-94 | over any number of rounds no row is settled before an older one |
| OutboxDrain.RoundShrinks | src/services/outbox_service.py:84-118 | one round settles exactly the rows it selected, min(batch, N) of them |
| OutboxDrain.RelayFollowsProtocol | src/services/outbox_service.py:84-118 | what the service makes of a row equals the protocol's claim, send and record steps |
| Webhooks.AnsweredMeansIngested | src/api/routers/webhooks.py:75-193 | after any run with Redis failures, crashes, evictions, log pruning and changes of outbox rows, a signed known event is acknowledged only if its row is in the outbox now, and answered as a replay only if one with its signature was there before |
| Webhooks.IngestedWasInserted | src/api/routers/webhooks.py:159-184 | a signature counts as ingested only if at some moment of the run the outbox held a row with it |
| Webhooks.AcknowledgedIsInserted | src/api/routers/webhooks.py:159-184 | an acknowledged order, logistics or stock event is exactly one more outbox row, pending, due at once, with its type, code, order and signature, and one log entry pointing to it |
| Webhooks.OthersInsertNothing | src/api/routers/webhooks.py:98-157 | unsigned, malformed and unknown events leave the outbox alone and one log entry; only signed ones with a body leave a nonce |
| Webhooks.NothingWithoutCommit | src/api/routers/webhooks.py:94-96 | a replay, and a request that dies before its commit, change nothing |
| Webhooks.ReplayedForFiveMinutes | src/api/routers/webhooks.py:63-70 | an acknowledged request is answered as a replay exactly for the next 300 seconds |
| Webhooks.LogDecidesWithoutRedis | src/api/routers/webhooks.py:50-60 | with Redis down exactly a signed log entry with the whole signature makes a replay |
| Webhooks.NeverLostExactly | src/api/routers/webhooks.py:33-72 | no handling of any set of signed requests, in any order, number and with any faults, makes a signed known request get lost if and only if each of the set is harmless to it: its prefix (if malformed, its signature) differs, or it is known and has the same signature |
| Webhooks.PrefixCollisionDropsEvent | src/api/routers/webhooks.py:46-49 | in every state where the first is no replay and the second not ingested, handling both drops the second if their prefixes are equal and their signatures differ |
| Webhooks.RunKeepsInv | src/api/routers/webhooks.py:33-72 | every nonce and every valid log entry traces to a handled request that was ingested if of a known type |
| Webhooks.ReceiveKeepsInv | src/api/routers/webhooks.py:159-187 | handling one request keeps this, because the nonce is set after the commit |
| Webhooks.WebhookReceiver.IsReplayed | src/api/routers/webhooks.py:33-60 | nonce lookup with Redis up, search for a valid log entry with the full signature when it is down |
| Webhooks.WebhookReceiver.ShopeeWebhook | src/api/routers/webhooks.py:75-193 | the handler's new state and answer for every request and every failure |
| BundleSplit.BundlePriceBound | src/odoo/client.py:402-462 | for every price, quantity and non-empty list of positive components the lines total within one currency unit of price times quantity |
| BundleSplit.WholePriceIsExact | src/odoo/client.py:420-434 | with a whole price and the two-bucket path the total is exact |
| BundleSplit.LastComponentCovers | src/odoo/client.py:415-436 | the last component's lines cover whatever remains within one unit |
| BundleSplit.TwoBucketsCover | src/odoo/client.py:420-434 | two buckets cover it within half a unit, and exactly if what is missing at the lower price is whole |
| BundleSplit.HighIsRounded | src/odoo/client.py:425-430 | the clamp on the number of dearer pieces never bites |
| BundleSplit.SplitTotal | src/odoo/client.py:410-440 | rounding errors of the earlier components do not add up: from any component on, the rest is covered within one unit |
| BundleSplit.BundleQuantities | src/odoo/client.py:410-413 | for every SKU the lines deliver component quantity times order quantity |
| BundleSplit.NegativePricesExactly | src/odoo/client.py:405-440 | no order quantity gives a negative unit price if and only if the others' rounded price fits into the bundle's |
| BundleSplit.NegativePriceIsReached | src/odoo/client.py:415-436 | price 3 over five single pieces, of any SKUs, ends in a negative unit price |
| BundleSplit.EnoughForNonNegativePrices | src/odoo/client.py:403-440 | with price P, units U and last quantity c, `2*P*c >= U*(U-c)` is enough, for every order quantity |
| BundleSplit.LastGroupsAre | src/odoo/client.py:415-436 | one whole price next to the remainder per piece, unless it misses the remainder by more than one unit; else two whole prices, one apart, that enclose it, and at the higher one the missing units rounded half up |
| BundleSplit.BasePriceIs | src/odoo/client.py:403-407 | the unit price of the other components is the whole price next to price per piece |
| BundleSplit.EarlierLinesAre | src/odoo/client.py:437-462 | each component but the last is one line, in order, at that price |
| BundleSplit.LastLinesAre | src/odoo/client.py:408-440 | the lines after them charge the last component what the others leave |
| Rounding.RoundIsNearest | src/odoo/client.py:405-407 | half-up quantisation is off by at most one half |
| Rounding.RoundExactly | src/odoo/client.py:405-407 | the result of half-up quantisation, ties away from zero |
| Rounding.NearestPriceError | src/odoo/client.py:416-419 | a rounded unit price misses the amount by at most half a unit per piece |
| OrderLines.AppendGroups | src/odoo/client.py:444-462 | one line per non-empty price group |
| OrderLines.PriceLast | src/odoo/client.py:415-436 | computes the price groups of the last component |
| OrderLines.BuildBundle | src/odoo/client.py:398-463 | the loop with its running remainder yields the recursive split, or the first component SKU Odoo does not know |
| OrderLines.BuildItem | src/odoo/client.py:376-483 | mapping lookup by variant, then item; bundle or simple lines, or the missing SKU |
| OrderLines.BuildOrderLines | src/odoo/client.py:358-484 | the lines of all items, or the first SKU over all items and components that Odoo does not know |
| OrderLines.ProductsSold | src/odoo/client.py:376-483 | over the mapping table: no mapping sells the platform SKU, a simple one its Odoo SKU, both with the item's quantity and price; a bundle its components, or one piece of its own SKU |
| OrderLines.ProductsAsked | src/odoo/client.py:441-468 | exactly these SKUs are looked up, in order |
| OrderLines.ItemsInOrder | src/odoo/client.py:375-484 | an order is the concatenation of its items |
| OrderLines.FirstMissingIs | src/odoo/client.py:442-443 | the SKU reported is the first unknown one, and none is exactly if all are known |
| OrderLines.OrderTotal | src/odoo/client.py:375-484 | the lines of an order differ from its subtotal by at most one currency unit per bundle item |
| OrderLines.ItemTotal | src/odoo/client.py:402-483 | a simple item is charged exactly, a bundle item within one unit |
| CircuitBreaker.RejectedExactlyDuringCooldown | src/core/circuit_breaker.py:63-86 | for every interleaving, a call is rejected if and only if some failure tripped the circuit less than `open_timeout` before it |
| CircuitBreaker.CooldownHolds | src/core/circuit_breaker.py:96-107 | from a trip until `open_timeout` has passed the circuit stays open, whatever successes arrive late |
| CircuitBreaker.RetryIsAdmitted | src/workers/retry_policy.py:22-31 | a call rejected by a registered breaker and retried after the countdown, its own or the longest one for an unknown service, is admitted unless a failure tripped the circuit meanwhile |
| CircuitBreaker.PruningIsInvisible | src/core/circuit_breaker.py:88-94 | the pruned failure list refines the full one: same state, opening time and window counts after every run |
| CircuitBreaker.PruneTwice | src/core/circuit_breaker.py:90 | what was pruned at one moment is out of the window at every later one |
| CircuitBreaker.HistoryIsKept | src/core/circuit_breaker.py:96-114 | the full list is the failures since the last clearing success |
| CircuitBreaker.OpensExactlyAtThreshold | src/core/circuit_breaker.py:88-94 | from CLOSED a failure opens if and only if with it `failure_threshold` failures since the last success or close lie in the window |
| CircuitBreaker.RunIsConsistent | src/core/circuit_breaker.py:80-114 | always: CLOSED exactly without opening time, CLOSED below the threshold, HALF_OPEN below the required passes |
| CircuitBreaker.HalfOpenAdmitsEveryCall | src/core/circuit_breaker.py:63-67 | after every run that ends in HALF_OPEN any number of further calls are all admitted until an outcome is recorded, unlike in the state diagram |
| CircuitBreaker.HalfOpenIsReached | src/core/circuit_breaker.py:63-94 | for every breaker with a threshold and a window of at least one, and every n, an ordered run from the start, with at no moment more outcomes than admitted calls, reaches HALF_OPEN and then admits n calls |
| CircuitBreaker.TimeoutStartsCount | src/core/circuit_breaker.py:80-86 | after any run that is open, the first call past the timeout makes it half open with no passes |
| CircuitBreaker.SuccessesClose | src/core/circuit_breaker.py:96-114 | from there successes in a row close the circuit exactly when there are `half_open_success_required` of them, as if it had never failed |
| CircuitBreaker.HalfOpenFailureReopens | src/core/circuit_breaker.py:93-94 | one failure in HALF_OPEN opens it again from that moment |
| CircuitBreaker.SuccessForgets | src/core/circuit_breaker.py:96-102 | a success in CLOSED forgets all failures, in OPEN it changes nothing |
| CircuitBreaker.FewFailuresKeepClosed | src/core/circuit_breaker.py:88-94 | a closed circuit without failures stays closed through fewer than `failure_threshold` failures |
| CircuitBreaker.FailureTripsExactly | src/core/circuit_breaker.py:88-94 | in any state a failure trips if and only if the circuit is half open or the window holds the threshold |
| CircuitBreaker.CountdownIs | src/workers/retry_policy.py:22-31 | the countdown is five seconds more than the named breaker's timeout, or than the longest one |
| CircuitBreaker.CircuitBreaker.MaybeTransitionToHalfOpen | src/core/circuit_breaker.py:80-86 | performs the admission step |
| CircuitBreaker.CircuitBreaker.RecordFailure | src/core/circuit_breaker.py:88-94 | performs the failure step, pruning in place |
| CircuitBreaker.CircuitBreaker.RecordSuccess | src/core/circuit_breaker.py:96-102 | performs the success step |
| CircuitBreaker.CircuitBreaker.OpenAt | src/core/circuit_breaker.py:104-107 | opens and keeps the time, and nothing else |
| CircuitBreaker.CircuitBreaker.Close | src/core/circuit_breaker.py:109-114 | back to the initial state |
| CircuitBreaker.CircuitBreaker.Call | src/core/circuit_breaker.py:63-78 | rejects, raises or returns, with the steps recorded in between |
| MappingCache.CacheIsInvisible | src/services/mapping_service.py:33-114 | after any sequence of reads, saves and deletes that do not overlap, a read returns what the tables answer |
| MappingCache.RunKeepsCoherence | src/services/mapping_service.py:33-114 | every cached value, expired or not, equals the tables' answer after every run |
| MappingCache.SaveKeepsCoherence | src/api/routers/config_admin.py:371-437 | a save that moves keys, deactivates or changes type invalidates enough |
| MappingCache.DeleteKeepsCoherence | src/api/routers/config_admin.py:452-468 | so does a delete |
| MappingCache.EditIsLocal | src/api/routers/config_admin.py:425-437 | an edit of one row changes no answer but those for its keys before and after |
| MappingCache.AnswersAre | src/services/mapping_service.py:43-52 | a mapping is answered if and only if it is an active row of that platform and SKU |
| MappingCache.ReadIsStored | src/services/mapping_service.py:63-64 | an answer read from the tables is served for exactly 3600 seconds, and nothing else changes |
| MappingCache.SavedIs | src/api/routers/config_admin.py:383-437 | the saved row is the form, column by column; other rows, component lists and keys stay |
| MappingCache.RefusedExactly | src/api/routers/config_admin.py:366-374 | exactly when a save is refused, and as what |
| MappingCache.DeletedIs | src/api/routers/config_admin.py:452-468 | row, components and their keys go, everything else stays |
| MappingCache.StripExactly | src/api/routers/config_admin.py:407 | blanks, tabs and line ends go from both ends of a SKU and nothing else |
| MappingCache.PairsBecomeComponents | src/api/routers/config_admin.py:406-414 | which component each submitted pair becomes, in which number |
| MappingCache.MappingService.GetByPlatformSku | src/services/mapping_service.py:32-64 | cached value or active row, and what is stored for an hour; a missing mapping is not cached |
| MappingCache.MappingService.GetBundleComponents | src/services/mapping_service.py:93-114 | cached list or the table's, empty lists cached too |
| MappingCache.MappingService.Invalidate | src/services/mapping_service.py:175-178 | removes that key only |
| MappingCache.MappingService.AddComponents | src/api/routers/config_admin.py:405-414 | pairs up to the shorter list, blank SKUs skipped, quantities at least one |
| MappingCache.MappingService.ProductsSave | src/api/routers/config_admin.py:350-441 | the error answered, and otherwise the new row, components and invalidated keys |
| MappingCache.MappingService.InvalidateSaved | src/api/routers/config_admin.py:425-437 | removes the old key, the new key and the component list |
| MappingCache.MappingService.ProductsDelete | src/api/routers/config_admin.py:444-472 | removes row, components and their keys, or answers not found |
| MappingCache.MappingService.FindMappingsUsingComponent | src/services/mapping_service.py:116-173 | each mapping that sells the SKU or uses it as a component, once, and no other |
| CacheStaleness.StalenessIsBounded | src/services/mapping_service.py:38-64 | with arbitrary overlap and failing invalidations, a served value was the tables' answer at a moment within `CACHE_TTL` plus the longest fill delay |
| CacheStaleness.RunKeepsInv | src/services/mapping_service.py:94-114 | the age and origin of every stored and pending value, over every run |
| CacheStaleness.ServedForAnHour | src/services/mapping_service.py:63 | a stored answer is served for exactly 3600 seconds if nothing else happens to its key |
| CacheStaleness.CoherentRunsExactly | src/services/mapping_service.py:38-64 | over every run of fills, commits and deletions as separate steps, a clean key stays clean at every moment if and only if every edit that changes its answer meets neither a served value nor a pending fill |
| CacheStaleness.EventExactly | src/api/routers/config_admin.py:423 | a single step leaves a clean key clean exactly under that condition |
| CacheStaleness.InvalidationExactly | src/services/mapping_service.py:175-178 | whatever was served before, deleting the key makes it clean if and only if no pending fill carries an answer of the past |
| CacheStaleness.SaveExactly | src/api/routers/config_admin.py:423-439 | commit, reads in between, deletion: the key is clean again if and only if every fill that a changing commit overtook is stored or given up before the deletion |
| CacheStaleness.SavesExactly | src/api/routers/config_admin.py:423-439 | the same after each of any number of saves |
| CacheStaleness.CleanExactly | src/services/mapping_service.py:38-64 | a key is clean if and only if nothing but the tables' answer can be served for it until the next edit |
| CacheStaleness.OverlapServesStaleAnswer | src/services/mapping_service.py:43-64 | a fill that overlaps an edit is served although the tables answer differently |
| Stock.AllocatedBounds | src/services/stock_service.py:60-62 | never more than the stock or the platform's share, and less than two pieces below the exact product |
| Stock.AllocatedMonotone | src/services/stock_service.py:60-62 | monotone in stock and allocation, antitone in buffer |
| Stock.NoOversell | src/api/routers/config_admin.py:522-523 | any number of platforms with allocations of at most 100 percent together never publish more than the stock |
| Stock.PublishedWithinShares | src/services/stock_service.py:60-62 | what platforms publish together stays within their added shares |
| Stock.NoOversellExactly | src/services/stock_service.py:48-62 | platforms never publish more than the stock, whatever it is, if and only if the products of kept share and allocation add up to at most the whole |
| Stock.DefaultSharesOversell | src/services/stock_service.py:53-58 | two platforms with the default buffer and allocation do not meet it |
| Stock.CalculateBundleStock | src/services/stock_service.py:64-100 | zero for an unknown or empty mapping, the product's stock for a simple one, the least component stock for a bundle |
| Stock.BundleStockIsGreatest | src/services/stock_service.py:96-100 | n bundles are affordable from the component allocations if and only if n is at most the result |
| Stock.OrdersFit | src/odoo/client.py:410-413 | the lines of any order within the published bundle stock need no more of any product than Odoo has |
| Stock.PlatformStockFits | src/services/stock_service.py:21-62 | platform stock never exceeds what is available in Odoo |
| Stock.PlatformStockIs | src/services/stock_service.py:21-62 | zero for an unknown or blocked product; else the stock less the buffer, cut off, times the share, cut off, with the product's buffer before the configured one before 10 percent |
| Stock.OrdersFitExactly | src/services/stock_service.py:96-100 | orders within the published bundle stock fit the stock in Odoo, for every stock, price and order, if and only if no component SKU is listed twice |
| Stock.RepeatedSkuOversells | src/services/stock_service.py:97-99 | for every bundle with a SKU listed twice, the stock in which one published bundle needs more of it than there is |
| Stock.ListingsFitExactly | src/services/stock_service.py:64-100 | orders over all listings of a platform, each within its published stock, fit the stock in Odoo, whatever it is, if and only if no component SKU occurs twice in all listings together |
| Stock.SharedSkuOversells | src/services/stock_service.py:96-100 | for all listings that share a SKU, the stock in which one piece of each, all published, needs more of it than there is |
| Reconciliation.LookupSyncedIds | src/services/reconciliation_service.py:183-209 | for every chunk size the same as one query |
| Reconciliation.LoadDriftMappings | src/services/reconciliation_service.py:238-264 | for every chunk size the same rows as one query, each once per id |
| Reconciliation.CheckFieldDrift | src/services/reconciliation_service.py:287-347 | exactly the differing fields of indexed orders whose mapping names a sale order that Odoo returns, none twice |
| Reconciliation.ReadSnapshot | src/services/reconciliation_service.py:98-108 | an order's id is found or its mapping loaded exactly if it is synced in the snapshot |
| Reconciliation.SelectMissing | src/services/reconciliation_service.py:110-112 | the orders not synced, in order |
| Reconciliation.FixMissing | src/services/reconciliation_service.py:115-128 | counters and details account for every missing order, fixed or left |
| Reconciliation.RunForPlatform | src/services/reconciliation_service.py:61-154 | matched plus missing is checked, details are missing minus fixed, review is that plus drifts, drifts are exactly those of the last order of each id, and no id is both missing and drifted |
| Reconciliation.NeverMissingAndDrifted | src/services/reconciliation_service.py:90-108 | one snapshot for both queries keeps any id from being missing and drifted |
| Reconciliation.IndexSynced | src/services/reconciliation_service.py:295-297 | the last order of every synced id is indexed |
| Reconciliation.DriftsAreExact | src/services/reconciliation_service.py:295-321 | for every order list the drifts are exactly the differing fields of the last order of each synced id |
| Reconciliation.DriftsBetweenAre | src/services/reconciliation_service.py:323-346 | a total drift if and only if the totals differ by more than 1000, a tracking drift if and only if the platform has a number that Odoo lacks |
| Reconciliation.UnfixedAre | src/services/reconciliation_service.py:266-285 | an order is left for review if and only if an attempt for it failed: not confirmed or processing, or not created |
| Reconciliation.UnsyncedAre | src/services/reconciliation_service.py:110 | missing are exactly the orders without a successful row |
| Reconciliation.LastOfIs | src/services/reconciliation_service.py:295-297 | of several orders with one id the last is compared |
| Reconciliation.LinesNeverDrift | src/services/reconciliation_service.py:323-324 | an order whose total is its subtotal, with at most 1000 bundle items, never shows a total drift against the lines the middleware sent |

## Left out

* HTTP, XML-RPC, SQL, Redis and Celery themselves. Odoo is a set of orders, the broker accepts, fails, or fails after delivery, Redis is a map with expiry. Metrics, logging, alerts, audit rows, OAuth, CSRF, templates and dry-run branches are not modelled.
* Python floats and the 28-digit Decimal context. Prices are exact reals, percentages integers in hundredths as their columns store them; `float(line_price_unit)` is the identity.
* Every database block is one atomic step, also where it reads a row and writes it back without a lock (`_record_failure`, `manual_retry`, `retry_order`, the worker's dead-letter write).
* An Odoo create takes effect before its call raises or its caller dies; a request that Odoo carries out later is not modelled.
* Order mapping rows are never deleted, so the `row is None` branches of `sync` do not occur. Its `odoo_order_name` and `update_status` are not modelled, nor is partner lookup.
* The relay claims its batch row by row in `OutboxProtocol`; the batch as one transaction is in `OutboxService`. Rows locked by others (`skip_locked`) are rows the batch does not contain.
* Product ids, line names and discounts of order lines; the lookup of a product is its SKU being known.
* A webhook body that is valid JSON but not an object makes the handler raise; it counts as a request that gets no answer. Reception and the background publish are separate.
* Cache keys are a datatype, not strings. `strip` removes blanks, tabs, carriage returns and line feeds only. `list_active_for_platform` has no logic of its own.
* `polling_fallback`, token refresh and retention of other tables.
- OrderService.OrderService.Sync: covers a call that nothing overlaps; overlapping calls are the subject of OrderProtocol, which takes the same steps.
- OrderProtocol.AtMostOneSaleOrder: assumes the timing stated above; UntimelyDuplicatesExactly says when it is false otherwise.
- OutboxService.OutboxService.RelayPending: runs with nothing interleaved; `send` and `clock` are functions of the row. Interleaved relays are the subject of OutboxProtocol.
- OutboxProtocol.LeaseIsExclusive: assumes leases are kept and no reset of a row in dispatch, without which it is false (SecondClaimExactly and StalledPublisherExceedsRetries for the lease, ResetAdmitsSecond for the reset).
- Webhooks.AnsweredMeansIngested: assumes that no signed request handled before is harmful to this one; NeverLostExactly shows that exactly this is needed.
- BundleSplit.BundlePriceBound: currency unit 1, the default, since CURRENCY_ROUNDING is not a declared setting; component quantities at least one, as saving them enforces.
- OrderLines.OrderTotal: bundle items are not ordered in negative numbers.
- CircuitBreaker.CircuitBreaker.Call: covers a call that no other overlaps; overlapping calls are runs of the separate steps.
- MappingCache.MappingService.ProductsSave: Redis is up; its commit and deletions as separate steps, and deletions that fail, are the subject of CacheStaleness. A mapping id that is not a number is not modelled.
- MappingCache.MappingService.FindMappingsUsingComponent: the answers of its two queries are parameters that its requires describe, in any order and with any repetition.
- Stock.ListingsFitExactly: one order per listing stands for all orders of it, since quantities add up; the shipping of orders and new stock in between are not modelled.
- Stock.OrdersFit: component SKUs are distinct, which is exactly when it holds (OrdersFitExactly), and percentages lie between 0 and 100.
- Reconciliation.LoadDriftMappings: rows come in the order of the ids, an order SQL does not promise.
- Reconciliation.RunForPlatform: the set of ids is given as a list without repetition, in any order, and the outcomes of `sync` and of Odoo are parameters.
