/** A row of webhook_outbox and what each transaction of the outbox service does to it. */
module OutboxRow {
  import opened Common

  datatype OutboxId = OutboxId(n: nat)

  datatype Status = Pending | Processing | Published | Failed | DeadLetter

  datatype Row = Row(
    platform: string,
    eventType: string,
    status: Status,
    retryCount: int,
    maxRetries: int,
    processAfter: int,
    createdAt: int,
    publishedAt: Option<int>,
    lastError: Option<string>)

  const QUEUE_MAP: map<(string, string), string> := map[
    ("shopee", "order") := "orders.created.normal",
    ("shopee", "logistics") := "orders.created.normal",
    ("shopee", "stock") := "orders.created.normal",
    ("lazada", "order") := "orders.created.normal",
    ("tiktok", "order") := "orders.created.normal"]

  const RETRY_DELAYS_SEC: seq<int> := [60, 300, 1800, 7200, 14400]

  const PROCESSING_LEASE_SEC := 300

  /** Published rows are pruned after seven days. */
  const RETENTION_SEC := 7 * 24 * 3600

  predicate Mapped(row: Row) {
    (row.platform, row.eventType) in QUEUE_MAP
  }

  predicate IsActive(row: Row) {
    row.status in {Pending, Failed, Processing}
  }

  /** The filter of `relay_pending`. */
  predicate Due(row: Row, now: int) {
    IsActive(row) && row.processAfter <= now && row.retryCount < row.maxRetries
  }

  function NewRow(platform: string, eventType: string, maxRetries: int, now: int): Row {
    Row(platform, eventType, Pending, 0, maxRetries, now, now, None, None)
  }

  /** `_prepare_publish`: a mapped row is leased, an unmapped one dead-lettered. */
  function Prepared(row: Row, now: int): Row {
    if Mapped(row) then row.(status := Processing, processAfter := now + PROCESSING_LEASE_SEC)
    else row.(status := DeadLetter, lastError := Some("No queue mapping for " + row.platform + "/" + row.eventType))
  }

  /** `_record_published`: writes whatever the status has become meanwhile. */
  function RecordedPublished(row: Row, now: int): Row {
    row.(status := Published, publishedAt := Some(now))
  }

  function Min(a: int, b: int): int { if a <= b then a else b }

  /** The pause after the `retries`-th recorded failure; the last delay repeats. */
  function Delay(retries: int): int
    requires retries >= 1
  {
    RETRY_DELAYS_SEC[Min(retries - 1, |RETRY_DELAYS_SEC| - 1)]
  }

  /** `_record_failure`: as late and as unconditional. */
  function RecordedFailure(row: Row, error: string, now: int): Row
    requires row.retryCount >= 0
  {
    var counted := row.(retryCount := row.retryCount + 1, lastError := Some(error));
    if counted.retryCount >= row.maxRetries then counted.(status := DeadLetter)
    else counted.(status := Failed, processAfter := now + Delay(counted.retryCount))
  }

  /** The first transaction of `manual_retry`. */
  function Reset(row: Row, now: int): Row {
    row.(status := Pending, processAfter := now, retryCount := 0, lastError := None)
  }

  /** The order worker's write when the product of a consumed event is unknown. */
  function DeadLettered(row: Row, error: string): Row {
    row.(status := DeadLetter, lastError := Some(error))
  }

  /** The filter of `cleanup_outbox`. */
  predicate Prunable(row: Row, now: int) {
    row.status == Published && row.publishedAt.Some? && row.publishedAt.value < now - RETENTION_SEC
  }

  // ------------------------------------------------------------------------------------------
  // The transactions in numbers
  // ------------------------------------------------------------------------------------------

  /** The kinds of events that have a queue. */
  predicate HasQueue(platform: string, eventType: string) {
    || (platform == "shopee" && eventType in {"order", "logistics", "stock"})
    || (platform in {"lazada", "tiktok"} && eventType == "order")
  }

  /** What no transaction changes. */
  predicate SameEvent(r: Row, row: Row) {
    && r.platform == row.platform && r.eventType == row.eventType
    && r.maxRetries == row.maxRetries && r.createdAt == row.createdAt
  }

  /** A claim leases the row for five minutes, or finds that it can never be sent. */
  lemma ClaimLeases(row: Row, now: int)
    ensures var r := Prepared(row, now);
            && (HasQueue(row.platform, row.eventType) ==> r.status == Processing && r.processAfter == now + 300 && r.lastError == row.lastError)
            && (!HasQueue(row.platform, row.eventType) ==>
                  && r.status == DeadLetter && r.processAfter == row.processAfter
                  && r.lastError == Some("No queue mapping for " + row.platform + "/" + row.eventType))
            && r.retryCount == row.retryCount && SameEvent(r, row) && r.publishedAt == row.publishedAt
  {
  }

  /** A failure that leaves a retry pauses the row for 1, 5, 30, 120 minutes, and for 240 from the fifth on. */
  lemma FailurePauses(row: Row, error: string, now: int)
    requires row.retryCount >= 0
    ensures var r, n := RecordedFailure(row, error, now), row.retryCount + 1;
            && r.retryCount == n && r.lastError == Some(error) && SameEvent(r, row) && r.publishedAt == row.publishedAt
            && (n >= row.maxRetries ==> r.status == DeadLetter && r.processAfter == row.processAfter)
            && (n < row.maxRetries ==> r.status == Failed)
            && (n < row.maxRetries && n == 1 ==> r.processAfter == now + 60)
            && (n < row.maxRetries && n == 2 ==> r.processAfter == now + 300)
            && (n < row.maxRetries && n == 3 ==> r.processAfter == now + 1800)
            && (n < row.maxRetries && n == 4 ==> r.processAfter == now + 7200)
            && (n < row.maxRetries && n >= 5 ==> r.processAfter == now + 14400)
  {
  }

  /** A published row is out of every publisher's reach, and is pruned after seven days and not before. */
  lemma PublishedIsDone(row: Row, now: int, later: int)
    ensures var r := RecordedPublished(row, now);
            && r.status == Published && !Due(r, later) && r.retryCount == row.retryCount && SameEvent(r, row)
            && (Prunable(r, later) <==> later > now + 604800)
  {
  }

  /** Nothing but published rows is ever pruned, and the relay takes rows that are active, due and have a retry left. */
  lemma FiltersAre(row: Row, now: int)
    ensures Prunable(row, now) ==> row.status == Published
    ensures Due(row, now) <==>
            row.status !in {Published, DeadLetter} && row.processAfter <= now && row.retryCount < row.maxRetries
  {
  }

  /** A reset row is as good as new; a consumer's dead letter keeps its counters. */
  lemma ResetsAre(row: Row, error: string, now: int)
    ensures var r := Reset(row, now);
            && r.status == Pending && r.retryCount == 0 && r.processAfter == now && r.lastError.None?
            && SameEvent(r, row) && r.publishedAt == row.publishedAt
    ensures var r := DeadLettered(row, error);
            && r.status == DeadLetter && r.lastError == Some(error) && r.retryCount == row.retryCount
            && SameEvent(r, row) && r.publishedAt == row.publishedAt && r.processAfter == row.processAfter
  {
  }
}
