/** `OutboxService` and the outbox clean-up over the webhook_outbox table. */
module OutboxService {
  import opened Common
  import opened OutboxRow

  /** What `send_task` does: the broker accepts the message, or it raises. */
  datatype SendResult = Accepts | Raises(error: string)

  datatype Stats = Stats(published: nat, failed: nat, scanned: nat)

  type Table = map<OutboxId, Row>

  ghost function DueIds(rows: Table, now: int): set<OutboxId> {
    set id | id in rows && Due(rows[id], now)
  }

  ghost function ActiveIds(rows: Table): set<OutboxId> {
    set id | id in rows && IsActive(rows[id])
  }

  /** The answer of the relay's query: the `batch` oldest due rows, oldest first. */
  ghost predicate IsOldestBatch(rows: Table, now: int, batch: nat, ids: seq<OutboxId>) {
    && Distinct(ids)
    && (forall i :: 0 <= i < |ids| ==> ids[i] in DueIds(rows, now))
    && (forall i, j :: 0 <= i < j < |ids| ==> rows[ids[i]].createdAt <= rows[ids[j]].createdAt)
    && (forall i, id :: 0 <= i < |ids| && id in DueIds(rows, now) && id !in ids ==>
          rows[ids[i]].createdAt <= rows[id].createdAt)
    && |ids| == Min(batch, |DueIds(rows, now)|)
  }

  /** A claimed row once its dispatch has been recorded at `later`. */
  function Dispatched(row: Row, result: SendResult, later: int): Row
    requires row.retryCount >= 0
  {
    match result
    case Accepts => RecordedPublished(row, later)
    case Raises(error) => RecordedFailure(row, error, later)
  }

  /** What one relay round makes of a row it scans. */
  function Relayed(row: Row, now: int, result: SendResult, later: int): Row
    requires row.retryCount >= 0
  {
    if Mapped(row) then Dispatched(Prepared(row, now), result, later) else Prepared(row, now)
  }

  /** The table after a relay round that scanned `ids`. */
  ghost predicate RelayedTable(
    rows: Table, rows': Table, now: int, ids: seq<OutboxId>, send: OutboxId -> SendResult, clock: OutboxId -> int)
  {
    && rows'.Keys == rows.Keys
    && (forall id :: id in rows ==> rows[id].retryCount >= 0)
    && (forall id :: id in rows && id in ids ==> rows'[id] == Relayed(rows[id], now, send(id), clock(id)))
    && (forall id :: id in rows && id !in ids ==> rows'[id] == rows[id])
  }

  /** A row that is scanned ends published, failed with one retry more, or dead-lettered, and when. */
  lemma RelayedEnds(row: Row, now: int, result: SendResult, later: int)
    requires row.retryCount >= 0
    ensures var r, sent := Relayed(row, now, result, later), HasQueue(row.platform, row.eventType);
            && (sent && result.Accepts? ==>
                  r.status == Published && r.publishedAt == Some(later) && r.retryCount == row.retryCount)
            && (sent && result.Raises? ==>
                  && r.retryCount == row.retryCount + 1 && r.lastError == Some(result.error)
                  && r.status == if row.retryCount + 1 < row.maxRetries then Failed else DeadLetter)
            && (!sent ==> r.status == DeadLetter && r.retryCount == row.retryCount)
            && SameEvent(r, row)
  {
  }

  ghost function MappedIn(rows: Table): OutboxId -> bool { id => id in rows && Mapped(rows[id]) }

  ghost function UnmappedIn(rows: Table): OutboxId -> bool { id => !(id in rows && Mapped(rows[id])) }

  ghost function IsAccepted(send: OutboxId -> SendResult): OutboxId -> bool { id => send(id).Accepts? }

  ghost function MappedOf(rows: Table, ids: seq<OutboxId>): seq<OutboxId> { Filter(ids, MappedIn(rows)) }

  ghost function UnmappedOf(rows: Table, ids: seq<OutboxId>): seq<OutboxId> { Filter(ids, UnmappedIn(rows)) }

  ghost function AcceptedOf(ids: seq<OutboxId>, send: OutboxId -> SendResult): seq<OutboxId> {
    Filter(ids, IsAccepted(send))
  }

  ghost function DiesIn(rows: Table, send: OutboxId -> SendResult): OutboxId -> bool {
    id => send(id).Raises? && id in rows && rows[id].retryCount + 1 >= rows[id].maxRetries
  }

  ghost function DiedOf(rows: Table, ids: seq<OutboxId>, send: OutboxId -> SendResult): seq<OutboxId> {
    Filter(ids, DiesIn(rows, send))
  }

  ghost function PreparedAll(rows: Table, ids: set<OutboxId>, now: int): Table {
    map id | id in rows :: if id in ids then Prepared(rows[id], now) else rows[id]
  }

  ghost function DispatchedAll(rows: Table, ids: set<OutboxId>, send: OutboxId -> SendResult, clock: OutboxId -> int): Table
    requires forall id :: id in rows ==> rows[id].retryCount >= 0
  {
    map id | id in rows :: if id in ids then Dispatched(rows[id], send(id), clock(id)) else rows[id]
  }

  lemma PreparedNone(rows: Table, now: int)
    ensures PreparedAll(rows, Elements([]), now) == rows
  {
  }

  lemma PreparedNext(rows: Table, ids: set<OutboxId>, id: OutboxId, now: int)
    requires id in rows && id !in ids
    ensures PreparedAll(rows, ids + {id}, now) == PreparedAll(rows, ids, now)[id := Prepared(rows[id], now)]
    ensures PreparedAll(rows, ids, now)[id] == rows[id]
  {
  }

  lemma DispatchedNone(rows: Table, send: OutboxId -> SendResult, clock: OutboxId -> int)
    requires forall id :: id in rows ==> rows[id].retryCount >= 0
    ensures DispatchedAll(rows, Elements([]), send, clock) == rows
  {
  }

  lemma DispatchedNext(
    rows: Table, ids: set<OutboxId>, id: OutboxId, send: OutboxId -> SendResult, clock: OutboxId -> int)
    requires forall id :: id in rows ==> rows[id].retryCount >= 0
    requires id in rows && id !in ids
    ensures DispatchedAll(rows, ids + {id}, send, clock) ==
            DispatchedAll(rows, ids, send, clock)[id := Dispatched(rows[id], send(id), clock(id))]
    ensures DispatchedAll(rows, ids, send, clock)[id] == rows[id]
  {
  }

  lemma NextElement<T>(xs: seq<T>, i: nat)
    requires i < |xs| && Distinct(xs)
    ensures Elements(xs[..i + 1]) == Elements(xs[..i]) + {xs[i]} && xs[i] !in Elements(xs[..i])
  {
    assert xs[..i + 1] == xs[..i] + [xs[i]];
  }

  /** What one more claim adds. */
  lemma ClaimStep(rows: Table, ids: seq<OutboxId>, i: nat, now: int)
    requires i < |ids| && Distinct(ids) && ids[i] in rows
    ensures var before := PreparedAll(rows, Elements(ids[..i]), now);
            && ids[i] in before && before[ids[i]] == rows[ids[i]]
            && PreparedAll(rows, Elements(ids[..i + 1]), now) == before[ids[i] := Prepared(rows[ids[i]], now)]
    ensures MappedOf(rows, ids[..i + 1]) == MappedOf(rows, ids[..i]) + (if Mapped(rows[ids[i]]) then [ids[i]] else [])
    ensures UnmappedOf(rows, ids[..i + 1]) == UnmappedOf(rows, ids[..i]) + (if Mapped(rows[ids[i]]) then [] else [ids[i]])
  {
    FilterNext(ids, i, MappedIn(rows));
    FilterNext(ids, i, UnmappedIn(rows));
    NextElement(ids, i);
    PreparedNext(rows, Elements(ids[..i]), ids[i], now);
  }

  /** Where the relay stands once it has dispatched `ids`. */
  ghost predicate Progress(
    rows: Table, rows': Table, ids: seq<OutboxId>, send: OutboxId -> SendResult, clock: OutboxId -> int,
    published: nat, failed: nat, dead: seq<OutboxId>)
  {
    && (forall id :: id in rows ==> rows[id].retryCount >= 0)
    && rows' == DispatchedAll(rows, Elements(ids), send, clock)
    && published == |AcceptedOf(ids, send)| && published + failed == |ids| && dead == DiedOf(rows, ids, send)
  }

  /** What one more dispatch adds. */
  lemma DispatchStep(
    rows: Table, ids: seq<OutboxId>, i: nat, send: OutboxId -> SendResult, clock: OutboxId -> int,
    published: nat, failed: nat, dead: seq<OutboxId>)
    requires i < |ids| && Distinct(ids) && ids[i] in rows
    requires forall id :: id in rows ==> rows[id].retryCount >= 0
    requires Progress(rows, DispatchedAll(rows, Elements(ids[..i]), send, clock), ids[..i], send, clock, published, failed, dead)
    ensures var id := ids[i];
            var before := DispatchedAll(rows, Elements(ids[..i]), send, clock);
            var ok := send(id).Accepts?;
            && id in before && before[id] == rows[id]
            && Progress(rows, before[id := Dispatched(rows[id], send(id), clock(id))], ids[..i + 1], send, clock,
                        if ok then published + 1 else published, if ok then failed else failed + 1,
                        if !ok && rows[id].retryCount + 1 >= rows[id].maxRetries then dead + [id] else dead)
  {
    FilterNext(ids, i, IsAccepted(send));
    FilterNext(ids, i, DiesIn(rows, send));
    NextElement(ids, i);
    DispatchedNext(rows, Elements(ids[..i]), ids[i], send, clock);
  }

  /** Progress of the selection: `ids` taken, `left` still to choose from. */
  ghost predicate Selecting(rows: Table, now: int, ids: seq<OutboxId>, left: set<OutboxId>) {
    && Distinct(ids)
    && left !! Elements(ids) && left + Elements(ids) == DueIds(rows, now)
    && |ids| + |left| == |DueIds(rows, now)|
    && (forall i :: 0 <= i < |ids| ==> ids[i] in rows)
    && (forall i, j :: 0 <= i < j < |ids| ==> rows[ids[i]].createdAt <= rows[ids[j]].createdAt)
    && (forall i, id :: 0 <= i < |ids| && id in left && id in rows ==> rows[ids[i]].createdAt <= rows[id].createdAt)
  }

  lemma SelectNextSorted(rows: Table, ids: seq<OutboxId>, id: OutboxId)
    requires id in rows
    requires forall i :: 0 <= i < |ids| ==> ids[i] in rows && rows[ids[i]].createdAt <= rows[id].createdAt
    requires forall i, j :: 0 <= i < j < |ids| ==> rows[ids[i]].createdAt <= rows[ids[j]].createdAt
    ensures var ids' := ids + [id];
            && (forall i :: 0 <= i < |ids'| ==> ids'[i] in rows && rows[ids'[i]].createdAt <= rows[id].createdAt)
            && (forall i, j :: 0 <= i < j < |ids'| ==> rows[ids'[i]].createdAt <= rows[ids'[j]].createdAt)
  {
  }

  lemma SelectNext(rows: Table, now: int, ids: seq<OutboxId>, left: set<OutboxId>, id: OutboxId)
    requires Selecting(rows, now, ids, left) && id in left
    requires forall other :: other in left ==> id in rows && other in rows && rows[id].createdAt <= rows[other].createdAt
    ensures Selecting(rows, now, ids + [id], left - {id})
  {
    var ids' := ids + [id];
    assert id !in Elements(ids) && id in DueIds(rows, now);
    assert Elements(ids') == Elements(ids) + {id};
    SelectNextSorted(rows, ids, id);
    forall i, j | 0 <= i < j < |ids'|
      ensures ids'[i] != ids'[j]
    {
      assert ids'[i] in Elements(ids);
    }
  }

  lemma SelectDone(rows: Table, now: int, batch: nat, ids: seq<OutboxId>, left: set<OutboxId>)
    requires Selecting(rows, now, ids, left) && |ids| <= batch && (|ids| == batch || left == {})
    ensures IsOldestBatch(rows, now, batch, ids)
  {
    forall i | 0 <= i < |ids|
      ensures ids[i] in DueIds(rows, now)
    {
      assert ids[i] in Elements(ids);
    }
    forall i, id | 0 <= i < |ids| && id in DueIds(rows, now) && id !in ids
      ensures rows[ids[i]].createdAt <= rows[id].createdAt
    {
      assert id !in Elements(ids) && id in left;
    }
  }

  lemma BatchIsKnown(rows: Table, now: int, batch: nat, ids: seq<OutboxId>)
    requires IsOldestBatch(rows, now, batch, ids)
    ensures Distinct(ids) && forall id :: id in ids ==> id in rows
  {
    forall id | id in ids
      ensures id in rows
    {
      assert id in DueIds(rows, now);
    }
  }

  /** The claims of a relay round followed by its dispatches. */
  lemma RelayComposes(rows: Table, ids: seq<OutboxId>, now: int, send: OutboxId -> SendResult, clock: OutboxId -> int)
    requires forall id :: id in rows ==> rows[id].retryCount >= 0
    requires forall id :: id in ids ==> id in rows
    ensures var claimed := PreparedAll(rows, Elements(ids), now);
            var mapped := MappedOf(rows, ids);
            var done := DispatchedAll(claimed, Elements(mapped), send, clock);
            && (forall id :: id in mapped ==> id in claimed)
            && RelayedTable(rows, done, now, ids, send, clock)
            && (forall id :: id in UnmappedOf(rows, ids) + DiedOf(claimed, mapped, send) <==>
                  id in ids && done[id].status == DeadLetter)
  {
    var claimed := PreparedAll(rows, Elements(ids), now);
    var mapped := MappedOf(rows, ids);
    var done := DispatchedAll(claimed, Elements(mapped), send, clock);
    forall id | id in ids
      ensures id in claimed && done[id] == Relayed(rows[id], now, send(id), clock(id))
      ensures id in UnmappedOf(rows, ids) + DiedOf(claimed, mapped, send) <==> done[id].status == DeadLetter
    {
      assert id in Elements(ids) && claimed[id] == Prepared(rows[id], now);
      assert id in mapped <==> Mapped(rows[id]);
      assert id in Elements(mapped) <==> id in mapped;
    }
    forall id | id in rows && id !in ids
      ensures done[id] == rows[id]
    {
      assert id !in Elements(ids) && id !in mapped;
    }
  }

  lemma {:induction false} FilterSplits<T(!new)>(xs: seq<T>, p: T -> bool, q: T -> bool)
    requires forall x :: q(x) <==> !p(x)
    ensures |Filter(xs, p)| + |Filter(xs, q)| == |xs|
    decreases |xs|
  {
    if xs != [] {
      FilterSplits(xs[..|xs| - 1], p, q);
    }
  }

  class OutboxService {
    /** The webhook_outbox table. */
    var rows: Table

    predicate Valid()
      reads this
    {
      forall id :: id in rows ==> rows[id].retryCount >= 0
    }

    constructor ()
      ensures Valid() && rows == map[]
    {
      rows := map[];
    }

    /** `_prepare_publish` inside its transaction; true if the row is to be sent. */
    method PreparePublish(id: OutboxId, now: int) returns (dispatch: bool)
      requires Valid() && id in rows
      modifies this
      ensures Valid() && rows == old(rows)[id := Prepared(old(rows[id]), now)]
      ensures dispatch <==> Mapped(old(rows[id]))
    {
      var entry := rows[id];
      if (entry.platform, entry.eventType) !in QUEUE_MAP {
        entry := entry.(status := DeadLetter);
        entry := entry.(lastError := Some("No queue mapping for " + entry.platform + "/" + entry.eventType));
        dispatch := false;
      } else {
        entry := entry.(status := Processing);
        entry := entry.(processAfter := now + PROCESSING_LEASE_SEC);
        dispatch := true;
      }
      rows := rows[id := entry];
    }

    /** `_record_published`. */
    method RecordPublished(id: OutboxId, now: int)
      requires Valid()
      modifies this
      ensures Valid()
      ensures rows == if id in old(rows) then old(rows)[id := RecordedPublished(old(rows)[id], now)] else old(rows)
    {
      if id !in rows {
        return;
      }
      var entry := rows[id];
      entry := entry.(status := Published);
      entry := entry.(publishedAt := Some(now));
      rows := rows[id := entry];
    }

    /** `_record_failure`; true if the row was dead-lettered. */
    method RecordFailure(id: OutboxId, error: string, now: int) returns (dead: bool)
      requires Valid()
      modifies this
      ensures Valid()
      ensures rows == if id in old(rows) then old(rows)[id := RecordedFailure(old(rows)[id], error, now)] else old(rows)
      ensures dead <==> id in old(rows) && old(rows)[id].retryCount + 1 >= old(rows)[id].maxRetries
    {
      if id !in rows {
        return false;
      }
      var entry := rows[id];
      entry := entry.(retryCount := entry.retryCount + 1);
      entry := entry.(lastError := Some(error));
      if entry.retryCount >= entry.maxRetries {
        entry := entry.(status := DeadLetter);
        rows := rows[id := entry];
        return true;
      }
      entry := entry.(status := Failed);
      var delay := RETRY_DELAYS_SEC[Min(entry.retryCount - 1, |RETRY_DELAYS_SEC| - 1)];
      entry := entry.(processAfter := now + delay);
      rows := rows[id := entry];
      return false;
    }

    /** `_dispatch`: send, then record the outcome. */
    method Dispatch(id: OutboxId, result: SendResult, now: int) returns (ok: bool, dead: bool)
      requires Valid() && id in rows
      modifies this
      ensures Valid() && ok == result.Accepts?
      ensures rows == old(rows)[id := Dispatched(old(rows[id]), result, now)]
      ensures dead <==> !ok && old(rows[id]).retryCount + 1 >= old(rows[id]).maxRetries
    {
      match result
      case Raises(error) =>
        dead := RecordFailure(id, error, now);
        ok := false;
      case Accepts =>
        RecordPublished(id, now);
        ok, dead := true, false;
    }

    /** `try_publish_immediately`: only a pending row, whatever its `process_after`. */
    method TryPublishImmediately(id: OutboxId, result: SendResult, now: int, later: int) returns (ok: bool)
      requires Valid()
      modifies this
      ensures Valid()
      ensures var taken := id in old(rows) && old(rows)[id].status == Pending;
              && rows == (if taken then old(rows)[id := Relayed(old(rows)[id], now, result, later)] else old(rows))
              && (ok <==> taken && Mapped(old(rows)[id]) && result.Accepts?)
    {
      ok := false;
      if id !in rows || rows[id].status != Pending {
        return;
      }
      var dispatch := PreparePublish(id, now);
      if dispatch {
        var dead: bool;
        ok, dead := Dispatch(id, result, later);
      }
    }

    /** `manual_retry`: from any status back to pending, then an immediate attempt. */
    method ManualRetry(id: OutboxId, result: SendResult, now: int, later: int) returns (ok: bool)
      requires Valid()
      modifies this
      ensures Valid()
      ensures rows == if id in old(rows)
                      then old(rows)[id := Relayed(Reset(old(rows)[id], now), now, result, later)] else old(rows)
      ensures ok <==> id in old(rows) && Mapped(old(rows)[id]) && result.Accepts?
    {
      if id !in rows {
        return false;
      }
      var entry := rows[id];
      entry := entry.(status := Pending);
      entry := entry.(processAfter := now);
      entry := entry.(retryCount := 0);
      entry := entry.(lastError := None);
      rows := rows[id := entry];
      ok := TryPublishImmediately(id, result, now, later);
    }

    /** One more of the oldest due rows that are not in `left`'s complement. */
    method Oldest(left: set<OutboxId>) returns (id: OutboxId)
      requires left != {} && left <= rows.Keys
      ensures id in left && forall other :: other in left ==> rows[id].createdAt <= rows[other].createdAt
    {
      id :| id in left;
      var unseen := left - {id};
      while unseen != {}
        invariant id in left && unseen <= left
        invariant forall other :: other in left - unseen ==> rows[id].createdAt <= rows[other].createdAt
        decreases unseen
      {
        var other :| other in unseen;
        unseen := unseen - {other};
        if rows[other].createdAt < rows[id].createdAt {
          id := other;
        }
      }
    }

    /** The relay's query. */
    method SelectDue(now: int, batch: nat) returns (ids: seq<OutboxId>)
      ensures IsOldestBatch(rows, now, batch, ids)
    {
      var left := set id | id in rows && Due(rows[id], now);
      ids := [];
      assert Selecting(rows, now, ids, left) by {
        assert Elements(ids) == {};
      }
      while |ids| < batch && left != {}
        invariant Selecting(rows, now, ids, left) && |ids| <= batch
        decreases left
      {
        var id := Oldest(left);
        SelectNext(rows, now, ids, left, id);
        ids := ids + [id];
        left := left - {id};
      }
      SelectDone(rows, now, batch, ids, left);
    }

    /** The claim transaction of the relay. */
    method ClaimBatch(entries: seq<OutboxId>, now: int) returns (dispatches: seq<OutboxId>, deadLetters: seq<OutboxId>)
      requires Valid() && Distinct(entries) && forall id :: id in entries ==> id in rows
      modifies this
      ensures Valid() && rows == PreparedAll(old(rows), Elements(entries), now)
      ensures dispatches == MappedOf(old(rows), entries) && deadLetters == UnmappedOf(old(rows), entries)
    {
      dispatches, deadLetters := [], [];
      PreparedNone(rows, now);
      assert entries[..0] == [];
      for i := 0 to |entries|
        invariant Valid() && rows == PreparedAll(old(rows), Elements(entries[..i]), now)
        invariant dispatches == MappedOf(old(rows), entries[..i]) && deadLetters == UnmappedOf(old(rows), entries[..i])
      {
        ClaimStep(old(rows), entries, i, now);
        var dispatch := PreparePublish(entries[i], now);
        if dispatch {
          dispatches := dispatches + [entries[i]];
        } else {
          deadLetters := deadLetters + [entries[i]];
        }
      }
      assert entries[..|entries|] == entries;
    }

    /** The sends of the relay, each recorded in a transaction of its own. */
    method DispatchAll(ids: seq<OutboxId>, send: OutboxId -> SendResult, clock: OutboxId -> int)
      returns (published: nat, failed: nat, dead: seq<OutboxId>)
      requires Valid() && Distinct(ids) && forall id :: id in ids ==> id in rows
      modifies this
      ensures Valid() && rows == DispatchedAll(old(rows), Elements(ids), send, clock)
      ensures published == |AcceptedOf(ids, send)| && published + failed == |ids|
      ensures dead == DiedOf(old(rows), ids, send)
    {
      published, failed, dead := 0, 0, [];
      DispatchedNone(rows, send, clock);
      assert ids[..0] == [];
      for i := 0 to |ids|
        invariant Valid() && Progress(old(rows), rows, ids[..i], send, clock, published, failed, dead)
      {
        DispatchStep(old(rows), ids, i, send, clock, published, failed, dead);
        var ok, died := Dispatch(ids[i], send(ids[i]), clock(ids[i]));
        if ok {
          published := published + 1;
        } else {
          failed := failed + 1;
          if died {
            dead := dead + [ids[i]];
          }
        }
      }
      assert ids[..|ids|] == ids;
    }

    /**
     `relay_pending`. `send` is the broker's answer for each row and `clock` the moment its outcome is
     recorded; `ids` lists the rows scanned.
     */
    method RelayPending(batch: nat, now: int, send: OutboxId -> SendResult, clock: OutboxId -> int)
      returns (stats: Stats, deadLetters: seq<OutboxId>, ghost ids: seq<OutboxId>)
      requires Valid()
      modifies this
      ensures Valid() && IsOldestBatch(old(rows), now, batch, ids)
      ensures RelayedTable(old(rows), rows, now, ids, send, clock)
      ensures stats.scanned == |ids| == stats.published + stats.failed + |UnmappedOf(old(rows), ids)|
      ensures stats.published == |AcceptedOf(MappedOf(old(rows), ids), send)|
      ensures forall id :: id in deadLetters <==> id in ids && rows[id].status == DeadLetter
    {
      var entries := SelectDue(now, batch);
      ids := entries;
      BatchIsKnown(rows, now, batch, entries);
      FilterDistinct(entries, MappedIn(rows));
      FilterSplits(entries, MappedIn(rows), UnmappedIn(rows));
      RelayComposes(rows, entries, now, send, clock);
      var dispatches, published, failed, dead;
      dispatches, deadLetters := ClaimBatch(entries, now);
      published, failed, dead := DispatchAll(dispatches, send, clock);
      deadLetters := deadLetters + dead;
      stats := Stats(published, failed, |entries|);
    }

    /** `cleanup_outbox`. */
    method CleanupOutbox(now: int) returns (deleted: nat)
      requires Valid()
      modifies this
      ensures Valid()
      ensures rows == map id | id in old(rows) && !Prunable(old(rows)[id], now) :: old(rows)[id]
      ensures deleted == |old(rows).Keys| - |rows.Keys|
    {
      var targets := set id | id in rows && Prunable(rows[id], now);
      deleted := |targets|;
      assert rows.Keys - targets == set id | id in rows && !Prunable(rows[id], now);
      rows := map id | id in rows && id !in targets :: rows[id];
      assert rows.Keys == old(rows).Keys - targets;
    }
  }
}
