/** Successive relay rounds against a broker that accepts every send. */
module OutboxDrain {
  import opened Common
  import opened OutboxRow
  import opened OutboxProtocol
  import opened OutboxService

  function AcceptAll(): OutboxId -> SendResult { id => Accepts }

  /** One round: the rows it picks and the table it leaves. */
  datatype Round = Round(now: int, ids: seq<OutboxId>, clock: OutboxId -> int, after: Table)

  /** `round` is what `relay_pending` does to `rows` when nothing else runs. */
  ghost predicate IsRound(rows: Table, batch: nat, round: Round) {
    && IsOldestBatch(rows, round.now, batch, round.ids)
    && RelayedTable(rows, round.after, round.now, round.ids, AcceptAll(), round.clock)
  }

  ghost predicate IsDrain(rows: Table, now: int, batch: nat, rounds: seq<Round>)
    decreases |rounds|
  {
    rounds == [] ||
    (rounds[0].now >= now && IsRound(rows, batch, rounds[0]) &&
     IsDrain(rounds[0].after, rounds[0].now, batch, rounds[1..]))
  }

  function Final(rows: Table, rounds: seq<Round>): Table {
    if rounds == [] then rows else rounds[|rounds| - 1].after
  }

  /** Every row that is not settled is due. */
  ghost predicate AllDue(rows: Table, now: int) {
    forall id :: id in rows && IsActive(rows[id]) ==> Due(rows[id], now)
  }

  /** If an unsettled row is still in `left`, so is every younger one. */
  ghost predicate OldestFirst(rows: Table, left: set<OutboxId>) {
    forall a, b :: a in left && a in rows && b in ActiveIds(rows) && rows[a].createdAt < rows[b].createdAt ==> b in left
  }

  lemma RoundShrinks(rows: Table, now: int, batch: nat, round: Round)
    requires AllDue(rows, now) && round.now >= now && IsRound(rows, batch, round)
    ensures AllDue(round.after, round.now)
    ensures ActiveIds(round.after) == ActiveIds(rows) - Elements(round.ids)
    ensures |ActiveIds(round.after)| == |ActiveIds(rows)| - Min(batch, |ActiveIds(rows)|)
    ensures OldestFirst(rows, ActiveIds(round.after))
    ensures forall id :: id in ActiveIds(round.after) ==> round.after[id] == rows[id]
  {
    var ids := round.ids;
    assert DueIds(rows, round.now) == ActiveIds(rows);
    forall id | id in rows
      ensures id in ActiveIds(round.after) <==> id in ActiveIds(rows) && id !in Elements(ids)
      ensures id in ActiveIds(round.after) ==> round.after[id] == rows[id]
    {
      if id in ids {
        assert id in DueIds(rows, round.now);
        assert round.after[id] == Relayed(rows[id], round.now, AcceptAll()(id), round.clock(id));
      }
    }
    DistinctSize(ids);
    assert Elements(ids) <= ActiveIds(rows);
    assert |ActiveIds(rows) - Elements(ids)| == |ActiveIds(rows)| - |Elements(ids)|;
    forall a, b | a in ActiveIds(rows) && b in ActiveIds(rows) && rows[a].createdAt < rows[b].createdAt && a !in ids
      ensures b !in ids
    {
      assert a in DueIds(rows, round.now);
    }
  }

  lemma RoundTakesABatch(rows: Table, now: int, batch: nat, round: Round)
    requires AllDue(rows, now) && round.now >= now && IsRound(rows, batch, round)
    ensures AllDue(round.after, round.now)
    ensures |ActiveIds(round.after)| == |ActiveIds(rows)| - Min(batch, |ActiveIds(rows)|)
  {
    RoundShrinks(rows, now, batch, round);
  }

  /** What is left of `n` rows after `rounds` batches. */
  function LeftAfter(n: nat, batch: nat, rounds: nat): nat
    decreases rounds
  {
    if rounds == 0 then n else LeftAfter(n - Min(batch, n), batch, rounds - 1)
  }

  lemma {:induction false} LeftAfterIs(n: nat, batch: nat, rounds: nat)
    ensures LeftAfter(n, batch, rounds) == if n >= rounds * batch then n - rounds * batch else 0
    decreases rounds
  {
    if rounds > 0 {
      LeftAfterIs(n - Min(batch, n), batch, rounds - 1);
      assert rounds * batch == batch + (rounds - 1) * batch;
      assert (rounds - 1) * batch >= 0;
    }
  }

  lemma {:induction false} DrainLeaves(rows: Table, now: int, batch: nat, rounds: seq<Round>)
    requires AllDue(rows, now) && IsDrain(rows, now, batch, rounds)
    ensures |ActiveIds(Final(rows, rounds))| == LeftAfter(|ActiveIds(rows)|, batch, |rounds|)
    decreases |rounds|
  {
    if rounds != [] {
      RoundTakesABatch(rows, now, batch, rounds[0]);
      DrainLeaves(rounds[0].after, rounds[0].now, batch, rounds[1..]);
      assert Final(rows, rounds) == Final(rounds[0].after, rounds[1..]);
    }
  }

  /**
   After k rounds exactly max(0, N - k * batch) of the N rows are left, so ceil(N / batch) rounds leave
   none.
   */
  lemma RelayDrains(rows: Table, now: int, batch: nat, rounds: seq<Round>)
    requires AllDue(rows, now) && IsDrain(rows, now, batch, rounds)
    ensures var n := |ActiveIds(rows)|;
            |ActiveIds(Final(rows, rounds))| == if n >= |rounds| * batch then n - |rounds| * batch else 0
  {
    DrainLeaves(rows, now, batch, rounds);
    LeftAfterIs(|ActiveIds(rows)|, batch, |rounds|);
  }

  /** What a round does to the rows that are left, whatever it does to the others. */
  ghost predicate Settles(rows: Table, after: Table) {
    && ActiveIds(after) <= ActiveIds(rows)
    && (forall id :: id in ActiveIds(after) ==> after[id] == rows[id])
    && OldestFirst(rows, ActiveIds(after))
  }

  ghost predicate SettlingChain(rows: Table, rounds: seq<Round>)
    decreases |rounds|
  {
    rounds == [] || (Settles(rows, rounds[0].after) && SettlingChain(rounds[0].after, rounds[1..]))
  }

  lemma {:induction false} DrainSettles(rows: Table, now: int, batch: nat, rounds: seq<Round>)
    requires AllDue(rows, now) && IsDrain(rows, now, batch, rounds)
    ensures SettlingChain(rows, rounds)
    decreases |rounds|
  {
    if rounds != [] {
      RoundShrinks(rows, now, batch, rounds[0]);
      DrainSettles(rounds[0].after, rounds[0].now, batch, rounds[1..]);
    }
  }

  lemma OldestFirstComposes(rows: Table, mid: Table, left: set<OutboxId>)
    requires left <= ActiveIds(mid) && OldestFirst(rows, ActiveIds(mid)) && OldestFirst(mid, left)
    requires forall id :: id in ActiveIds(mid) ==> id in rows && mid[id] == rows[id]
    ensures OldestFirst(rows, left)
  {
    forall a, b | a in left && a in rows && b in ActiveIds(rows) && rows[a].createdAt < rows[b].createdAt
      ensures b in left
    {
      assert a in ActiveIds(mid);
      assert b in ActiveIds(mid);
    }
  }

  lemma {:induction false} ChainSettles(rows: Table, rounds: seq<Round>)
    requires SettlingChain(rows, rounds)
    ensures Settles(rows, Final(rows, rounds))
    decreases |rounds|
  {
    if rounds != [] {
      ChainSettles(rounds[0].after, rounds[1..]);
      assert Final(rows, rounds) == Final(rounds[0].after, rounds[1..]);
      OldestFirstComposes(rows, rounds[0].after, ActiveIds(Final(rows, rounds)));
    }
  }

  /** No row is settled before one that is older, over any number of rounds. */
  lemma RelayIsOldestFirst(rows: Table, now: int, batch: nat, rounds: seq<Round>)
    requires AllDue(rows, now) && IsDrain(rows, now, batch, rounds)
    ensures OldestFirst(rows, ActiveIds(Final(rows, rounds)))
  {
    DrainSettles(rows, now, batch, rounds);
    ChainSettles(rows, rounds);
  }

  /** A row dispatched without interference goes through the protocol's claim, send and record. */
  lemma RelayFollowsProtocol(c: Cell, d: DispatchId, now: int, result: SendResult, later: int)
    requires Safe(c, now) && c.row.Some? && Due(c.row.value, now) && d !in c.live && Mapped(c.row.value)
    ensures var claimed := Apply(c, ClaimDue(d), now);
            var send := Send(d, result.Raises?, result.Accepts?);
            && Enabled(claimed, send, now)
            && (var sent := Apply(claimed, send, now);
                var record := if result.Raises? then RecordFailure(d, result.error) else RecordPublished(d);
                && Enabled(sent, record, later)
                && Apply(sent, record, later).row == Some(Relayed(c.row.value, now, result, later)))
  {
  }
}
