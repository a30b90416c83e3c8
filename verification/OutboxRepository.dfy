/** The relay's outbox table and the four operations its loop performs on it
    (apps/outbox-relay/src/repositories/outbox.repository.ts). */
module OutboxRepository {
  import opened Events
  import opened Wrappers
  import Sets

  datatype Status = Pending | Publishing | Published | Failed | Retrying

  /** A row of OutboxEvent. Of the envelope in its payload column only the eventId matters here. */
  datatype Row = Row(
    envelopeId: EventId,
    eventType: string,
    aggregateId: string,
    createdAt: int,
    status: Status,
    retryCount: nat,
    lastAttemptAt: Option<int>)

  type Table = map<EventId, Row>

  predicate Claimable(r: Row) {
    r.status.Pending? || r.status.Retrying?
  }

  /** SQL's `"lastAttemptAt" < $1`, which is not true of NULL. */
  predicate Stale(r: Row, threshold: int) {
    r.status.Publishing? && r.lastAttemptAt.Some? && r.lastAttemptAt.value < threshold
  }

  /* What each operation does to one row. */

  function ClaimRow(r: Row, now: int): Row {
    r.(status := Publishing, lastAttemptAt := Some(now))
  }

  function RecoverRow(r: Row, retryLimit: int): Row {
    r.(status := if r.retryCount + 1 < retryLimit then Retrying else Failed, retryCount := r.retryCount + 1)
  }

  function PublishRow(r: Row): Row {
    if r.status.Publishing? then r.(status := Published) else r
  }

  /** Step 1 of `markFailedBatch`: only a PUBLISHING row is failed and counted. */
  function FailRow(r: Row): Row {
    if r.status.Publishing? then r.(status := Failed, retryCount := r.retryCount + 1) else r
  }

  /** Step 2 of `markFailedBatch`: any FAILED row of the batch still below the limit is revived. */
  function ReviveRow(r: Row, retryLimit: int): Row {
    if r.status.Failed? && r.retryCount < retryLimit then r.(status := Retrying) else r
  }

  /* The same on a table, for the rows named in `ids`. */

  function ClaimRows(t: Table, ids: set<EventId>, now: int): Table {
    map id | id in t :: if id in ids then ClaimRow(t[id], now) else t[id]
  }

  function RecoverRows(t: Table, ids: set<EventId>, retryLimit: int): Table {
    map id | id in t :: if id in ids then RecoverRow(t[id], retryLimit) else t[id]
  }

  function PublishRows(t: Table, ids: set<EventId>): Table {
    map id | id in t :: if id in ids then PublishRow(t[id]) else t[id]
  }

  function FailRows(t: Table, ids: set<EventId>, retryLimit: int): Table {
    map id | id in t :: if id in ids then ReviveRow(FailRow(t[id]), retryLimit) else t[id]
  }

  ghost function Ids(ids: seq<EventId>): set<EventId> {
    set id | id in ids
  }

  /** `ids` answers `SELECT id ... ORDER BY "createdAt" ASC LIMIT n` over `candidates`. */
  ghost predicate IsOldestFirst(t: Table, candidates: set<EventId>, n: nat, ids: seq<EventId>)
    requires candidates <= t.Keys
  {
    && (forall id :: id in ids ==> id in candidates)
    && (forall i, j :: 0 <= i < j < |ids| ==> ids[i] != ids[j])
    && |ids| == (if n < |candidates| then n else |candidates|)
    && (forall i, j :: 0 <= i < j < |ids| ==> t[ids[i]].createdAt <= t[ids[j]].createdAt)
    && (forall id, x :: id in ids && x in candidates && x !in ids ==> t[id].createdAt <= t[x].createdAt)
  }

  lemma {:induction false} OldestExists(t: Table, c: set<EventId>) returns (m: EventId)
    requires c != {} && c <= t.Keys
    ensures m in c && forall x :: x in c ==> t[m].createdAt <= t[x].createdAt
    decreases |c|
  {
    var x :| x in c;
    if c == {x} {
      m := x;
    } else {
      var m' := OldestExists(t, c - {x});
      assert forall y :: y in c ==> y == x || y in c - {x};
      m := if t[x].createdAt <= t[m'].createdAt then x else m';
    }
  }

  lemma {:induction false} DistinctCardinality(ids: seq<EventId>)
    requires forall i, j :: 0 <= i < j < |ids| ==> ids[i] != ids[j]
    ensures |Ids(ids)| == |ids|
  {
    if |ids| > 0 {
      var front := ids[..|ids| - 1];
      DistinctCardinality(front);
      assert ids == front + [ids[|ids| - 1]];
      assert Ids(ids) == Ids(front) + {ids[|ids| - 1]};
    }
  }

  /** The database's ordered, limited SELECT. */
  method SelectOldestFirst(t: Table, candidates: set<EventId>, n: nat) returns (ids: seq<EventId>)
    requires candidates <= t.Keys
    ensures IsOldestFirst(t, candidates, n, ids)
  {
    ids := [];
    var rest := candidates;
    while |ids| < n && rest != {}
      invariant rest <= candidates
      invariant forall id :: id in ids <==> id in candidates && id !in rest
      invariant forall i, j :: 0 <= i < j < |ids| ==> ids[i] != ids[j]
      invariant |ids| + |rest| == |candidates| && |ids| <= n
      invariant forall i, j :: 0 <= i < j < |ids| ==> t[ids[i]].createdAt <= t[ids[j]].createdAt
      invariant forall id, x :: id in ids && x in rest ==> t[id].createdAt <= t[x].createdAt
      decreases rest
    {
      ghost var least := OldestExists(t, rest);
      var m :| m in rest && forall x :: x in rest ==> t[m].createdAt <= t[x].createdAt;
      ids := ids + [m];
      rest := rest - {m};
    }
  }

  /** Recovering one more row of the list extends the set of recovered rows by exactly that row. */
  lemma RecoverOneMore(t: Table, ids: seq<EventId>, i: nat, retryLimit: int)
    requires i < |ids| && (forall id :: id in ids ==> id in t)
    requires forall j, k :: 0 <= j < k < |ids| ==> ids[j] != ids[k]
    ensures ids[i] in RecoverRows(t, Ids(ids[..i]), retryLimit)
    ensures RecoverRows(t, Ids(ids[..i]), retryLimit)[ids[i]] == t[ids[i]]
    ensures RecoverRows(t, Ids(ids[..i + 1]), retryLimit)
         == RecoverRows(t, Ids(ids[..i]), retryLimit)[ids[i] := RecoverRow(t[ids[i]], retryLimit)]
  {
    assert ids[..i + 1] == ids[..i] + [ids[i]];
    assert ids[i] !in ids[..i];
    assert Ids(ids[..i + 1]) == Ids(ids[..i]) + {ids[i]};
  }

  /** Without a LIMIT every candidate is selected. */
  lemma AllSelected(t: Table, candidates: set<EventId>, ids: seq<EventId>)
    requires candidates <= t.Keys && IsOldestFirst(t, candidates, |candidates|, ids)
    ensures Ids(ids) == candidates && forall id :: id in ids ==> id in t
    ensures forall j, k :: 0 <= j < k < |ids| ==> ids[j] != ids[k]
  {
    DistinctCardinality(ids);
    Sets.SubsetOfSameSize(Ids(ids), candidates);
  }

  lemma NothingRecovered(t: Table, ids: seq<EventId>, retryLimit: int)
    ensures RecoverRows(t, Ids(ids[..0]), retryLimit) == t
  {
  }

  /** What a timeout does, row by row. */
  ghost predicate TimesOut(t: Table, after: Table, timeout: int, retryLimit: int, locked: set<EventId>, now: int) {
    && after.Keys == t.Keys
    && forall id :: id in t ==>
         var row := t[id];
         var timedOut := row.lastAttemptAt.Some? && row.lastAttemptAt.value + timeout < now;
         after[id] ==
           if id in locked || row.status != Publishing || !timedOut then row
           else row.(status := if row.retryCount + 1 < retryLimit then Retrying else Failed,
                     retryCount := row.retryCount + 1)
  }

  lemma RecoveryTimesOut(t: Table, timeout: int, retryLimit: int, locked: set<EventId>, now: int)
    ensures var stale := set id | id in t && id !in locked && Stale(t[id], now - timeout);
      TimesOut(t, RecoverRows(t, stale, retryLimit), timeout, retryLimit, locked, now)
  {
  }

  /** The rows that wait for an attempt and that nobody has locked. */
  ghost function Waiting(t: Table, locked: set<EventId>): set<EventId> {
    set id | id in t && id !in locked && t[id].status in {Pending, Retrying}
  }

  /** What a poll does: the oldest waiting rows nobody has locked, as many as the limit allows, become
      PUBLISHING with a new attempt time, and no other row changes. */
  ghost predicate ClaimsOldest(t: Table, after: Table, limit: nat, locked: set<EventId>, now: int,
                               events: seq<EventId>) {
    && IsOldestFirst(t, Waiting(t, locked), limit, events)
    && after.Keys == t.Keys
    && forall id :: id in t ==>
         after[id] == if id in events then t[id].(status := Publishing, lastAttemptAt := Some(now)) else t[id]
  }

  lemma ClaimingClaims(t: Table, locked: set<EventId>, limit: nat, now: int, events: seq<EventId>)
    requires var eligible := set id | id in t && id !in locked && Claimable(t[id]);
      IsOldestFirst(t, eligible, limit, events)
    ensures ClaimsOldest(t, ClaimRows(t, Ids(events), now), limit, locked, now, events)
  {
    assert (set id | id in t && id !in locked && Claimable(t[id])) == Waiting(t, locked);
  }

  /** A poll that does not fill its limit leaves no unlocked row waiting. */
  lemma NoneLeftWaiting(t: Table, after: Table, limit: nat, locked: set<EventId>, now: int, events: seq<EventId>)
    requires ClaimsOldest(t, after, limit, locked, now, events) && |events| < limit
    ensures Waiting(after, locked) == {}
  {
    AllSelected(t, Waiting(t, locked), events);
    assert forall id :: id in Waiting(t, locked) ==> id in events;
  }

  /** What a failed batch does, row by row: only a FAILED row below the limit, which no run of the relay
      leaves behind, is touched without having been PUBLISHING. */
  ghost predicate CountsFailure(t: Table, after: Table, ids: seq<EventId>, retryLimit: int) {
    && after.Keys == t.Keys
    && (forall id :: id in t && id in ids && t[id].status == Publishing ==>
          after[id] == t[id].(status := if t[id].retryCount + 1 < retryLimit then Retrying else Failed,
                              retryCount := t[id].retryCount + 1))
    && (forall id :: id in t && id in ids && t[id].status != Publishing ==>
          after[id] == if t[id].status == Failed && t[id].retryCount < retryLimit then t[id].(status := Retrying)
                       else t[id])
    && (forall id :: id in t && id !in ids ==> after[id] == t[id])
  }

  lemma FailingCounts(t: Table, ids: seq<EventId>, retryLimit: int)
    ensures CountsFailure(t, FailRows(t, Ids(ids), retryLimit), ids, retryLimit)
  {
  }

  /** A claim is stale once more than the timeout has passed since it was made, and not before. */
  lemma StaleOnceTimedOut(t: Table, ids: set<EventId>, claimedAt: int, timeout: int, now: int, id: EventId)
    requires id in ids && id in t
    ensures Stale(ClaimRows(t, ids, claimedAt)[id], now - timeout) <==> now > claimedAt + timeout
  {
  }

  /** The table behind the relay. `locked` stands for the row locks other transactions hold, which
      `FOR UPDATE SKIP LOCKED` steps over. */
  class Repository {
    var rows: Table

    constructor (initial: Table)
      ensures rows == initial
    {
      rows := initial;
    }

    method ClaimPending(batchSize: nat, locked: set<EventId>, now: int) returns (events: seq<EventId>)
      modifies this
      ensures
        var eligible := set id | id in old(rows) && id !in locked && Claimable(old(rows)[id]);
        IsOldestFirst(old(rows), eligible, batchSize, events)
      ensures |events| <= batchSize
      ensures rows == ClaimRows(old(rows), Ids(events), now)
      ensures ClaimsOldest(old(rows), rows, batchSize, locked, now, events)
    {
      hide ClaimsOldest;
      var eligible := set id | id in rows && id !in locked && Claimable(rows[id]);
      events := SelectOldestFirst(rows, eligible, batchSize);
      ClaimingClaims(rows, locked, batchSize, now, events);
      if |events| == 0 {
        assert rows == ClaimRows(rows, Ids(events), now);
        return;
      }
      rows := map id | id in rows :: if id in events then ClaimRow(rows[id], now) else rows[id];
    }

    /** Recovers each stale row with its own UPDATE, inside one transaction. */
    method RecoverStale(staleTimeoutMs: int, retryLimit: int, locked: set<EventId>, now: int)
      modifies this
      ensures
        var stale := set id | id in old(rows) && id !in locked && Stale(old(rows)[id], now - staleTimeoutMs);
        rows == RecoverRows(old(rows), stale, retryLimit)
      ensures TimesOut(old(rows), rows, staleTimeoutMs, retryLimit, locked, now)
    {
      RecoveryTimesOut(rows, staleTimeoutMs, retryLimit, locked, now);
      hide RecoverRows, TimesOut, Stale, Ids, IsOldestFirst;
      var threshold := now - staleTimeoutMs;
      var stale := set id | id in rows && id !in locked && Stale(rows[id], threshold);
      var ids := SelectOldestFirst(rows, stale, |stale|);
      AllSelected(rows, stale, ids);
      NothingRecovered(rows, ids, retryLimit);
      var i := 0;
      while i < |ids|
        invariant 0 <= i <= |ids|
        invariant rows == RecoverRows(old(rows), Ids(ids[..i]), retryLimit)
      {
        var id := ids[i];
        RecoverOneMore(old(rows), ids, i, retryLimit);
        var nextRetryCount := rows[id].retryCount + 1;
        var newStatus := if nextRetryCount < retryLimit then Retrying else Failed;
        rows := rows[id := rows[id].(status := newStatus, retryCount := nextRetryCount)];
        i := i + 1;
      }
      assert ids[..|ids|] == ids;
    }

    method MarkPublishedBatch(items: seq<EventId>)
      modifies this
      ensures rows == PublishRows(old(rows), Ids(items)) && rows.Keys == old(rows).Keys
      ensures forall id :: id in old(rows) ==>
        rows[id] == if id in items && old(rows)[id].status == Publishing then old(rows)[id].(status := Published)
                    else old(rows)[id]
    {
      if |items| == 0 {
        assert rows == PublishRows(rows, Ids(items));
        return;
      }
      rows := map id | id in rows ::
          if id in items && rows[id].status.Publishing? then rows[id].(status := Published) else rows[id];
    }

    /** Two UPDATEs in one transaction: fail and count, then revive what is still below the limit. */
    method MarkFailedBatch(ids: seq<EventId>, retryLimit: int)
      modifies this
      ensures rows == FailRows(old(rows), Ids(ids), retryLimit)
      ensures CountsFailure(old(rows), rows, ids, retryLimit)
    {
      FailingCounts(rows, ids, retryLimit);
      hide CountsFailure;
      if |ids| == 0 {
        assert rows == FailRows(rows, Ids(ids), retryLimit);
        return;
      }
      rows := map id | id in rows ::
          if id in ids && rows[id].status.Publishing?
          then rows[id].(status := Failed, retryCount := rows[id].retryCount + 1)
          else rows[id];
      rows := map id | id in rows ::
          if id in ids && rows[id].status.Failed? && rows[id].retryCount < retryLimit
          then rows[id].(status := Retrying)
          else rows[id];
    }
  }
}
