/** The inbox table of one consumer group and the operations on it
    (packages/common/src/messaging/inbox.repository.ts). */
module InboxRepository {
  import opened Awaits
  import opened Events
  import opened Wrappers

  datatype Status = Received | Processing | Processed | Failed | Retrying | DlqSent

  datatype Row = Row(status: Status, retryCount: nat)

  datatype DbError = UniqueViolation | RecordNotFound | Unavailable

  /** The statuses a delivery may claim from. */
  predicate Claimable(status: Status) {
    status.Received? || status.Retrying? || status.Failed?
  }

  /* What each write does to the row of its event. A record that is absent stays absent under every
     write but the insert; a record that exists is never inserted over. */

  function Inserted(row: Option<Row>): Option<Row> {
    if row.Some? then row else Some(Row(Received, 0))
  }

  function Claimed(row: Option<Row>): Option<Row> {
    if row.Some? && Claimable(row.value.status) then Some(row.value.(status := Processing)) else row
  }

  /** `updateStatus`: no condition on the status found; the count is kept when none is given. */
  function Written(row: Option<Row>, status: Status, retryCount: Option<nat>): Option<Row> {
    if row.None? then None
    else Some(Row(status, if retryCount.Some? then retryCount.value else row.value.retryCount))
  }

  function ResetForReplay(row: Option<Row>): Option<Row> {
    if row.Some? && row.value.status.DlqSent? then Some(Row(Retrying, 0)) else row
  }

  /** One await as a caller sees it: the row the operation finds when it executes, which is whatever
      other workers have made of it, and how the await ends. */
  datatype Turn = Turn(found: Option<Row>, await: Await)

  /** What an await asks for: of this table, or of the handler, the broker, the offset store. */
  datatype Operation =
    | Read
    | InsertReceived
    | ClaimProcessing
    | Write(status: Status, retryCount: Option<nat>)
    | Reset
    | RunHandler
    | SendDeadLetter
    | CommitOffset

  /** An await that was performed, and the row it left behind. */
  datatype Done = Done(operation: Operation, row: Option<Row>)

  /** The table as one worker meets it while it handles the event `key`. `world` says what that
      worker's n-th await runs into; nothing is assumed about it. */
  class Repository {
    var rows: map<EventId, Row>
    var clock: nat
    const key: EventId
    const world: nat -> Turn
    /** The awaits performed so far. */
    ghost var left: seq<Done>

    constructor (key: EventId, world: nat -> Turn)
      ensures this.key == key && this.world == world && clock == 0 && left == []
    {
      this.key := key;
      this.world := world;
      rows := map[];
      clock := 0;
      left := [];
    }

    function Get(): Option<Row>
      reads this
    {
      if key in rows then Some(rows[key]) else None
    }

    /** The row a write leaves, given what the await ran into. */
    method Put(row: Option<Row>)
      modifies this`rows
      ensures Get() == row && rows - {key} == old(rows) - {key}
    {
      rows := match row
        case None => rows - {key}
        case Some(r) => rows[key := r];
    }

    /** Yields: other workers run, then the operation's turn comes. */
    method Yield() returns (await: Await)
      modifies this
      ensures left == old(left)
      ensures clock == old(clock) + 1 && Get() == world(old(clock)).found && await == world(old(clock)).await
      ensures rows - {key} == old(rows) - {key}
    {
      var turn := world(clock);
      Put(turn.found);
      await := turn.await;
      clock := clock + 1;
    }

    /** An await that changes nothing here: a read, a handler run, a broker call, an offset commit. */
    method Elsewhere(operation: Operation) returns (await: Await)
      modifies this
      ensures clock == old(clock) + 1
      ensures var t := world(old(clock)); Get() == t.found && await == t.await
      ensures left == old(left) + [Done(operation, Get())] && rows - {key} == old(rows) - {key}
    {
      await := Yield();
      left := left + [Done(operation, Get())];
    }

    method FindByEventIdAndConsumer() returns (r: Result<Option<Row>, DbError>)
      modifies this
      ensures clock == old(clock) + 1 && Get() == world(old(clock)).found
      ensures r == if world(old(clock)).await.Returns? then Ok(Get()) else Err(Unavailable)
      ensures left == old(left) + [Done(Read, Get())] && rows - {key} == old(rows) - {key}
    {
      var await := Elsewhere(Read);
      if await.Throws? {
        return Err(Unavailable);
      }
      return Ok(Get());
    }

    method RecordReceived() returns (r: Result<(), DbError>)
      modifies this
      ensures clock == old(clock) + 1
      ensures var t := world(old(clock));
        && Get() == (if TookEffect(t.await) then Inserted(t.found) else t.found)
        && r == (if t.await.Throws? then Err(Unavailable) else if t.found.Some? then Err(UniqueViolation) else Ok(()))
      ensures left == old(left) + [Done(InsertReceived, Get())] && rows - {key} == old(rows) - {key}
    {
      var await := Yield();
      if key in rows {
        left := left + [Done(InsertReceived, Get())];
        return Err(if await.Throws? then Unavailable else UniqueViolation);
      }
      if TookEffect(await) {
        rows := rows[key := Row(Received, 0)];
      }
      left := left + [Done(InsertReceived, Get())];
      r := if await.Throws? then Err(Unavailable) else Ok(());
    }

    /** Compare-and-set, then a separate read of the row it changed. */
    method TransitionToProcessing() returns (r: Result<Option<Row>, DbError>)
      modifies this
      ensures var t := world(old(clock));
        var won := t.await.Returns? && t.found.Some? && Claimable(t.found.value.status);
        if !won then
          && clock == old(clock) + 1
          && left == old(left) + [Done(ClaimProcessing, Get())]
          && Get() == (if TookEffect(t.await) then Claimed(t.found) else t.found)
          && r == (if t.await.Returns? then Ok(None) else Err(Unavailable))
        else
          && clock == old(clock) + 2
          && left == old(left) + [Done(ClaimProcessing, Claimed(t.found))] + [Done(Read, Get())]
          && Get() == world(old(clock) + 1).found
          && r == (if world(old(clock) + 1).await.Returns? then Ok(Get()) else Err(Unavailable))
      ensures rows - {key} == old(rows) - {key}
    {
      var await := Yield();
      var count := 0;
      if TookEffect(await) && key in rows && rows[key].status in {Received, Retrying, Failed} {
        rows := rows[key := rows[key].(status := Processing)];
        count := 1;
      }
      left := left + [Done(ClaimProcessing, Get())];
      if await.Throws? {
        return Err(Unavailable);
      }
      if count == 0 {
        return Ok(None);
      }
      r := FindByEventIdAndConsumer();
    }

    method UpdateStatus(status: Status, retryCount: Option<nat>) returns (r: Result<Row, DbError>)
      modifies this
      ensures clock == old(clock) + 1
      ensures var t := world(old(clock));
        && Get() == (if TookEffect(t.await) then Written(t.found, status, retryCount) else t.found)
        && r == (if t.await.Throws? then Err(Unavailable)
                 else if t.found.None? then Err(RecordNotFound) else Ok(Get().value))
      ensures left == old(left) + [Done(Write(status, retryCount), Get())] && rows - {key} == old(rows) - {key}
    {
      var await := Yield();
      if key !in rows {
        left := left + [Done(Write(status, retryCount), Get())];
        return Err(if await.Throws? then Unavailable else RecordNotFound);
      }
      if TookEffect(await) {
        rows := rows[key := Row(status, if retryCount.Some? then retryCount.value else rows[key].retryCount)];
      }
      left := left + [Done(Write(status, retryCount), Get())];
      r := if await.Throws? then Err(Unavailable) else Ok(rows[key]);
    }

    method PrepareForReplay() returns (r: Result<bool, DbError>)
      modifies this
      ensures clock == old(clock) + 1
      ensures var t := world(old(clock));
        && Get() == (if TookEffect(t.await) then ResetForReplay(t.found) else t.found)
        && r == (if t.await.Throws? then Err(Unavailable) else Ok(t.found.Some? && t.found.value.status.DlqSent?))
        && (t.await.Returns? && r == Ok(true) ==> Get() == Some(Row(Retrying, 0)))
        && (t.found.None? || t.found.value.status != DlqSent ==> Get() == t.found)
      ensures left == old(left) + [Done(Reset, Get())] && rows - {key} == old(rows) - {key}
    {
      var await := Yield();
      var count := 0;
      if TookEffect(await) && key in rows && rows[key].status == DlqSent {
        rows := rows[key := Row(Retrying, 0)];
        count := 1;
      }
      left := left + [Done(Reset, Get())];
      r := if await.Throws? then Err(Unavailable) else Ok(count > 0);
    }
  }
}
