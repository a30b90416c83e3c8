/** The idempotency record of one (merchant, key) pair in Redis
    (apps/idempotency-service/src/repositories/redis.repository.ts). */
module RedisLock {
  import opened Awaits
  import opened Wrappers

  /** A UUID drawn by one call of `check`. */
  type OwnerId = nat

  datatype Hash = Hash(text: string)

  /** A response body: absent (null or undefined), otherwise falsy, the empty object, or data. */
  datatype Body = Absent | Falsy | Empty | Data(text: string)

  datatype Response = Response(statusCode: int, headers: map<string, string>, body: Body)

  datatype Status = InProgress | Completed

  datatype Record = Record(status: Status, ownerId: OwnerId, requestHash: Hash, response: Option<Response>)

  /** What Redis holds under the key: nothing, before the first request, after a release, or once the
      time to live has run out. */
  type Slot = Option<Record>

  function NewRecord(owner: OwnerId, hash: Hash): Record {
    Record(InProgress, owner, hash, None)
  }

  predicate Owns(slot: Slot, o: OwnerId) {
    slot.Some? && slot.value.ownerId == o
  }

  /** SET NX. */
  function SetNx(slot: Slot, record: Record): Slot {
    if slot.None? then Some(record) else slot
  }

  /** The compare-owner-and-set script. */
  function SetIfOwner(slot: Slot, owner: OwnerId, record: Record): Slot {
    if slot.Some? && slot.value.ownerId == owner then Some(record) else slot
  }

  /** The compare-owner-and-delete script. */
  function DeleteIfOwner(slot: Slot, owner: OwnerId): Slot {
    if slot.Some? && slot.value.ownerId == owner then None else slot
  }

  function CompletedRecord(owner: OwnerId, hash: Hash, response: Response): Record {
    Record(Completed, owner, hash, Some(response))
  }

  /** The key under which a pair is stored. */
  function RedisKey(merchantId: string, idempotencyKey: string): string {
    "idem:" + merchantId + ":" + idempotencyKey
  }

  /** The longer id is the other, a colon, and whatever follows. */
  predicate Extends(m: string, longer: string) {
    |m| < |longer| && longer[..|m|] == m && longer[|m|] == ':'
  }

  lemma KeyParts(m: string, k: string)
    ensures var key := RedisKey(m, k);
      |key| == |m| + |k| + 6 && key[5..5 + |m|] == m && key[5 + |m|] == ':' && key[6 + |m|..] == k
  {
  }

  lemma SharedKey(m: string, k: string, m': string, k': string)
    requires |m| < |m'| && RedisKey(m, k) == RedisKey(m', k')
    ensures Extends(m, m')
  {
    KeyParts(m, k);
    KeyParts(m', k');
    var key := RedisKey(m, k);
    assert m'[..|m|] == key[5..5 + |m'|][..|m|] == key[5..5 + |m|];
    assert m'[|m|] == key[5 + |m|];
  }

  /** Records are separate: a merchant's keys never meet, nor do those of two merchants neither of whose
      ids extends the other's past a colon. Ids without a colon, as UUIDs are, never do that. */
  lemma {:induction false} KeysAreSeparate(m: string, k: string, m': string, k': string)
    requires !Extends(m, m') && !Extends(m', m) && RedisKey(m, k) == RedisKey(m', k')
    ensures m == m' && k == k'
  {
    if |m| < |m'| {
      SharedKey(m, k, m', k');
    } else if |m'| < |m| {
      SharedKey(m', k', m, k);
    } else {
      KeyParts(m, k);
      KeyParts(m', k');
    }
  }

  /** Two merchants can share a record exactly when one's id extends the other's past a colon. */
  lemma MerchantsShareIff(m: string, m': string)
    requires m != m'
    ensures (exists k, k' :: RedisKey(m, k) == RedisKey(m', k')) <==> Extends(m, m') || Extends(m', m)
  {
    if Extends(m, m') {
      ShareWith(m, m');
    } else if Extends(m', m) {
      ShareWith(m', m);
      assert RedisKey(m, "") == RedisKey(m', m[|m'| + 1..] + ":");
    } else if k, k' :| RedisKey(m, k) == RedisKey(m', k') {
      KeysAreSeparate(m, k, m', k');
    }
  }

  lemma ShareWith(m: string, longer: string)
    requires Extends(m, longer)
    ensures RedisKey(m, longer[|m| + 1..] + ":") == RedisKey(longer, "")
  {
    assert longer == m + ":" + longer[|m| + 1..];
    assert "idem:" + m + ":" + (longer[|m| + 1..] + ":") == "idem:" + (m + ":" + longer[|m| + 1..]) + ":" + "";
  }

  datatype RedisError = Unavailable

  /** What one command runs into: the slot it finds when it executes, and how it ends. A command that
      never reaches Redis is one that throws without effect. */
  datatype Turn = Turn(found: Slot, await: Await)

  /** One slot as one caller meets it: `world(n)` is what the caller's n-th command runs into, after
      whatever other callers and the expiry have done. */
  class Store {
    var slot: Slot
    var clock: nat
    const world: nat -> Turn
    /** The slot after each command of this caller. */
    ghost var left: seq<Slot>

    constructor (world: nat -> Turn)
      ensures this.world == world && clock == 0 && left == []
    {
      this.world := world;
      slot := None;
      clock := 0;
      left := [];
    }

    method FindRequest() returns (r: Result<Slot, RedisError>)
      modifies this
      ensures clock == old(clock) + 1 && left == old(left) + [slot]
      ensures var turn := world(old(clock));
        slot == turn.found && r == if turn.await.Returns? then Ok(slot) else Err(Unavailable)
    {
      var turn := world(clock);
      slot := turn.found;
      clock := clock + 1;
      left := left + [slot];
      r := if turn.await.Returns? then Ok(slot) else Err(Unavailable);
    }

    method CreateInProgress(requestHash: Hash, ownerId: OwnerId) returns (r: Result<bool, RedisError>)
      modifies this
      ensures clock == old(clock) + 1 && left == old(left) + [slot]
      ensures var turn := world(old(clock));
        && slot == (if TookEffect(turn.await) then SetNx(turn.found, NewRecord(ownerId, requestHash)) else turn.found)
        && r == if turn.await.Returns? then Ok(turn.found.None?) else Err(Unavailable)
    {
      var turn := world(clock);
      slot := turn.found;
      var created := slot.None?;
      if created && TookEffect(turn.await) {
        slot := Some(Record(InProgress, ownerId, requestHash, None));
      }
      clock := clock + 1;
      left := left + [slot];
      r := if turn.await.Returns? then Ok(created) else Err(Unavailable);
    }

    method MarkCompleted(ownerId: OwnerId, requestHash: Hash, response: Response) returns (r: Result<bool, RedisError>)
      modifies this
      ensures clock == old(clock) + 1 && left == old(left) + [slot]
      ensures var turn := world(old(clock));
        && slot == (if TookEffect(turn.await)
                    then SetIfOwner(turn.found, ownerId, CompletedRecord(ownerId, requestHash, response))
                    else turn.found)
        && r == if turn.await.Returns? then Ok(Owns(turn.found, ownerId)) else Err(Unavailable)
    {
      var turn := world(clock);
      slot := turn.found;
      var updated := slot.Some? && slot.value.ownerId == ownerId;
      if updated && TookEffect(turn.await) {
        slot := Some(Record(Completed, ownerId, requestHash, Some(response)));
      }
      clock := clock + 1;
      left := left + [slot];
      r := if turn.await.Returns? then Ok(updated) else Err(Unavailable);
    }

    method Delete(ownerId: OwnerId) returns (r: Result<bool, RedisError>)
      modifies this
      ensures clock == old(clock) + 1 && left == old(left) + [slot]
      ensures var turn := world(old(clock));
        && slot == (if TookEffect(turn.await) then DeleteIfOwner(turn.found, ownerId) else turn.found)
        && r == if turn.await.Returns? then Ok(Owns(turn.found, ownerId)) else Err(Unavailable)
    {
      var turn := world(clock);
      slot := turn.found;
      var deleted := slot.Some? && slot.value.ownerId == ownerId;
      if deleted && TookEffect(turn.await) {
        slot := None;
      }
      clock := clock + 1;
      left := left + [slot];
      r := if turn.await.Returns? then Ok(deleted) else Err(Unavailable);
    }
  }
}
