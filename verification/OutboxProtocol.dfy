/** Any number of relay batches, on any number of relay processes, working one outbox table.

    A batch claims rows, sends them, and then marks what it claimed. It carries no token: by the time
    it marks, stale recovery may have given its rows to another batch. Every operation below is one
    database transaction or one append to the broker's log; the order in which batches take them is
    arbitrary, a batch can die at any point, a transaction can take effect and still be reported as
    failed, and a message of a send that failed (or whose process died) may reach the log later. */
module OutboxProtocol {
  import opened Events
  import opened OutboxRepository
  import opened Wrappers
  import Sums

  type BatchId = nat

  datatype Phase =
    | Sending   // publisher.publishBatch has not returned
    | Sent      // it returned; markPublishedBatch is next
    | Failing   // something threw; markFailedBatch is next

  datatype Batch = Batch(ids: set<EventId>, phase: Phase)

  /** History of one row: how often it was claimed, how many copies of its message were appended, how
      often its status or retryCount changed, and the batches whose copy has not reached the log. */
  datatype Track = Track(claims: nat, copies: nat, moves: nat, unsent: set<BatchId>)

  datatype State = State(
    rows: Table,
    tracks: map<EventId, Track>,
    batches: map<BatchId, Batch>,
    nextBatch: BatchId,
    log: seq<EventId>)

  datatype Action =
    | Create(id: EventId, eventType: string, aggregateId: string, createdAt: int)
    | Claim(ids: set<EventId>, now: int)
    | Recover(ids: set<EventId>)
    | Append(batch: BatchId, id: EventId)
    | SendSucceeds(batch: BatchId)
    | SendFails(batch: BatchId)
    | MarkPublished(batch: BatchId, committed: bool, reported: bool)
    | MarkFailed(batch: BatchId, committed: bool)
    | Crash(batch: BatchId)

  const Initial := State(map[], map[], map[], 0, [])

  /** The retry limit the code enforces: a limit below 1 still lets a row be claimed once. */
  function Limit(retryLimit: int): nat {
    if retryLimit < 1 then 1 else retryLimit
  }

  /** A claim takes any rows that are claimable, recovery any that are PUBLISHING: every choice the
      ordering, the LIMIT, the clock and SKIP LOCKED can make is among these. */
  ghost predicate Enabled(s: State, a: Action) {
    match a
    case Create(id, _, _, _) => id !in s.rows
    case Claim(ids, _) => ids != {} && ids <= s.rows.Keys && forall id :: id in ids ==> Claimable(s.rows[id])
    case Recover(ids) => ids <= s.rows.Keys && forall id :: id in ids ==> s.rows[id].status.Publishing?
    case Append(b, id) => id in s.tracks && b in s.tracks[id].unsent
    case SendSucceeds(b) =>
      && b in s.batches && s.batches[b].phase.Sending?
      && forall id :: id in s.batches[b].ids && id in s.tracks ==> b !in s.tracks[id].unsent
    case SendFails(b) => b in s.batches && s.batches[b].phase.Sending?
    case MarkPublished(b, committed, reported) =>
      b in s.batches && s.batches[b].phase.Sent? && (reported ==> committed)
    case MarkFailed(b, _) => b in s.batches && s.batches[b].phase.Failing?
    case Crash(b) => b in s.batches
  }

  predicate Moved(before: Row, after: Row) {
    before.status != after.status || before.retryCount != after.retryCount
  }

  function Move(t: Track, before: Row, after: Row): Track {
    if Moved(before, after) then t.(moves := t.moves + 1) else t
  }

  function MoveTracks(tracks: map<EventId, Track>, before: Table, after: Table): map<EventId, Track> {
    map id | id in tracks :: if id in before && id in after then Move(tracks[id], before[id], after[id]) else tracks[id]
  }

  /** Installs a new table with the same rows, counting the rows that moved. */
  function WithRows(s: State, rows: Table): State {
    s.(rows := rows, tracks := MoveTracks(s.tracks, s.rows, rows))
  }

  function ClaimTrack(t: Track, b: BatchId): Track {
    t.(claims := t.claims + 1, unsent := t.unsent + {b})
  }

  function ClaimTracks(tracks: map<EventId, Track>, ids: set<EventId>, b: BatchId): map<EventId, Track> {
    map id | id in tracks :: if id in ids then ClaimTrack(tracks[id], b) else tracks[id]
  }

  function Claimed(s: State, ids: set<EventId>): State {
    s.(tracks := ClaimTracks(s.tracks, ids, s.nextBatch),
       batches := s.batches[s.nextBatch := Batch(ids, Sending)],
       nextBatch := s.nextBatch + 1)
  }

  function Apply(retryLimit: int, s: State, a: Action): State {
    match a
    case Create(id, eventType, aggregateId, createdAt) =>
      s.(rows := s.rows[id := Row(id, eventType, aggregateId, createdAt, Pending, 0, None)],
         tracks := s.tracks[id := Track(0, 0, 0, {})])
    case Claim(ids, now) => Claimed(WithRows(s, ClaimRows(s.rows, ids, now)), ids)
    case Recover(ids) => WithRows(s, RecoverRows(s.rows, ids, retryLimit))
    case Append(b, id) =>
      if id in s.tracks then
        s.(tracks := s.tracks[id := s.tracks[id].(
             copies := s.tracks[id].copies + 1, unsent := s.tracks[id].unsent - {b})],
           log := s.log + [id])
      else s
    case SendSucceeds(b) => InPhase(s, b, Sent)
    case SendFails(b) => InPhase(s, b, Failing)
    case MarkPublished(b, committed, reported) =>
      var s' := if committed && b in s.batches then WithRows(s, PublishRows(s.rows, s.batches[b].ids)) else s;
      if reported then Ended(s', b) else InPhase(s', b, Failing)
    case MarkFailed(b, committed) =>
      var s' := if committed && b in s.batches then WithRows(s, FailRows(s.rows, s.batches[b].ids, retryLimit)) else s;
      Ended(s', b)
    case Crash(b) => Ended(s, b)
  }

  function InPhase(s: State, b: BatchId, phase: Phase): State {
    if b in s.batches then s.(batches := s.batches[b := s.batches[b].(phase := phase)]) else s
  }

  function Ended(s: State, b: BatchId): State {
    s.(batches := s.batches - {b})
  }

  /** `acts` can be taken one after another from `s`. */
  ghost predicate Legal(retryLimit: int, s: State, acts: seq<Action>)
    decreases |acts|
  {
    |acts| == 0 || (Enabled(s, acts[0]) && Legal(retryLimit, Apply(retryLimit, s, acts[0]), acts[1..]))
  }

  ghost function Exec(retryLimit: int, s: State, acts: seq<Action>): State
    decreases |acts|
  {
    if |acts| == 0 then s else Exec(retryLimit, Apply(retryLimit, s, acts[0]), acts[1..])
  }

  /* ---- The invariant ---- */

  /** How many times the log holds a message of this row. */
  ghost function Copies(s: State, id: EventId): nat {
    multiset(s.log)[id]
  }

  predicate InClaim(r: Row) {
    r.status.Publishing? || r.status.Published?
  }

  /** What is left to move: two moves for each attempt a waiting row still has, one less once it is
      claimed, none when it is terminal. */
  function Rank(r: Row, limit: nat): nat {
    if r.retryCount >= limit then 0
    else match r.status
      case Pending => 2 * (limit - r.retryCount)
      case Retrying => 2 * (limit - r.retryCount)
      case Publishing => 2 * (limit - r.retryCount) - 1
      case Published => 0
      case Failed => 0
  }

  predicate RowOk(r: Row, t: Track, limit: nat) {
    && t.claims == r.retryCount + (if InClaim(r) then 1 else 0)
    && t.copies + |t.unsent| == t.claims
    && (if r.status.Failed? then r.retryCount == limit else r.retryCount < limit)
    && (r.status.Published? ==> t.copies > 0)
    && t.moves + Rank(r, limit) <= 2 * limit
  }

  predicate TrackOk(t: Track, nextBatch: BatchId) {
    forall b :: b in t.unsent ==> b < nextBatch
  }

  /** A batch's message for a row is in the log or still to come; once the send returned, it is in. */
  ghost predicate BatchOk(b: BatchId, batch: Batch, tracks: map<EventId, Track>) {
    forall id :: id in batch.ids ==>
      && id in tracks
      && (tracks[id].copies > 0 || (b in tracks[id].unsent && !batch.phase.Sent?))
  }

  ghost predicate Inv(retryLimit: int, s: State) {
    && s.rows.Keys == s.tracks.Keys
    && (forall id :: id in s.rows ==> s.rows[id].envelopeId == id)
    && (forall id :: id in s.rows ==> RowOk(s.rows[id], s.tracks[id], Limit(retryLimit)))
    && (forall id :: id in s.tracks ==> TrackOk(s.tracks[id], s.nextBatch))
    && (forall b :: b in s.batches ==> b < s.nextBatch && BatchOk(b, s.batches[b], s.tracks))
  }

  /* What each row operation does to the row's accounting. */

  lemma ClaimRowOk(r: Row, t: Track, limit: nat, now: int, b: BatchId)
    requires RowOk(r, t, limit) && Claimable(r) && b !in t.unsent
    ensures RowOk(ClaimRow(r, now), ClaimTrack(Move(t, r, ClaimRow(r, now)), b), limit)
    ensures Moved(r, ClaimRow(r, now)) && Rank(ClaimRow(r, now), limit) < Rank(r, limit)
  {
  }

  lemma RecoverRowOk(r: Row, t: Track, retryLimit: int)
    requires RowOk(r, t, Limit(retryLimit)) && r.status.Publishing?
    ensures RowOk(RecoverRow(r, retryLimit), Move(t, r, RecoverRow(r, retryLimit)), Limit(retryLimit))
    ensures Moved(r, RecoverRow(r, retryLimit))
    ensures Rank(RecoverRow(r, retryLimit), Limit(retryLimit)) < Rank(r, Limit(retryLimit))
  {
  }

  lemma PublishRowOk(r: Row, t: Track, limit: nat)
    requires RowOk(r, t, limit) && t.copies > 0
    ensures RowOk(PublishRow(r), Move(t, r, PublishRow(r)), limit)
    ensures if Moved(r, PublishRow(r)) then Rank(PublishRow(r), limit) < Rank(r, limit) else PublishRow(r) == r
  {
  }

  lemma FailRowOk(r: Row, t: Track, retryLimit: int)
    requires RowOk(r, t, Limit(retryLimit))
    ensures var r' := ReviveRow(FailRow(r), retryLimit);
      && RowOk(r', Move(t, r, r'), Limit(retryLimit))
      && (if Moved(r, r') then Rank(r', Limit(retryLimit)) < Rank(r, Limit(retryLimit)) else r' == r)
  {
  }

  /** Nothing a batch relies on is taken back. */
  predicate Kept(before: map<EventId, Track>, after: map<EventId, Track>) {
    forall id :: id in before ==>
      id in after && before[id].copies <= after[id].copies && before[id].unsent <= after[id].unsent
  }

  lemma BatchesKept(s: State, after: map<EventId, Track>)
    requires forall b :: b in s.batches ==> BatchOk(b, s.batches[b], s.tracks)
    requires Kept(s.tracks, after)
    ensures forall b :: b in s.batches ==> BatchOk(b, s.batches[b], after)
  {
    forall b | b in s.batches
      ensures BatchOk(b, s.batches[b], after)
    {
      assert BatchOk(b, s.batches[b], s.tracks);
    }
  }

  /** A table operation that keeps each row's accounting keeps the whole invariant. */
  lemma InvWithRows(retryLimit: int, s: State, rows: Table)
    requires Inv(retryLimit, s) && rows.Keys == s.rows.Keys
    requires forall id :: id in rows ==>
      && rows[id].envelopeId == id
      && RowOk(rows[id], Move(s.tracks[id], s.rows[id], rows[id]), Limit(retryLimit))
    ensures Inv(retryLimit, WithRows(s, rows))
  {
    hide RowOk, BatchOk;
    var s' := WithRows(s, rows);
    assert s'.tracks.Keys == s.tracks.Keys;
    BatchesKept(s, s'.tracks);
  }

  lemma ClaimedRow(s: State, ids: set<EventId>, now: int, id: EventId, limit: nat)
    requires id in s.rows && id in s.tracks && RowOk(s.rows[id], s.tracks[id], limit)
    requires TrackOk(s.tracks[id], s.nextBatch) && (id in ids ==> Claimable(s.rows[id]))
    ensures var s' := Claimed(WithRows(s, ClaimRows(s.rows, ids, now)), ids);
      && id in s'.rows && id in s'.tracks
      && s'.rows[id].envelopeId == s.rows[id].envelopeId
      && RowOk(s'.rows[id], s'.tracks[id], limit) && TrackOk(s'.tracks[id], s'.nextBatch)
      && s'.tracks[id].copies == s.tracks[id].copies
      && s'.tracks[id].unsent == s.tracks[id].unsent + (if id in ids then {s.nextBatch} else {})
  {
    if id in ids {
      ClaimRowOk(s.rows[id], s.tracks[id], limit, now, s.nextBatch);
    }
  }

  lemma ClaimedBatches(s: State, ids: set<EventId>, now: int)
    requires ids <= s.tracks.Keys
    requires forall b :: b in s.batches ==> b < s.nextBatch && BatchOk(b, s.batches[b], s.tracks)
    ensures var s' := Claimed(WithRows(s, ClaimRows(s.rows, ids, now)), ids);
      forall b :: b in s'.batches ==> b < s'.nextBatch && BatchOk(b, s'.batches[b], s'.tracks)
  {
    hide RowOk;
    BatchesKept(s, Claimed(WithRows(s, ClaimRows(s.rows, ids, now)), ids).tracks);
  }

  lemma InvClaim(retryLimit: int, s: State, ids: set<EventId>, now: int)
    requires Inv(retryLimit, s) && Enabled(s, Claim(ids, now))
    ensures Inv(retryLimit, Apply(retryLimit, s, Claim(ids, now)))
  {
    hide RowOk, TrackOk, BatchOk, Move, ClaimRow, ClaimTrack;
    var s' := Claimed(WithRows(s, ClaimRows(s.rows, ids, now)), ids);
    assert s'.rows.Keys == s.rows.Keys == s'.tracks.Keys;
    forall id | id in s.rows
      ensures s'.rows[id].envelopeId == id
      ensures RowOk(s'.rows[id], s'.tracks[id], Limit(retryLimit)) && TrackOk(s'.tracks[id], s'.nextBatch)
    {
      ClaimedRow(s, ids, now, id, Limit(retryLimit));
    }
    ClaimedBatches(s, ids, now);
  }

  lemma InvAppend(retryLimit: int, s: State, b: BatchId, id: EventId)
    requires Inv(retryLimit, s) && Enabled(s, Append(b, id))
    ensures Inv(retryLimit, Apply(retryLimit, s, Append(b, id)))
  {
    var s' := Apply(retryLimit, s, Append(b, id));
    assert TrackOk(s.tracks[id], s.nextBatch);
    forall c | c in s'.batches
      ensures BatchOk(c, s'.batches[c], s'.tracks)
    {
      assert BatchOk(c, s.batches[c], s.tracks);
    }
  }

  lemma InvPhase(retryLimit: int, s: State, b: BatchId, phase: Phase)
    requires Inv(retryLimit, s)
    requires phase.Sent? && b in s.batches ==> BatchOk(b, s.batches[b].(phase := Sent), s.tracks)
    ensures Inv(retryLimit, InPhase(s, b, phase)) && Inv(retryLimit, Ended(s, b))
  {
    if b in s.batches {
      assert BatchOk(b, s.batches[b], s.tracks);
    }
  }

  lemma InvCreate(retryLimit: int, s: State, id: EventId, row: Row)
    requires Inv(retryLimit, s) && id !in s.rows && row.envelopeId == id && row.status.Pending? && row.retryCount == 0
    ensures Inv(retryLimit, s.(rows := s.rows[id := row], tracks := s.tracks[id := Track(0, 0, 0, {})]))
  {
    var t := Track(0, 0, 0, {});
    assert RowOk(row, t, Limit(retryLimit)) && TrackOk(t, s.nextBatch);
    hide RowOk, TrackOk, BatchOk;
    BatchesKept(s, s.tracks[id := t]);
  }

  /** However late a batch marks, and whoever holds its rows by then. */
  lemma InvMarkPublished(retryLimit: int, s: State, b: BatchId)
    requires Inv(retryLimit, s) && b in s.batches && s.batches[b].phase.Sent?
    ensures Inv(retryLimit, WithRows(s, PublishRows(s.rows, s.batches[b].ids)))
  {
    assert BatchOk(b, s.batches[b], s.tracks);
    var rows := PublishRows(s.rows, s.batches[b].ids);
    forall id | id in s.rows
      ensures RowOk(rows[id], Move(s.tracks[id], s.rows[id], rows[id]), Limit(retryLimit))
    {
      if id in s.batches[b].ids {
        PublishRowOk(s.rows[id], s.tracks[id], Limit(retryLimit));
      }
    }
    InvWithRows(retryLimit, s, rows);
  }

  lemma InvMarkFailed(retryLimit: int, s: State, b: BatchId)
    requires Inv(retryLimit, s) && b in s.batches
    ensures Inv(retryLimit, WithRows(s, FailRows(s.rows, s.batches[b].ids, retryLimit)))
  {
    var rows := FailRows(s.rows, s.batches[b].ids, retryLimit);
    forall id | id in s.rows
      ensures RowOk(rows[id], Move(s.tracks[id], s.rows[id], rows[id]), Limit(retryLimit))
    {
      FailRowOk(s.rows[id], s.tracks[id], retryLimit);
    }
    InvWithRows(retryLimit, s, rows);
  }

  lemma InvRecover(retryLimit: int, s: State, ids: set<EventId>)
    requires Inv(retryLimit, s) && Enabled(s, Recover(ids))
    ensures Inv(retryLimit, WithRows(s, RecoverRows(s.rows, ids, retryLimit)))
  {
    var rows := RecoverRows(s.rows, ids, retryLimit);
    forall id | id in rows
      ensures RowOk(rows[id], Move(s.tracks[id], s.rows[id], rows[id]), Limit(retryLimit))
    {
      if id in ids {
        RecoverRowOk(s.rows[id], s.tracks[id], retryLimit);
      }
    }
    InvWithRows(retryLimit, s, rows);
  }

  lemma InvStep(retryLimit: int, s: State, a: Action)
    requires Inv(retryLimit, s) && Enabled(s, a)
    ensures Inv(retryLimit, Apply(retryLimit, s, a))
  {
    match a
    case Create(id, eventType, aggregateId, createdAt) =>
      InvCreate(retryLimit, s, id, Row(id, eventType, aggregateId, createdAt, Pending, 0, None));
    case Claim(ids, now) => InvClaim(retryLimit, s, ids, now);
    case Recover(ids) => InvRecover(retryLimit, s, ids);
    case Append(b, id) => InvAppend(retryLimit, s, b, id);
    case SendSucceeds(b) =>
      assert BatchOk(b, s.batches[b], s.tracks);
      InvPhase(retryLimit, s, b, Sent);
    case SendFails(b) => InvPhase(retryLimit, s, b, Failing);
    case MarkPublished(b, committed, _) =>
      InvMarkPublished(retryLimit, s, b);
      InvPhase(retryLimit, if committed then WithRows(s, PublishRows(s.rows, s.batches[b].ids)) else s, b, Failing);
    case MarkFailed(b, committed) =>
      InvMarkFailed(retryLimit, s, b);
      var s' := if committed then WithRows(s, FailRows(s.rows, s.batches[b].ids, retryLimit)) else s;
      InvPhase(retryLimit, s', b, Failing);
    case Crash(b) => InvPhase(retryLimit, s, b, Failing);
  }

  /** The log holds exactly the counted copies. */
  ghost predicate LogOk(s: State) {
    forall id :: Copies(s, id) == if id in s.tracks then s.tracks[id].copies else 0
  }

  predicate SameCopies(before: map<EventId, Track>, after: map<EventId, Track>) {
    && before.Keys <= after.Keys
    && (forall id :: id in after ==> after[id].copies == if id in before then before[id].copies else 0)
  }

  lemma OnlyAppendsCopy(retryLimit: int, s: State, a: Action)
    requires Enabled(s, a) && !a.Append? && s.rows.Keys == s.tracks.Keys
    ensures Apply(retryLimit, s, a).log == s.log && SameCopies(s.tracks, Apply(retryLimit, s, a).tracks)
  {
  }

  lemma LogStep(retryLimit: int, s: State, a: Action)
    requires LogOk(s) && s.rows.Keys == s.tracks.Keys && Enabled(s, a)
    ensures LogOk(Apply(retryLimit, s, a))
  {
    var s' := Apply(retryLimit, s, a);
    if a.Append? {
      assert forall x :: Copies(s', x) == Copies(s, x) + (if x == a.id then 1 else 0);
    } else {
      OnlyAppendsCopy(retryLimit, s, a);
    }
  }

  lemma {:induction false} InvRun(retryLimit: int, s: State, acts: seq<Action>)
    requires Inv(retryLimit, s) && LogOk(s) && Legal(retryLimit, s, acts)
    ensures Inv(retryLimit, Exec(retryLimit, s, acts)) && LogOk(Exec(retryLimit, s, acts))
    decreases |acts|
  {
    if |acts| > 0 {
      LogStep(retryLimit, s, acts[0]);
      InvStep(retryLimit, s, acts[0]);
      InvRun(retryLimit, Apply(retryLimit, s, acts[0]), acts[1..]);
    }
  }

  ghost predicate Reachable(retryLimit: int, s: State) {
    exists acts :: Legal(retryLimit, Initial, acts) && s == Exec(retryLimit, Initial, acts)
  }

  lemma {:induction false} ExecExtend(retryLimit: int, s: State, acts: seq<Action>, a: Action)
    requires Legal(retryLimit, s, acts) && Enabled(Exec(retryLimit, s, acts), a)
    ensures Legal(retryLimit, s, acts + [a])
    ensures Exec(retryLimit, s, acts + [a]) == Apply(retryLimit, Exec(retryLimit, s, acts), a)
    decreases |acts|
  {
    hide Enabled, Apply;
    if |acts| > 0 {
      ExecExtend(retryLimit, Apply(retryLimit, s, acts[0]), acts[1..], a);
      assert (acts + [a])[1..] == acts[1..] + [a];
    } else {
      assert acts + [a] == [a];
      assert [a][1..] == [];
    }
  }

  lemma ReachableStep(retryLimit: int, s: State, a: Action)
    requires Reachable(retryLimit, s) && Enabled(s, a)
    ensures Reachable(retryLimit, Apply(retryLimit, s, a))
  {
    hide Enabled, Apply;
    var acts :| Legal(retryLimit, Initial, acts) && s == Exec(retryLimit, Initial, acts);
    ExecExtend(retryLimit, Initial, acts, a);
  }

  lemma {:induction false} ReachableRun(retryLimit: int, s: State, acts: seq<Action>)
    requires Reachable(retryLimit, s) && Legal(retryLimit, s, acts)
    ensures Reachable(retryLimit, Exec(retryLimit, s, acts))
    decreases |acts|
  {
    hide Reachable, Enabled, Apply;
    if |acts| > 0 {
      ReachableStep(retryLimit, s, acts[0]);
      ReachableRun(retryLimit, Apply(retryLimit, s, acts[0]), acts[1..]);
    }
  }

  lemma ReachableInv(retryLimit: int, s: State)
    requires Reachable(retryLimit, s)
    ensures Inv(retryLimit, s) && LogOk(s)
  {
    var acts :| Legal(retryLimit, Initial, acts) && s == Exec(retryLimit, Initial, acts);
    InvRun(retryLimit, Initial, acts);
  }

  /* ---- What it gives ---- */

  /** Conservation: every claim of a row is either a counted failure or the claim it is in, so no row
      is claimed, or reaches the log, more often than the limit allows. */
  lemma ClaimConservation(retryLimit: int, s: State, id: EventId)
    requires Reachable(retryLimit, s) && id in s.rows
    ensures id in s.tracks
    ensures s.tracks[id].claims == s.rows[id].retryCount + (if InClaim(s.rows[id]) then 1 else 0)
    ensures if s.rows[id].status.Failed? then s.rows[id].retryCount == Limit(retryLimit)
            else s.rows[id].retryCount < Limit(retryLimit)
    ensures Copies(s, id) <= s.tracks[id].claims <= Limit(retryLimit)
  {
    ReachableInv(retryLimit, s);
  }

  /** Publication safety: a PUBLISHED row's event is in the broker's log, at least once and at most
      as often as the limit, whichever batch marked it. */
  lemma PublishedIsInLog(retryLimit: int, s: State, id: EventId)
    requires Reachable(retryLimit, s) && id in s.rows && s.rows[id].status.Published?
    ensures s.rows[id].envelopeId == id
    ensures 1 <= Copies(s, id) <= Limit(retryLimit)
  {
    ReachableInv(retryLimit, s);
  }

  predicate Terminal(r: Row) {
    r.status.Published? || r.status.Failed?
  }

  lemma TerminalStep(retryLimit: int, s: State, a: Action, id: EventId)
    requires Inv(retryLimit, s) && Enabled(s, a) && id in s.rows && Terminal(s.rows[id])
    ensures id in Apply(retryLimit, s, a).rows && Apply(retryLimit, s, a).rows[id] == s.rows[id]
  {
    var r := s.rows[id];
    assert RowOk(r, s.tracks[id], Limit(retryLimit));
    hide Inv, Move, MoveTracks;
    assert PublishRow(r) == r && ReviveRow(FailRow(r), retryLimit) == r && !Claimable(r);
  }

  /** PUBLISHED and FAILED are final: no run, however late its batches report, changes such a row.
      In particular the second UPDATE of `markFailedBatch` never revives a row that had failed. */
  lemma {:induction false} TerminalIsFinal(retryLimit: int, s: State, acts: seq<Action>, id: EventId)
    requires Inv(retryLimit, s) && Legal(retryLimit, s, acts) && id in s.rows && Terminal(s.rows[id])
    ensures id in Exec(retryLimit, s, acts).rows && Exec(retryLimit, s, acts).rows[id] == s.rows[id]
    decreases |acts|
  {
    if |acts| > 0 {
      TerminalStep(retryLimit, s, acts[0], id);
      InvStep(retryLimit, s, acts[0]);
      TerminalIsFinal(retryLimit, Apply(retryLimit, s, acts[0]), acts[1..], id);
    }
  }

  ghost function Ranks(rows: Table, limit: nat): map<EventId, nat> {
    map id | id in rows :: Rank(rows[id], limit)
  }

  ghost function TotalRank(rows: Table, limit: nat): nat {
    Sums.Sum(Ranks(rows, limit))
  }

  predicate RankFalls(before: Row, after: Row, limit: nat) {
    && Rank(after, limit) <= Rank(before, limit)
    && (Moved(before, after) ==> Rank(after, limit) < Rank(before, limit))
  }

  lemma RankStep(retryLimit: int, s: State, a: Action, id: EventId)
    requires Inv(retryLimit, s) && Enabled(s, a) && id in s.rows
    ensures id in Apply(retryLimit, s, a).rows
    ensures RankFalls(s.rows[id], Apply(retryLimit, s, a).rows[id], Limit(retryLimit))
  {
    hide RowOk;
    var r, t := s.rows[id], s.tracks[id];
    match a
    case Claim(ids, now) =>
      if id in ids {
        assert TrackOk(t, s.nextBatch);
        ClaimRowOk(r, t, Limit(retryLimit), now, s.nextBatch);
      }
    case Recover(ids) =>
      if id in ids {
        RecoverRowOk(r, t, retryLimit);
      }
    case MarkPublished(b, _, _) =>
      assert BatchOk(b, s.batches[b], s.tracks);
      if id in s.batches[b].ids {
        PublishRowOk(r, t, Limit(retryLimit));
      }
    case MarkFailed(_, _) => FailRowOk(r, t, retryLimit);
    case _ =>
  }

  lemma TotalRankFalls(rows: Table, rows': Table, limit: nat)
    requires rows.Keys == rows'.Keys
    requires forall id :: id in rows ==> RankFalls(rows[id], rows'[id], limit)
    ensures TotalRank(rows', limit) <= TotalRank(rows, limit)
    ensures (exists id :: id in rows && Moved(rows[id], rows'[id])) ==> TotalRank(rows', limit) < TotalRank(rows, limit)
  {
    Sums.SumMonotone(Ranks(rows', limit), Ranks(rows, limit));
    if id :| id in rows && Moved(rows[id], rows'[id]) {
      assert RankFalls(rows[id], rows'[id], limit);
      Sums.SumStrict(Ranks(rows', limit), Ranks(rows, limit), id);
    }
  }

  /** Convergence, step by step: no step raises the total rank of a fixed table, and one that moves
      any row lowers it. */
  lemma RankDrops(retryLimit: int, s: State, a: Action)
    requires Inv(retryLimit, s) && Enabled(s, a) && !a.Create?
    ensures var rows' := Apply(retryLimit, s, a).rows;
      && rows'.Keys == s.rows.Keys
      && TotalRank(rows', Limit(retryLimit)) <= TotalRank(s.rows, Limit(retryLimit))
      && ((exists id :: id in s.rows && Moved(s.rows[id], rows'[id])) ==>
            TotalRank(rows', Limit(retryLimit)) < TotalRank(s.rows, Limit(retryLimit)))
  {
    var rows' := Apply(retryLimit, s, a).rows;
    SameKeys(retryLimit, s, a);
    forall id | id in s.rows
      ensures RankFalls(s.rows[id], rows'[id], Limit(retryLimit))
    {
      RankStep(retryLimit, s, a, id);
    }
    TotalRankFalls(s.rows, rows', Limit(retryLimit));
  }

  lemma SameKeys(retryLimit: int, s: State, a: Action)
    requires Inv(retryLimit, s) && Enabled(s, a) && !a.Create?
    ensures Apply(retryLimit, s, a).rows.Keys == s.rows.Keys
  {
  }

  ghost function Moves(s: State): map<EventId, nat> {
    map id | id in s.tracks :: s.tracks[id].moves
  }

  /** Convergence, over whole runs: n rows make at most 2 * limit * n status changes altogether. */
  lemma MovesBounded(retryLimit: int, s: State)
    requires Reachable(retryLimit, s)
    ensures Sums.Sum(Moves(s)) <= 2 * Limit(retryLimit) * |s.rows|
  {
    ReachableInv(retryLimit, s);
    var bound := 2 * Limit(retryLimit);
    forall id | id in Moves(s) ensures Moves(s)[id] <= bound {
    }
    Sums.SumBounded(Moves(s), bound);
    assert Moves(s).Keys == s.rows.Keys;
    assert |Moves(s)| == |s.rows|;
  }

  /* ---- What batches do to their rows ---- */

  /** A committed mark of success: of the batch's rows exactly those still PUBLISHING become PUBLISHED,
      and no other row changes. */
  lemma MarkPublishedSettles(retryLimit: int, s: State, b: BatchId, reported: bool)
    requires Enabled(s, MarkPublished(b, true, reported))
    ensures var rows' := Apply(retryLimit, s, MarkPublished(b, true, reported)).rows;
      && rows'.Keys == s.rows.Keys
      && forall id :: id in s.rows ==>
           rows'[id] == if id in s.batches[b].ids && s.rows[id].status == Publishing
                        then s.rows[id].(status := Published) else s.rows[id]
  {
    hide MoveTracks;
  }

  /** A committed mark of failure: of the batch's rows exactly those still PUBLISHING are counted, and
      wait for another attempt or have failed for good; no other row changes. */
  lemma MarkFailedSettles(retryLimit: int, s: State, b: BatchId)
    requires Inv(retryLimit, s) && Enabled(s, MarkFailed(b, true))
    ensures var rows' := Apply(retryLimit, s, MarkFailed(b, true)).rows;
      && rows'.Keys == s.rows.Keys
      && (forall id :: id in s.rows && id in s.batches[b].ids && s.rows[id].status == Publishing ==>
            rows'[id] == s.rows[id].(
              status := if s.rows[id].retryCount + 1 < retryLimit then Retrying else Failed,
              retryCount := s.rows[id].retryCount + 1))
      && (forall id :: id in s.rows && !(id in s.batches[b].ids && s.rows[id].status == Publishing) ==>
            rows'[id] == s.rows[id])
      && (forall id :: id in s.rows && id in s.batches[b].ids ==> rows'[id].status != Publishing)
  {
    assert forall id :: id in s.rows ==> RowOk(s.rows[id], s.tracks[id], Limit(retryLimit));
    hide MoveTracks, Inv;
  }

  /** Some run leads from `s` to `t`. */
  ghost predicate Leads(retryLimit: int, s: State, t: State) {
    exists acts :: Legal(retryLimit, s, acts) && Exec(retryLimit, s, acts) == t
  }

  lemma LeadsNowhere(retryLimit: int, s: State)
    ensures Leads(retryLimit, s, s)
  {
    assert Legal(retryLimit, s, []) && Exec(retryLimit, s, []) == s;
  }

  lemma LeadsOn(retryLimit: int, s: State, t: State, a: Action)
    requires Leads(retryLimit, s, t) && Enabled(t, a)
    ensures Leads(retryLimit, s, Apply(retryLimit, t, a))
  {
    hide Enabled, Apply;
    var acts :| Legal(retryLimit, s, acts) && Exec(retryLimit, s, acts) == t;
    ExecExtend(retryLimit, s, acts, a);
  }

  lemma AppendsOne(retryLimit: int, s: State, b: BatchId, id: EventId)
    requires Enabled(s, Append(b, id))
    ensures var s' := Apply(retryLimit, s, Append(b, id));
      && s'.rows == s.rows && s'.batches == s.batches && s'.tracks.Keys == s.tracks.Keys
      && s'.tracks[id].unsent == s.tracks[id].unsent - {b}
      && (forall x :: x in s.tracks && x != id ==> s'.tracks[x] == s.tracks[x])
      && (forall x :: Copies(s', x) == Copies(s, x) + if x == id then 1 else 0)
  {
  }

  /** A send appends, one by one, the messages of its batch that are still to come. */
  lemma {:induction false} SendsAll(retryLimit: int, start: State, s: State, b: BatchId, ids: set<EventId>)
    returns (s': State)
    requires Leads(retryLimit, start, s) && forall id :: id in ids ==> id in s.tracks && b in s.tracks[id].unsent
    ensures Leads(retryLimit, start, s') && s'.rows == s.rows && s'.batches == s.batches
    ensures s'.tracks.Keys == s.tracks.Keys
    ensures forall id :: id in s.tracks ==>
      s'.tracks[id].unsent == if id in ids then s.tracks[id].unsent - {b} else s.tracks[id].unsent
    ensures forall id :: Copies(s', id) == Copies(s, id) + if id in ids then 1 else 0
    decreases |ids|
  {
    hide Leads, Apply, Copies;
    s' := s;
    if ids != {} {
      var id :| id in ids;
      LeadsOn(retryLimit, start, s, Append(b, id));
      AppendsOne(retryLimit, s, b, id);
      var next := Apply(retryLimit, s, Append(b, id));
      assert |ids - {id}| < |ids|;
      hide Enabled;
      s' := SendsAll(retryLimit, start, next, b, ids - {id});
    }
  }

  /** A batch nothing interferes with: whatever claimable rows it claims it can publish, each with one
      more copy in the log, and leave every other row as it was. */
  lemma BatchPublishes(retryLimit: int, s: State, ids: set<EventId>, now: int) returns (s': State)
    requires Inv(retryLimit, s) && Enabled(s, Claim(ids, now))
    ensures Leads(retryLimit, s, s') && s'.rows.Keys == s.rows.Keys && s'.batches == s.batches
    ensures forall id :: id in s.rows ==>
      s'.rows[id] == if id in ids then s.rows[id].(status := Published, lastAttemptAt := Some(now)) else s.rows[id]
    ensures forall id :: Copies(s', id) == Copies(s, id) + if id in ids then 1 else 0
  {
    hide *;
    var b := s.nextBatch;
    var claimed := Claims(retryLimit, s, ids, now);
    var sent := SendsAll(retryLimit, s, claimed, b, ids);
    s' := Publishes(retryLimit, s, sent, b, ids);
    assert s'.batches == s.batches;
    SameLog(sent, s');
    SameLog(claimed, s);
  }

  lemma Publishes(retryLimit: int, start: State, s: State, b: BatchId, ids: set<EventId>) returns (s': State)
    requires Leads(retryLimit, start, s) && b in s.batches && s.batches[b] == Batch(ids, Sending)
    requires forall id :: id in ids && id in s.tracks ==> b !in s.tracks[id].unsent
    ensures Leads(retryLimit, start, s') && s'.log == s.log && s'.batches == s.batches - {b}
    ensures s'.rows.Keys == s.rows.Keys
    ensures forall id :: id in s.rows ==>
      s'.rows[id] == if id in ids && s.rows[id].status == Publishing then s.rows[id].(status := Published)
                     else s.rows[id]
  {
    hide Leads, PublishRows, MoveTracks;
    LeadsOn(retryLimit, start, s, SendSucceeds(b));
    var sent := Apply(retryLimit, s, SendSucceeds(b));
    LeadsOn(retryLimit, start, sent, MarkPublished(b, true, true));
    MarkPublishedSettles(retryLimit, sent, b, true);
    s' := Apply(retryLimit, sent, MarkPublished(b, true, true));
  }

  lemma Fails(retryLimit: int, start: State, s: State, b: BatchId) returns (s': State)
    requires Leads(retryLimit, start, s) && Inv(retryLimit, s) && b in s.batches && s.batches[b].phase.Sending?
    ensures Leads(retryLimit, start, s') && Inv(retryLimit, s') && s'.rows.Keys == s.rows.Keys
    ensures forall id :: id in s.rows ==>
      s'.rows[id] ==
        if id in s.batches[b].ids && s.rows[id].status == Publishing then
          s.rows[id].(status := if s.rows[id].retryCount + 1 < retryLimit then Retrying else Failed,
                      retryCount := s.rows[id].retryCount + 1)
        else s.rows[id]
  {
    hide Leads, Inv, FailRows, MoveTracks;
    LeadsOn(retryLimit, start, s, SendFails(b));
    InvStep(retryLimit, s, SendFails(b));
    var failing := Apply(retryLimit, s, SendFails(b));
    LeadsOn(retryLimit, start, failing, MarkFailed(b, true));
    InvStep(retryLimit, failing, MarkFailed(b, true));
    MarkFailedSettles(retryLimit, failing, b);
    s' := Apply(retryLimit, failing, MarkFailed(b, true));
  }

  lemma SameLog(s: State, t: State)
    requires s.log == t.log
    ensures forall id :: Copies(s, id) == Copies(t, id)
  {
  }

  /** The first step of an undisturbed batch. */
  lemma Claims(retryLimit: int, s: State, ids: set<EventId>, now: int) returns (s': State)
    requires Inv(retryLimit, s) && Enabled(s, Claim(ids, now))
    ensures Leads(retryLimit, s, s') && Inv(retryLimit, s')
    ensures s.nextBatch !in s.batches && s'.batches == s.batches[s.nextBatch := Batch(ids, Sending)]
    ensures s'.log == s.log && s'.rows.Keys == s.rows.Keys
    ensures forall id :: id in s.rows ==>
      s'.rows[id] == if id in ids then s.rows[id].(status := Publishing, lastAttemptAt := Some(now)) else s.rows[id]
    ensures forall id :: id in ids ==> id in s.rows && id in s'.tracks && s.nextBatch in s'.tracks[id].unsent
  {
    hide Leads, RowOk, Claimed, BatchOk, TrackOk;
    LeadsNowhere(retryLimit, s);
    LeadsOn(retryLimit, s, s, Claim(ids, now));
    InvStep(retryLimit, s, Claim(ids, now));
    s' := Apply(retryLimit, s, Claim(ids, now));
    ClaimShape(s, ids, now);
    assert s.nextBatch !in s.batches;
  }

  lemma ClaimShape(s: State, ids: set<EventId>, now: int)
    requires ids <= s.rows.Keys == s.tracks.Keys
    ensures var s' := Claimed(WithRows(s, ClaimRows(s.rows, ids, now)), ids);
      && s'.rows == ClaimRows(s.rows, ids, now) && s'.log == s.log
      && s'.batches == s.batches[s.nextBatch := Batch(ids, Sending)]
      && (forall id :: id in ids ==> id in s'.tracks && s.nextBatch in s'.tracks[id].unsent)
  {
  }

  lemma CanClaim(s: State, id: EventId, now: int)
    requires id in s.rows && Claimable(s.rows[id])
    ensures Enabled(s, Claim({id}, now))
  {
  }

  /** An attempt that fails. */
  lemma AttemptFails(retryLimit: int, s: State, id: EventId, now: int) returns (s': State)
    requires Inv(retryLimit, s) && id in s.rows && Claimable(s.rows[id])
    ensures Leads(retryLimit, s, s') && Inv(retryLimit, s') && s'.rows.Keys == s.rows.Keys
    ensures forall x :: x in s.rows && x != id ==> s'.rows[x] == s.rows[x]
    ensures s'.rows[id].retryCount == s.rows[id].retryCount + 1
    ensures s'.rows[id].status == if s'.rows[id].retryCount < retryLimit then Retrying else Failed
  {
    hide *;
    CanClaim(s, id, now);
    var claimed := Claims(retryLimit, s, {id}, now);
    s' := Fails(retryLimit, s, claimed, s.nextBatch);
  }

  lemma {:induction false} ExecConcat(retryLimit: int, s: State, first: seq<Action>, next: seq<Action>)
    requires Legal(retryLimit, s, first) && Legal(retryLimit, Exec(retryLimit, s, first), next)
    ensures Legal(retryLimit, s, first + next)
    ensures Exec(retryLimit, s, first + next) == Exec(retryLimit, Exec(retryLimit, s, first), next)
    decreases |first|
  {
    hide Enabled, Apply;
    if |first| == 0 {
      assert first + next == next;
    } else {
      ExecConcat(retryLimit, Apply(retryLimit, s, first[0]), first[1..], next);
      assert (first + next)[1..] == first[1..] + next && (first + next)[0] == first[0];
    }
  }

  lemma LeadsFurther(retryLimit: int, s: State, t: State, u: State)
    requires Leads(retryLimit, s, t) && Leads(retryLimit, t, u)
    ensures Leads(retryLimit, s, u)
  {
    var first :| Legal(retryLimit, s, first) && Exec(retryLimit, s, first) == t;
    var next :| Legal(retryLimit, t, next) && Exec(retryLimit, t, next) == u;
    ExecConcat(retryLimit, s, first, next);
  }

  /** A row whose sends always fail is claimed again until its attempts run out: it ends FAILED, with the
      limit counted, and no other row is touched. */
  lemma {:induction false} AttemptsRunOut(retryLimit: int, s: State, id: EventId, now: int) returns (s': State)
    requires Inv(retryLimit, s) && id in s.rows && Claimable(s.rows[id])
    ensures Leads(retryLimit, s, s') && s'.rows.Keys == s.rows.Keys
    ensures s'.rows[id].status == Failed && s'.rows[id].retryCount == Limit(retryLimit)
    ensures forall x :: x in s.rows && x != id ==> s'.rows[x] == s.rows[x]
    decreases Limit(retryLimit) - s.rows[id].retryCount
  {
    assert RowOk(s.rows[id], s.tracks[id], Limit(retryLimit));
    s' := AttemptFails(retryLimit, s, id, now);
    hide Leads, Inv;
    if s'.rows[id].status == Retrying {
      var t := s';
      s' := AttemptsRunOut(retryLimit, t, id, now);
      LeadsFurther(retryLimit, s, t, s');
    }
  }
}
