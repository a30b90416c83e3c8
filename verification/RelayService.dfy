/** One cycle of the relay (apps/outbox-relay/src/relay.service.ts), in the form of its code: the loop
    that claims batches, and the tail of each batch's promise. */
module RelayService {
  import opened Awaits
  import opened Events
  import opened Wrappers
  import O = OutboxProtocol
  import R = OutboxRepository
  import S = RelayScheduler
  import Sums

  type BatchId = S.BatchId

  /** How a batch ends: whether the send succeeded, and how the marking calls went. */
  datatype Ending = Ending(sends: bool, published: Await, failed: Await)

  predicate Succeeds(e: Ending) {
    e.sends && e.published.Returns?
  }

  /** What an ending does to the table. */
  function Outcome(t: R.Table, ids: set<EventId>, e: Ending, retryLimit: int): R.Table {
    var marked := if e.sends && TookEffect(e.published) then R.PublishRows(t, ids) else t;
    if !Succeeds(e) && TookEffect(e.failed) then R.FailRows(marked, ids, retryLimit) else marked
  }

  /** What an ending leaves of the rows of its batch, row by row. */
  ghost predicate Marks(t: R.Table, after: R.Table, events: seq<EventId>, e: Ending, retryLimit: int) {
    && after.Keys == t.Keys
    && (e.sends && TookEffect(e.published) ==>
          forall id :: id in t && id in events && t[id].status == R.Publishing ==>
            after[id] == t[id].(status := R.Published))
    && (!e.sends && TookEffect(e.failed) ==> R.CountsFailure(t, after, events, retryLimit))
    && (e.sends && !TookEffect(e.published) && TookEffect(e.failed) ==> R.CountsFailure(t, after, events, retryLimit))
    && (e.sends && e.published.Returns? ==>
          forall id :: id in t && !(id in events && t[id].status == R.Publishing) ==> after[id] == t[id])
    && (forall id :: id in t && id !in events ==> after[id] == t[id])
    && (!(e.sends && TookEffect(e.published)) && !TookEffect(e.failed) ==> after == t)
  }

  lemma OutcomeMarks(t: R.Table, events: seq<EventId>, e: Ending, retryLimit: int)
    ensures Marks(t, Outcome(t, R.Ids(events), e, retryLimit), events, e, retryLimit)
  {
    R.FailingCounts(t, events, retryLimit);
  }

  /** The same ending as steps of the outbox protocol. */
  function EndingSteps(b: BatchId, e: Ending): seq<O.Action> {
    if !e.sends then [O.SendFails(b), O.MarkFailed(b, TookEffect(e.failed))]
    else if e.published.Returns? then [O.SendSucceeds(b), O.MarkPublished(b, true, true)]
    else [O.SendSucceeds(b), O.MarkPublished(b, e.published.applied, false), O.MarkFailed(b, TookEffect(e.failed))]
  }

  lemma Exec2(retryLimit: int, s: O.State, a: O.Action, b: O.Action)
    requires O.Enabled(s, a) && O.Enabled(O.Apply(retryLimit, s, a), b)
    ensures O.Legal(retryLimit, s, [a, b])
    ensures O.Exec(retryLimit, s, [a, b]) == O.Apply(retryLimit, O.Apply(retryLimit, s, a), b)
  {
    hide O.Enabled, O.Apply;
    var s1 := O.Apply(retryLimit, s, a);
    var s2 := O.Apply(retryLimit, s1, b);
    assert [a, b][1..] == [b] && [b][1..] == [];
    assert O.Legal(retryLimit, s2, []) && O.Exec(retryLimit, s2, []) == s2;
    assert O.Legal(retryLimit, s1, [b]) && O.Exec(retryLimit, s1, [b]) == s2;
  }

  lemma Exec3(retryLimit: int, s: O.State, a: O.Action, b: O.Action, c: O.Action)
    requires O.Enabled(s, a)
    requires var s1 := O.Apply(retryLimit, s, a); O.Enabled(s1, b) && O.Enabled(O.Apply(retryLimit, s1, b), c)
    ensures O.Legal(retryLimit, s, [a, b, c])
    ensures O.Exec(retryLimit, s, [a, b, c])
         == O.Apply(retryLimit, O.Apply(retryLimit, O.Apply(retryLimit, s, a), b), c)
  {
    hide O.Enabled, O.Apply;
    Exec2(retryLimit, O.Apply(retryLimit, s, a), b, c);
    assert [a, b, c][1..] == [b, c];
  }

  /** Whatever way a batch's promise ends, it is a run of the outbox protocol. */
  lemma EndingRefines(retryLimit: int, s: O.State, b: BatchId, e: Ending)
    requires b in s.batches && s.batches[b].phase.Sending?
    requires e.sends ==> O.Enabled(s, O.SendSucceeds(b))
    ensures O.Legal(retryLimit, s, EndingSteps(b, e))
    ensures var s' := O.Exec(retryLimit, s, EndingSteps(b, e));
      s'.rows == Outcome(s.rows, s.batches[b].ids, e, retryLimit) && s'.batches == s.batches - {b} && s'.log == s.log
  {
    hide R.PublishRows, R.FailRows, O.MoveTracks;
    var steps := EndingSteps(b, e);
    var s1 := O.Apply(retryLimit, s, steps[0]);
    if |steps| == 3 {
      Exec3(retryLimit, s, steps[0], steps[1], steps[2]);
    } else {
      Exec2(retryLimit, s, steps[0], steps[1]);
    }
  }

  /** What a poll claims is a claim the protocol allows. */
  lemma PollIsClaim(retryLimit: int, s: O.State, locked: set<EventId>, limit: nat, now: int, events: seq<EventId>)
    requires var eligible := set id | id in s.rows && id !in locked && R.Claimable(s.rows[id]);
      |events| > 0 && R.IsOldestFirst(s.rows, eligible, limit, events)
    ensures O.Enabled(s, O.Claim(R.Ids(events), now))
    ensures O.Apply(retryLimit, s, O.Claim(R.Ids(events), now)).rows == R.ClaimRows(s.rows, R.Ids(events), now)
  {
    assert events[0] in R.Ids(events);
  }

  /** What stale recovery does is a recovery the protocol allows. */
  lemma RecoveryIsRecover(retryLimit: int, s: O.State, locked: set<EventId>, threshold: int)
    ensures var stale := set id | id in s.rows && id !in locked && R.Stale(s.rows[id], threshold);
      && O.Enabled(s, O.Recover(stale))
      && O.Apply(retryLimit, s, O.Recover(stale)).rows == R.RecoverRows(s.rows, stale, retryLimit)
  {
  }

  /* ---- The relay's table as a state of the outbox protocol ---- */

  /** The table is that of a reachable protocol state, in which each unfinished batch is sending. */
  ghost predicate Links(retryLimit: int, outbox: O.State, rows: R.Table,
                        owner: map<BatchId, O.BatchId>, active: map<BatchId, seq<EventId>>) {
    && O.Reachable(retryLimit, outbox) && outbox.rows == rows && owner.Keys == active.Keys
    && (forall b :: b in owner ==>
          owner[b] in outbox.batches && outbox.batches[owner[b]] == O.Batch(R.Ids(active[b]), O.Sending))
    && (forall b, d :: b in owner && d in owner && owner[b] == owner[d] ==> b == d)
  }

  ghost function Waiting(s: O.State, b: O.BatchId): set<EventId>
    requires b in s.batches
  {
    set id | id in s.batches[b].ids && id in s.tracks && b in s.tracks[id].unsent
  }

  /** A send that succeeds has appended what was still to append. */
  lemma {:induction false} AppendAll(retryLimit: int, s: O.State, b: O.BatchId) returns (s': O.State)
    requires O.Reachable(retryLimit, s) && b in s.batches && s.batches[b].phase.Sending?
    ensures O.Reachable(retryLimit, s') && s'.rows == s.rows && s'.batches == s.batches
    ensures O.Enabled(s', O.SendSucceeds(b))
    decreases |Waiting(s, b)|
  {
    s' := s;
    if id :| id in Waiting(s, b) {
      O.ReachableStep(retryLimit, s, O.Append(b, id));
      var next := O.Apply(retryLimit, s, O.Append(b, id));
      assert Waiting(next, b) == Waiting(s, b) - {id};
      hide O.Reachable, O.Apply;
      s' := AppendAll(retryLimit, next, b);
    } else {
      forall id | id in s.batches[b].ids && id in s.tracks ensures b !in s.tracks[id].unsent {
        assert id !in Waiting(s, b);
      }
    }
  }

  /** The end of a batch, from any reachable state on. */
  lemma EndBatch(retryLimit: int, s: O.State, b: O.BatchId, e: Ending) returns (s': O.State)
    requires O.Reachable(retryLimit, s) && b in s.batches && s.batches[b].phase.Sending?
    ensures O.Reachable(retryLimit, s') && s'.rows == Outcome(s.rows, s.batches[b].ids, e, retryLimit)
    ensures s'.batches == s.batches - {b}
  {
    hide O.Reachable, Outcome, O.Enabled;
    var sent := s;
    if e.sends {
      sent := AppendAll(retryLimit, s, b);
    }
    EndingRefines(retryLimit, sent, b, e);
    O.ReachableRun(retryLimit, sent, EndingSteps(b, e));
    s' := O.Exec(retryLimit, sent, EndingSteps(b, e));
  }

  lemma LinkEnds(retryLimit: int, outbox: O.State, rows: R.Table, owner: map<BatchId, O.BatchId>,
                 active: map<BatchId, seq<EventId>>, b: BatchId, e: Ending) returns (outbox': O.State)
    requires Links(retryLimit, outbox, rows, owner, active) && b in active
    ensures Links(retryLimit, outbox', Outcome(rows, R.Ids(active[b]), e, retryLimit), owner - {b}, active - {b})
  {
    hide O.Reachable, Outcome;
    assert b in owner;
    outbox' := EndBatch(retryLimit, outbox, owner[b], e);
  }

  lemma ClaimStep(retryLimit: int, s: O.State, ids: set<EventId>, now: int)
    requires O.Reachable(retryLimit, s) && O.Enabled(s, O.Claim(ids, now))
    ensures var s' := O.Apply(retryLimit, s, O.Claim(ids, now));
      && O.Reachable(retryLimit, s') && s'.rows == R.ClaimRows(s.rows, ids, now)
      && s.nextBatch !in s.batches && s'.batches == s.batches[s.nextBatch := O.Batch(ids, O.Sending)]
  {
    O.ReachableInv(retryLimit, s);
    O.ReachableStep(retryLimit, s, O.Claim(ids, now));
  }

  lemma CrashStep(retryLimit: int, s: O.State, b: O.BatchId) returns (s': O.State)
    requires O.Reachable(retryLimit, s) && b in s.batches
    ensures O.Reachable(retryLimit, s') && s'.rows == s.rows && s'.batches == s.batches - {b}
  {
    O.ReachableStep(retryLimit, s, O.Crash(b));
    s' := O.Apply(retryLimit, s, O.Crash(b));
  }

  /** A claim whose batch the relay keeps. */
  lemma LinkClaims(retryLimit: int, outbox: O.State, rows: R.Table, owner: map<BatchId, O.BatchId>,
                   active: map<BatchId, seq<EventId>>, b: BatchId, events: seq<EventId>, now: int)
    requires Links(retryLimit, outbox, rows, owner, active) && b !in active
    requires O.Enabled(outbox, O.Claim(R.Ids(events), now))
    ensures Links(retryLimit, O.Apply(retryLimit, outbox, O.Claim(R.Ids(events), now)),
                  R.ClaimRows(rows, R.Ids(events), now), owner[b := outbox.nextBatch], active[b := events])
  {
    ClaimStep(retryLimit, outbox, R.Ids(events), now);
    hide O.Reachable, O.Enabled, O.Apply, R.ClaimRows, R.Ids;
  }

  /** A claim whose answer was lost: the protocol's batch dies at once. */
  lemma LinkLoses(retryLimit: int, outbox: O.State, rows: R.Table, owner: map<BatchId, O.BatchId>,
                  active: map<BatchId, seq<EventId>>, events: seq<EventId>, now: int) returns (outbox': O.State)
    requires Links(retryLimit, outbox, rows, owner, active)
    requires O.Enabled(outbox, O.Claim(R.Ids(events), now))
    ensures Links(retryLimit, outbox', R.ClaimRows(rows, R.Ids(events), now), owner, active)
  {
    hide O.Reachable, O.Enabled, O.Apply, R.ClaimRows, R.Ids;
    ClaimStep(retryLimit, outbox, R.Ids(events), now);
    var claimed := O.Apply(retryLimit, outbox, O.Claim(R.Ids(events), now));
    outbox' := CrashStep(retryLimit, claimed, outbox.nextBatch);
    assert outbox'.batches == outbox.batches;
  }

  lemma LinkRecovers(retryLimit: int, outbox: O.State, rows: R.Table, owner: map<BatchId, O.BatchId>,
                     active: map<BatchId, seq<EventId>>, locked: set<EventId>, threshold: int)
    returns (outbox': O.State)
    requires Links(retryLimit, outbox, rows, owner, active)
    ensures var stale := set id | id in rows && id !in locked && R.Stale(rows[id], threshold);
      Links(retryLimit, outbox', R.RecoverRows(rows, stale, retryLimit), owner, active)
  {
    var stale := set id | id in rows && id !in locked && R.Stale(rows[id], threshold);
    RecoveryIsRecover(retryLimit, outbox, locked, threshold);
    O.ReachableStep(retryLimit, outbox, O.Recover(stale));
    outbox' := O.Apply(retryLimit, outbox, O.Recover(stale));
    hide O.Reachable, R.RecoverRows, O.MoveTracks;
  }

  /** What the table answers a poll with is what the protocol lets it claim. */
  lemma LinkClaimable(retryLimit: int, outbox: O.State, rows: R.Table, owner: map<BatchId, O.BatchId>,
                      active: map<BatchId, seq<EventId>>, locked: set<EventId>, limit: nat,
                      events: seq<EventId>, now: int)
    requires Links(retryLimit, outbox, rows, owner, active) && |events| > 0
    requires var eligible := set id | id in rows && id !in locked && R.Claimable(rows[id]);
      R.IsOldestFirst(rows, eligible, limit, events)
    ensures O.Enabled(outbox, O.Claim(R.Ids(events), now))
  {
    PollIsClaim(retryLimit, outbox, locked, limit, now, events);
  }

  lemma ClaimedArePublishing(t: R.Table, locked: set<EventId>, limit: nat, events: seq<EventId>, now: int)
    requires var eligible := set id | id in t && id !in locked && R.Claimable(t[id]);
      R.IsOldestFirst(t, eligible, limit, events)
    ensures forall id :: id in events ==>
      id in R.ClaimRows(t, R.Ids(events), now) && R.ClaimRows(t, R.Ids(events), now)[id].status.Publishing?
  {
  }

  lemma NothingClaimed(t: R.Table, now: int)
    ensures R.ClaimRows(t, R.Ids([]), now) == t
  {
  }

  /** What runs while the cycle waits for one of its calls, and how that call ends. */
  datatype Meanwhile = Ends(batch: BatchId, ending: Ending) | Timer(action: S.Action)

  datatype Turn = Turn(others: seq<Meanwhile>, call: Await, locked: set<EventId>, now: int)

  /** The table, and the batches of this relay that have not ended. */
  datatype Held = Held(rows: R.Table, active: map<BatchId, seq<EventId>>)

  /** What is left of them once those that end meanwhile have ended. */
  ghost function After(h: Held, others: seq<Meanwhile>, retryLimit: int): Held {
    if |others| == 0 then h
    else
      var before := After(h, others[..|others| - 1], retryLimit);
      match others[|others| - 1]
      case Timer(_) => before
      case Ends(b, ending) =>
        if b !in before.active then before
        else Held(Outcome(before.rows, R.Ids(before.active[b]), ending, retryLimit), before.active - {b})
  }

  lemma AfterOneMore(h: Held, others: seq<Meanwhile>, i: nat, retryLimit: int)
    requires i < |others|
    ensures var before := After(h, others[..i], retryLimit);
      After(h, others[..i + 1], retryLimit) ==
        match others[i]
        case Timer(_) => before
        case Ends(b, ending) =>
          if b !in before.active then before
          else Held(Outcome(before.rows, R.Ids(before.active[b]), ending, retryLimit), before.active - {b})
  {
    assert others[..i + 1][..i] == others[..i];
  }

  lemma AfterNothing(h: Held, retryLimit: int)
    ensures After(h, [], retryLimit) == h
  {
  }

  /** What a poll that returned answers, and what it makes of the table and the batches. */
  ghost predicate PollsOldest(before: Held, after: Held, turn: Turn, limit: nat, next: BatchId, events: seq<EventId>) {
    && R.ClaimsOldest(before.rows, after.rows, limit, turn.locked, turn.now, events)
    && after.active == if |events| > 0 then before.active[next := events] else before.active
  }

  /** What a poll that did not return makes of the table. */
  ghost predicate LosesNothingElse(t: R.Table, after: R.Table, turn: Turn, limit: int) {
    if limit >= 0 && TookEffect(turn.call)
    then exists lost :: R.ClaimsOldest(t, after, limit, turn.locked, turn.now, lost)
    else after == t
  }

  /** One poll: `before` is what there is when it is issued, and what it meets is what the batches that end
      meanwhile have left of that. */
  ghost predicate Polls(turn: Turn, before: Held, after: Held, limit: int, next: BatchId, events: seq<EventId>,
                        retryLimit: int) {
    var met := After(before, turn.others, retryLimit);
    if limit < 0 || turn.call.Throws? then
      events == [] && after.active == met.active && LosesNothingElse(met.rows, after.rows, turn, limit)
    else PollsOldest(met, after, turn, limit, next, events)
  }

  /** What is left when claiming starts: of what the batches that ended meanwhile have left, exactly the
      rows that timed out are recovered, if that call took effect. */
  ghost predicate Recovers(before: Held, after: Held, gauges: Turn, stale: Turn, timeout: int, retryLimit: int) {
    var met := After(After(before, gauges.others, retryLimit), stale.others, retryLimit);
    && after.active == met.active
    && if TookEffect(stale.call) then R.TimesOut(met.rows, after.rows, timeout, retryLimit, stale.locked, stale.now)
       else after.rows == met.rows
  }

  /** While the clock went from `start` to `end`, every call returned and nothing else ran. */
  ghost predicate Quiet(turns: nat -> Turn, start: nat, end: nat) {
    forall n :: start <= n < end ==> turns(n).call.Returns? && turns(n).others == []
  }

  lemma QuietOneMore(turns: nat -> Turn, start: nat, n: nat)
    requires start <= n
    ensures Quiet(turns, start, start)
    ensures Quiet(turns, start, n + 1) <==>
      Quiet(turns, start, n) && turns(n).call.Returns? && turns(n).others == []
  {
  }

  lemma QuietRecovery(turns: nat -> Turn, start: nat, end: nat, before: Held, after: Held, timeout: int,
                      retryLimit: int)
    requires start + 2 <= end && Recovers(before, after, turns(start), turns(start + 1), timeout, retryLimit)
    ensures var stale := turns(start + 1);
      Quiet(turns, start, end) ==>
        && R.TimesOut(before.rows, after.rows, timeout, retryLimit, stale.locked, stale.now)
        && after.active == before.active
  {
    AfterNothing(before, retryLimit);
    hide After, R.TimesOut;
  }

  ghost predicate ClaimedIn(claimed: seq<seq<EventId>>, id: EventId) {
    exists i :: 0 <= i < |claimed| && id in claimed[i]
  }

  /** Exactly the claimed rows have become PUBLISHING, and their batches have been kept, in order. */
  ghost predicate Sweeps(before: Held, after: Held, claimed: seq<seq<EventId>>, first: BatchId) {
    && after.rows.Keys == before.rows.Keys
    && (forall id :: id in before.rows ==>
          if ClaimedIn(claimed, id)
          then R.Claimable(before.rows[id]) && after.rows[id].lastAttemptAt.Some?
               && after.rows[id] == before.rows[id].(status := R.Publishing,
                                                     lastAttemptAt := after.rows[id].lastAttemptAt)
          else after.rows[id] == before.rows[id])
    && (forall b :: b in before.active ==> b in after.active && after.active[b] == before.active[b])
    && (forall b :: first <= b < first + |claimed| ==> b in after.active && after.active[b] == claimed[b - first])
  }

  lemma SweepsNothing(held: Held, first: BatchId)
    ensures Sweeps(held, held, [], first)
  {
  }

  lemma SweepsOneMore(before: Held, held: Held, after: Held, claimed: seq<seq<EventId>>, first: BatchId,
                      turn: Turn, limit: nat, events: seq<EventId>)
    requires Sweeps(before, held, claimed, first) && forall b :: b in before.active ==> b < first
    requires PollsOldest(held, after, turn, limit, first + |claimed|, events) && |events| > 0
    ensures Sweeps(before, after, claimed + [events], first)
  {
    var more := claimed + [events];
    assert more[|claimed|] == events;
    forall id | id in before.rows
      ensures ClaimedIn(more, id) <==> ClaimedIn(claimed, id) || id in events
    {
      if i :| 0 <= i < |claimed| && id in claimed[i] {
        assert more[i] == claimed[i];
      }
    }
    assert forall id :: id in events ==> id in R.Waiting(held.rows, turn.locked);
  }

  /** One round of claiming, in a cycle that is quiet up to there. */
  lemma RoundSweeps(turns: nat -> Turn, start: nat, now: nat, before: Held, held: Held, after: Held,
                    claimed: seq<seq<EventId>>, first: BatchId, limit: int, events: seq<EventId>, retryLimit: int)
    requires start <= now && Quiet(turns, start, now + 1)
    requires Sweeps(before, held, claimed, first) && forall b :: b in before.active ==> b < first
    requires Polls(turns(now), held, after, limit, first + |claimed|, events, retryLimit)
    ensures Sweeps(before, after, if |events| > 0 then claimed + [events] else claimed, first)
    ensures |events| < limit ==> R.Waiting(after.rows, turns(now).locked) == {}
  {
    QuietOneMore(turns, start, now);
    AfterNothing(held, retryLimit);
    hide After, Sweeps, Quiet, R.Waiting, R.IsOldestFirst;
    if |events| > 0 {
      SweepsOneMore(before, held, after, claimed, first, turns(now), limit, events);
    } else {
      assert after == held;
    }
    if |events| < limit {
      R.NoneLeftWaiting(held.rows, after.rows, limit, turns(now).locked, turns(now).now, events);
    }
  }

  ghost function Sizes(active: map<BatchId, seq<EventId>>): map<BatchId, nat> {
    map b | b in active :: |active[b]|
  }

  lemma AddSizes(active: map<BatchId, seq<EventId>>, b: BatchId, events: seq<EventId>)
    ensures Sizes(active[b := events]) == Sizes(active)[b := |events|]
  {
  }

  /** An unfinished batch was there before the cycle, or is one the cycle claimed. */
  ghost predicate Traced(b: BatchId, events: seq<EventId>, first: BatchId,
                         before: map<BatchId, seq<EventId>>, claimed: seq<seq<EventId>>) {
    if b < first then b in before && before[b] == events
    else b < first + |claimed| && claimed[b - first] == events
  }

  /** Some batches may have ended; `events`, if any, are the one batch that is new. */
  ghost predicate Grows(before: map<BatchId, seq<EventId>>, after: map<BatchId, seq<EventId>>, next: BatchId,
                        events: seq<EventId>) {
    && (forall b :: b in after ==>
          (b in before && after[b] == before[b]) || (b == next && after[b] == events && |events| > 0))
    && (|events| > 0 ==> next in after && after[next] == events)
  }

  lemma TracedOneMore(known: map<BatchId, seq<EventId>>, active: map<BatchId, seq<EventId>>, first: BatchId,
                      before: map<BatchId, seq<EventId>>, claimed: seq<seq<EventId>>, events: seq<EventId>)
    requires forall b :: b in known ==> Traced(b, known[b], first, before, claimed)
    requires Grows(known, active, first + |claimed|, events)
    ensures forall b :: b in active ==>
      Traced(b, active[b], first, before, if |events| > 0 then claimed + [events] else claimed)
  {
  }

  /** What a cycle that began at `start` has achieved since it had `base` and began to claim. */
  ghost predicate Progress(turns: nat -> Turn, start: nat, now: nat, base: Held, held: Held,
                           claimed: seq<seq<EventId>>, first: BatchId) {
    && (forall b :: b in base.active ==> b < first)
    && (forall b :: b in held.active ==> Traced(b, held.active[b], first, base.active, claimed))
    && (Quiet(turns, start, now) ==> Sweeps(base, held, claimed, first))
  }

  lemma NoProgressYet(turns: nat -> Turn, start: nat, now: nat, base: Held, first: BatchId)
    requires forall b :: b in base.active ==> b < first
    ensures Progress(turns, start, now, base, base, [], first)
  {
    SweepsNothing(base, first);
  }

  /** Why a cycle stops claiming: it has spawned its batches, the capacity is used, or nothing unlocked
      waits any more. */
  ghost predicate Stopped(config: S.Config, claimed: seq<seq<EventId>>, held: Held, locked: set<EventId>) {
    || |claimed| == S.MAX_BATCHES_PER_CYCLE
    || Sums.Sum(Sizes(held.active)) >= config.maxInFlight
    || R.Waiting(held.rows, locked) == {}
  }

  /** What it has achieved when it claims no more. */
  ghost predicate Rests(config: S.Config, turns: nat -> Turn, start: nat, now: nat, base: Held, held: Held,
                        claimed: seq<seq<EventId>>, first: BatchId) {
    && start < now && Progress(turns, start, now, base, held, claimed, first)
    && (Quiet(turns, start, now) && config.batchSize > 0 ==> Stopped(config, claimed, held, turns(now - 1).locked))
  }

  lemma AllSpawned(config: S.Config, turns: nat -> Turn, start: nat, now: nat, base: Held, held: Held,
                   claimed: seq<seq<EventId>>, first: BatchId)
    requires start < now && Progress(turns, start, now, base, held, claimed, first)
    requires |claimed| == S.MAX_BATCHES_PER_CYCLE
    ensures Rests(config, turns, start, now, base, held, claimed, first)
  {
  }

  /** How many rows a poll may still claim. */
  function Room(config: S.Config, inFlight: int): int {
    var capacity := config.maxInFlight - inFlight;
    if config.batchSize < capacity then config.batchSize else capacity
  }

  /** What a round of the loop does, from `now` to `later`. At the limit in flight, nothing. Below it there
      is one poll, and `full` says that it filled its limit. */
  ghost predicate Spawns(config: S.Config, retryLimit: int, turns: nat -> Turn, now: nat, later: nat, before: Held,
                         after: Held, inFlight: int, next: BatchId, events: seq<EventId>, full: bool) {
    && Grows(before.active, after.active, next, events)
    && (full <==> |events| > 0 && |events| >= Room(config, inFlight))
    && if inFlight >= config.maxInFlight then later == now && events == [] && after == before
       else later == now + 1 && Polls(turns(now), before, after, Room(config, inFlight), next, events, retryLimit)
  }

  lemma RoundProgress(config: S.Config, retryLimit: int, turns: nat -> Turn, now: nat, later: nat, held: Held,
                      after: Held, inFlight: int, next: BatchId, events: seq<EventId>, full: bool,
                      start: nat, base: Held, claimed: seq<seq<EventId>>, first: BatchId)
    requires start < now && Progress(turns, start, now, base, held, claimed, first) && next == first + |claimed|
    requires Spawns(config, retryLimit, turns, now, later, held, after, inFlight, next, events, full)
    requires inFlight == Sums.Sum(Sizes(held.active))
    ensures start < later
    ensures events == [] ==> Rests(config, turns, start, later, base, after, claimed, first)
    ensures events != [] ==> Progress(turns, start, later, base, after, claimed + [events], first)
    ensures events != [] && !full ==> Rests(config, turns, start, later, base, after, claimed + [events], first)
  {
    hide Polls, Sweeps, Quiet, Traced, R.Waiting, Sizes;
    QuietOneMore(turns, start, now);
    TracedOneMore(held.active, after.active, first, base.active, claimed, events);
    if inFlight < config.maxInFlight && Quiet(turns, start, now + 1) {
      RoundSweeps(turns, start, now, base, held, after, claimed, first, Room(config, inFlight), events, retryLimit);
    }
  }

  lemma StillTraced(active: map<BatchId, seq<EventId>>, first: BatchId, known: map<BatchId, seq<EventId>>,
                    before: map<BatchId, seq<EventId>>, claimed: seq<seq<EventId>>)
    requires forall b :: b in active ==> Traced(b, active[b], first, known, claimed)
    requires forall b :: b in known ==> b in before && before[b] == known[b]
    ensures forall b :: b in active ==> Traced(b, active[b], first, before, claimed)
  {
  }

  /** `model` is where the scheduler and relay stand in the step system of RelayScheduler, `outbox` where
      the table stands in that of OutboxProtocol, and `owner` which of its batches are this relay's. */
  class OutboxRelay {
    const config: S.Config
    const staleTimeoutMs: int
    const retryLimit: int
    const repository: R.Repository
    const turns: nat -> Turn
    var clock: nat
    var activeInFlight: int
    var active: map<BatchId, seq<EventId>>
    var nextBatch: BatchId
    ghost var model: S.State
    ghost var outbox: O.State
    ghost var owner: map<BatchId, O.BatchId>

    /** All that OutboxProtocol proves of its reachable states holds of the table. */
    ghost predicate Linked()
      reads this, repository
    {
      Links(retryLimit, outbox, repository.rows, owner, active)
    }

    ghost predicate Valid()
      reads this
    {
      && S.Reachable(config, model)
      && activeInFlight == model.inFlight
      && Sizes(active) == model.batches
      && nextBatch == model.nextBatch
    }

    ghost predicate CycleAt(c: S.CycleId, at: S.Cycle)
      reads this
    {
      c in model.cycles && model.cycles[c] == at
    }

    constructor (config: S.Config, staleTimeoutMs: int, retryLimit: int, repository: R.Repository,
                 turns: nat -> Turn, ghost outbox: O.State)
      requires O.Reachable(retryLimit, outbox) && outbox.rows == repository.rows
      ensures Linked()
      ensures Valid() && activeInFlight == 0 && active == map[] && model == S.Initial
      ensures this.config == config && this.repository == repository && this.turns == turns
    {
      this.config, this.staleTimeoutMs, this.retryLimit := config, staleTimeoutMs, retryLimit;
      this.repository, this.turns := repository, turns;
      clock, activeInFlight, active, nextBatch, model := 0, 0, map[], 0, S.Initial;
      this.outbox, owner := outbox, map[];
      new;
      assert S.Legal(config, S.Initial, []) && S.Exec(config, S.Initial, []) == S.Initial;
    }

    ghost method StepModel(a: S.Action)
      requires S.Reachable(config, model) && S.Enabled(model, a)
      modifies this`model
      ensures S.Reachable(config, model) && model == S.Apply(config, old(model), a)
    {
      S.ReachableStep(config, model, a);
      model := S.Apply(config, model, a);
    }

    /** Marks a batch whose send has ended; whether anything threw. */
    method Mark(events: seq<EventId>, ending: Ending) returns (rejects: bool)
      modifies repository
      ensures rejects == !Succeeds(ending)
      ensures repository.rows == Outcome(old(repository.rows), R.Ids(events), ending, retryLimit)
      ensures Marks(old(repository.rows), repository.rows, events, ending, retryLimit)
    {
      OutcomeMarks(repository.rows, events, ending, retryLimit);
      hide R.PublishRows, R.FailRows, R.CountsFailure, Marks;
      rejects := !ending.sends;
      if ending.sends {
        if TookEffect(ending.published) {
          repository.MarkPublishedBatch(events);
        }
        rejects := !ending.published.Returns?;
      }
      if rejects && TookEffect(ending.failed) {
        repository.MarkFailedBatch(events, retryLimit);
      }
    }

    /** A batch's promise from the end of its send on. */
    method FinishPublish(b: BatchId, ending: Ending) returns (rejects: bool)
      requires Valid() && Linked() && b in active
      modifies this`activeInFlight, this`active, this`model, this`outbox, this`owner, repository
      ensures Linked()
      ensures Valid() && model == S.Apply(config, old(model), S.BatchEnds(b))
      ensures active == old(active) - {b}
      ensures activeInFlight == old(activeInFlight) - |old(active[b])|
      ensures rejects == !Succeeds(ending)
      ensures repository.rows == Outcome(old(repository.rows), R.Ids(old(active[b])), ending, retryLimit)
      ensures Marks(old(repository.rows), repository.rows, old(active[b]), ending, retryLimit)
    {
      hide S.Reachable, Outcome, Links, Marks;
      ghost var ended := LinkEnds(retryLimit, outbox, repository.rows, owner, active, b, ending);
      var events := active[b];
      rejects := Mark(events, ending);
      StepModel(S.BatchEnds(b));
      activeInFlight := activeInFlight - |events|;
      active := active - {b};
      outbox, owner := ended, owner - {b};
      assert Sizes(active) == Sizes(old(active)) - {b};
    }

    /** The event loop runs other things: batches end, timers fire. */
    method Await(ghost c: S.CycleId) returns (turn: Turn)
      requires Valid() && Linked() && c in model.cycles
      modifies this, repository
      ensures Linked()
      ensures Valid() && clock == old(clock) + 1 && turn == turns(old(clock))
      ensures nextBatch == old(nextBatch) && c in model.cycles && model.cycles[c] == old(model.cycles[c])
      ensures forall b :: b in active ==> b in old(active) && active[b] == old(active[b])
      ensures Held(repository.rows, active) == After(Held(old(repository.rows), old(active)), turn.others, retryLimit)
    {
      hide S.Reachable, S.ScheduleNext, S.ShutDown, Links, After, Outcome, Marks;
      turn := turns(clock);
      clock := clock + 1;
      ghost var at := model.cycles[c];
      ghost var held := Held(repository.rows, active);
      AfterNothing(held, retryLimit);
      assert turn.others[..0] == [];
      for i := 0 to |turn.others|
        invariant Valid() && Linked() && clock == old(clock) + 1
        invariant nextBatch == old(nextBatch) && c in model.cycles && model.cycles[c] == at
        invariant forall b :: b in active ==> b in old(active) && active[b] == old(active[b])
        invariant Held(repository.rows, active) == After(held, turn.others[..i], retryLimit)
      {
        AfterOneMore(held, turn.others, i, retryLimit);
        match turn.others[i] {
          case Ends(b, ending) =>
            if b in active {
              var _ := FinishPublish(b, ending);
            }
          case Timer(a) =>
            ghost var timer := a.Bootstrap? || a.Shutdown? || a.Fire?;
            if timer && S.Enabled(model, a) {
              S.ReachableInv(config, model);
              StepModel(a);
            }
        }
      }
      assert turn.others[..|turn.others|] == turn.others;
    }

    lemma KnownBatches()
      requires Valid()
      ensures forall b :: b in active ==> b < nextBatch
    {
      S.ReachableInv(config, model);
      assert forall b :: b in active ==> b in Sizes(active);
    }

    /** The sizes a cycle may claim in one batch. */
    ghost predicate Sized(batch: seq<EventId>) {
      1 <= |batch| <= config.batchSize && |batch| <= config.maxInFlight
    }

    ghost predicate AllSized(claimed: seq<seq<EventId>>) {
      forall i :: 0 <= i < |claimed| ==> Sized(claimed[i])
    }

    lemma SizedOneMore(claimed: seq<seq<EventId>>, events: seq<EventId>)
      ensures AllSized([])
      ensures AllSized(claimed) && Sized(events) ==> AllSized(claimed + [events])
    {
    }

    /** The loop's own guard ends the cycle's polling. */
    ghost method Exhaust(c: S.CycleId)
      requires Valid() && Linked() && CycleAt(c, S.Deciding(S.MAX_BATCHES_PER_CYCLE))
      modifies this`model
      ensures Valid() && Linked() && CycleAt(c, S.Waiting)
    {
      hide S.Reachable, Links;
      StepModel(S.Decide(c));
    }

    /** Counts the claimed rows in and keeps their batch's promise. */
    method Enlist(ghost c: S.CycleId, ghost spawned: nat, ghost limit: nat, events: seq<EventId>)
      requires Valid() && CycleAt(c, S.Polling(spawned, limit)) && |events| <= limit
      modifies this`activeInFlight, this`active, this`nextBatch, this`model
      ensures Valid()
      ensures CycleAt(c, if |events| > 0 && |events| >= limit then S.Deciding(spawned + 1) else S.Waiting)
      ensures activeInFlight == old(activeInFlight) + |events|
      ensures if |events| == 0 then active == old(active) && nextBatch == old(nextBatch)
              else active == old(active)[old(nextBatch) := events] && nextBatch == old(nextBatch) + 1
    {
      hide S.Reachable, Sizes;
      StepModel(S.PollReturns(c, |events|));
      if |events| > 0 {
        AddSizes(active, nextBatch, events);
        activeInFlight := activeInFlight + |events|;
        active := active[nextBatch := events];
        nextBatch := nextBatch + 1;
      }
    }

    /** One round of the loop in `processBatch`: claims a batch and starts its promise. No events means
        that the loop stops here; `full` that it may go round again. Below the limit in flight there is
        one poll, and when it returns the batch is made of the oldest rows it met, as many as the limit
        allows. */
    method SpawnBatch(ghost c: S.CycleId, ghost spawned: nat) returns (events: seq<EventId>, full: bool)
      requires Valid() && Linked() && CycleAt(c, S.Deciding(spawned)) && spawned < S.MAX_BATCHES_PER_CYCLE
      modifies this, repository
      ensures Linked() && forall id :: id in events ==> id in repository.rows && repository.rows[id].status.Publishing?
      ensures Valid() && CycleAt(c, if full then S.Deciding(spawned + 1) else S.Waiting)
      ensures full ==> |events| > 0
      ensures |events| > 0 ==> Sized(events)
      ensures nextBatch == old(nextBatch) + if |events| > 0 then 1 else 0
      ensures Spawns(config, retryLimit, turns, old(clock), clock, old(Held(repository.rows, active)),
                     Held(repository.rows, active), old(activeInFlight), old(nextBatch), events, full)
    {
      hide S.Reachable, R.IsOldestFirst, R.ClaimRows, R.ClaimsOldest, Sizes, Links, After;
      var currentInFlight := activeInFlight;
      S.BackPressure(config, model);
      StepModel(S.Decide(c));
      if currentInFlight >= config.maxInFlight {
        return [], false;
      }
      var capacity := config.maxInFlight - currentInFlight;
      var currentBatchLimit := if config.batchSize < capacity then config.batchSize else capacity;
      assert CycleAt(c, S.Polling(spawned, currentBatchLimit));
      var poll := Await(c);
      if currentBatchLimit < 0 || poll.call.Throws? {
        if currentBatchLimit >= 0 && poll.call.applied {
          LoseClaim(currentBatchLimit, poll.locked, poll.now);
        }
        StepModel(S.PollFails(c));
        return [], false;
      }
      events := TakeClaim(c, spawned, currentBatchLimit, poll.locked, poll.now);
      full := |events| > 0 && |events| >= currentBatchLimit;
    }

    /** A poll that threw after it had claimed: rows left PUBLISHING for stale recovery to find. */
    method LoseClaim(limit: nat, locked: set<EventId>, now: int)
      requires Linked()
      modifies this`outbox, repository
      ensures Linked()
      ensures exists lost :: R.ClaimsOldest(old(repository.rows), repository.rows, limit, locked, now, lost)
    {
      hide O.Reachable, R.ClaimRows, R.ClaimsOldest, Links;
      ghost var before := repository.rows;
      var events := repository.ClaimPending(limit, locked, now);
      if |events| > 0 {
        LinkClaimable(retryLimit, outbox, before, owner, active, locked, limit, events, now);
        outbox := LinkLoses(retryLimit, outbox, before, owner, active, events, now);
      } else {
        NothingClaimed(before, now);
        assert events == [];
      }
    }

    /** A poll that returned: what it claimed is counted in. */
    method TakeClaim(ghost c: S.CycleId, ghost spawned: nat, limit: nat, locked: set<EventId>, now: int)
      returns (events: seq<EventId>)
      requires Valid() && Linked() && CycleAt(c, S.Polling(spawned, limit))
      modifies this`activeInFlight, this`active, this`nextBatch, this`model, this`outbox, this`owner, repository
      ensures Linked() && forall id :: id in events ==> id in repository.rows && repository.rows[id].status.Publishing?
      ensures R.ClaimsOldest(old(repository.rows), repository.rows, limit, locked, now, events)
      ensures Valid() && |events| <= limit
      ensures CycleAt(c, if |events| > 0 && |events| >= limit then S.Deciding(spawned + 1) else S.Waiting)
      ensures if |events| == 0 then active == old(active) && nextBatch == old(nextBatch)
              else active == old(active)[old(nextBatch) := events] && nextBatch == old(nextBatch) + 1
    {
      KnownBatches();
      hide S.Reachable, O.Reachable, Links, Sizes, R.IsOldestFirst, R.ClaimRows, R.ClaimsOldest;
      ghost var before := repository.rows;
      events := repository.ClaimPending(limit, locked, now);
      ClaimedArePublishing(before, locked, limit, events, now);
      if |events| > 0 {
        LinkClaimable(retryLimit, outbox, before, owner, active, locked, limit, events, now);
        LinkClaims(retryLimit, outbox, before, owner, active, nextBatch, events, now);
        owner := owner[nextBatch := outbox.nextBatch];
        outbox := O.Apply(retryLimit, outbox, O.Claim(R.Ids(events), now));
      } else {
        NothingClaimed(before, now);
        assert events == [];
      }
      Enlist(c, spawned, limit, events);
    }

    lemma WithinCapacity()
      requires Valid()
      ensures 0 <= activeInFlight == Sums.Sum(Sizes(active)) <= S.Capacity(config)
    {
      S.BackPressure(config, model);
    }

    /** Lines 66 to 155: polls and spawns batches until there is a reason to stop. `base` is what the cycle,
        which began at `start`, has when it begins to claim. */
    method ClaimBatches(ghost c: S.CycleId, ghost start: nat, ghost base: Held) returns (claimed: seq<seq<EventId>>)
      requires Valid() && Linked() && CycleAt(c, S.Deciding(0)) && start + 2 <= clock
      requires base == Held(repository.rows, active)
      modifies this, repository
      ensures Linked()
      ensures Valid() && (CycleAt(c, S.Waiting) || CycleAt(c, S.Deciding(S.MAX_BATCHES_PER_CYCLE)))
      ensures |claimed| <= S.MAX_BATCHES_PER_CYCLE && AllSized(claimed)
      ensures nextBatch == old(nextBatch) + |claimed|
      ensures old(clock) <= clock
      ensures Rests(config, turns, start, clock, base, Held(repository.rows, active), claimed, old(nextBatch))
    {
      KnownBatches();
      NoProgressYet(turns, start, clock, base, nextBatch);
      SizedOneMore([], []);
      hide *;
      claimed := [];
      var batchesSpawned := 0;
      while batchesSpawned < S.MAX_BATCHES_PER_CYCLE
        invariant Linked()
        invariant Valid() && 0 <= batchesSpawned == |claimed| <= S.MAX_BATCHES_PER_CYCLE
        invariant CycleAt(c, S.Deciding(batchesSpawned))
        invariant AllSized(claimed)
        invariant nextBatch == old(nextBatch) + |claimed| && start + 2 <= old(clock) <= clock
        invariant Progress(turns, start, clock, base, Held(repository.rows, active), claimed, old(nextBatch))
      {
        WithinCapacity();
        ghost var before := Held(repository.rows, active);
        ghost var now, inFlight, next := clock, activeInFlight, nextBatch;
        var events, full := SpawnBatch(c, batchesSpawned);
        SizedOneMore(claimed, events);
        RoundProgress(config, retryLimit, turns, now, clock, before, Held(repository.rows, active), inFlight, next,
                      events, full, start, base, claimed, old(nextBatch));
        if |events| == 0 {
          return;
        }
        batchesSpawned := batchesSpawned + 1;
        claimed := claimed + [events];
        if !full {
          return;
        }
      }
      AllSpawned(config, turns, start, clock, base, Held(repository.rows, active), claimed, old(nextBatch));
    }

    /** Lines 37 to 63: the gauges are synchronized, then stale claims are recovered. */
    method Recover(ghost c: S.CycleId)
      requires Valid() && Linked() && c in model.cycles
      modifies this, repository
      ensures Linked() && Valid() && clock == old(clock) + 2 && nextBatch == old(nextBatch)
      ensures c in model.cycles && model.cycles[c] == old(model.cycles[c])
      ensures forall b :: b in active ==> b in old(active) && active[b] == old(active[b])
      ensures Recovers(old(Held(repository.rows, active)), Held(repository.rows, active), turns(old(clock)),
                       turns(old(clock) + 1), staleTimeoutMs, retryLimit)
    {
      hide S.Reachable, S.Apply, R.RecoverRows, R.TimesOut, Links, After, Sizes;
      var gauges := Await(c);
      var stale := Await(c);
      if TookEffect(stale.call) {
        ghost var recovered := LinkRecovers(retryLimit, outbox, repository.rows, owner, active, stale.locked,
                                            stale.now - staleTimeoutMs);
        repository.RecoverStale(staleTimeoutMs, retryLimit, stale.locked, stale.now);
        outbox := recovered;
      }
    }

    /** `processBatch`, for the cycle `c` the scheduler has just begun. `recovered` is the table when
        claiming starts, `held` what there is when it stops, at `polled`. A cycle that nothing disturbs up
        to there has recovered exactly the rows that timed out, made exactly the claimed ones PUBLISHING,
        and stopped for one of three reasons: ten batches, no capacity left, nothing left to claim. */
    method ProcessBatch(ghost c: S.CycleId)
      returns (claimed: seq<seq<EventId>>, ghost recovered: R.Table, ghost held: Held, ghost polled: nat)
      requires Valid() && Linked() && CycleAt(c, S.Deciding(0))
      modifies this, repository
      ensures Linked()
      ensures Valid() && CycleAt(c, S.Waiting)
      ensures 0 <= activeInFlight == Sums.Sum(Sizes(active)) <= S.Capacity(config)
      ensures |claimed| <= S.MAX_BATCHES_PER_CYCLE && AllSized(claimed)
      ensures nextBatch == old(nextBatch) + |claimed|
      ensures forall b :: b in active ==> Traced(b, active[b], old(nextBatch), old(active), claimed)
      ensures old(clock) + 2 <= polled <= clock
      ensures Quiet(turns, old(clock), polled) ==>
        var stale := turns(old(clock) + 1);
        && R.TimesOut(old(repository.rows), recovered, staleTimeoutMs, retryLimit, stale.locked, stale.now)
        && Sweeps(Held(recovered, old(active)), held, claimed, old(nextBatch))
        && (config.batchSize > 0 ==> Stopped(config, claimed, held, turns(polled - 1).locked))
      ensures Held(repository.rows, active) ==
        if claimed == [] then held else After(held, turns(polled).others, retryLimit)
    {
      hide Valid, Linked, R.TimesOut, Recovers, Quiet, Sweeps, Stopped, AllSized, Traced, Sizes, After;
      Recover(c);
      recovered := repository.rows;
      ghost var base := Held(recovered, active);
      claimed := ClaimBatches(c, old(clock), base);
      held, polled := Held(repository.rows, active), clock;
      QuietRecovery(turns, old(clock), polled, old(Held(repository.rows, active)), base, staleTimeoutMs, retryLimit);
      StillTraced(held.active, old(nextBatch), base.active, old(active), claimed);
      if model.cycles[c].Deciding? {
        Exhaust(c);
      }
      if |claimed| > 0 {
        var all := Await(c);
      }
      WithinCapacity();
    }
  }
}
