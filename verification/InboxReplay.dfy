/** When an operator may reset a dead-lettered event (packages/common/src/messaging/inbox.repository.ts,
    prepareForReplay).

    The reset only asks that the record says DLQ_SENT. A worker that wrote DLQ_SENT may still be on its
    way to an unconditional FAILED write, so the status alone does not make the reset safe. The resets
    taken that early are what InboxExclusion counts; here is what one of them does. */
module InboxReplay {
  import opened Awaits
  import opened Events
  import opened InboxConsumer
  import opened InboxProtocol
  import opened InboxRepository
  import opened Wrappers
  import InboxExclusion
  import InboxRetries
  import Sets

  predicate Running(w: Worker, e: EventId) {
    w.task == Some(Task(e, Handle))
  }

  /** No two workers are running the handler of `e` at once. */
  ghost predicate HandlerAlone(s: State, e: EventId) {
    forall w, v :: w in s.workers && v in s.workers && Running(s.workers[w], e) && Running(s.workers[v], e) ==> w == v
  }

  function EarlyResets(s: State, e: EventId): nat {
    HistoryOf(s, e).early
  }

  /** Nor ever again, in any run that takes no further early reset of `e`. */
  ghost predicate AlwaysAlone(limit: nat, s: State, e: EventId) {
    forall acts :: Legal(limit, s, acts) && EarlyResets(Exec(limit, s, acts), e) == EarlyResets(s, e) ==>
      HandlerAlone(Exec(limit, s, acts), e)
  }

  lemma {:induction false} ExecConcat(limit: nat, s: State, first: seq<Action>, next: seq<Action>)
    requires Legal(limit, s, first) && Legal(limit, Exec(limit, s, first), next)
    ensures Legal(limit, s, first + next)
    ensures Exec(limit, s, first + next) == Exec(limit, Exec(limit, s, first), next)
    decreases |first|
  {
    if |first| == 0 {
      assert first + next == next;
    } else {
      ExecConcat(limit, Apply(limit, s, first[0]), first[1..], next);
      assert (first + next)[1..] == first[1..] + next;
    }
  }

  /** An event whose record can be claimed can always get a further worker into its handler. */
  lemma EnterHandler(limit: nat, s: State, e: EventId) returns (acts: seq<Action>, v: WorkerId)
    requires e in s.rows && Claimable(s.rows[e].status)
    ensures Legal(limit, s, acts) && v !in s.workers
    ensures var s' := Exec(limit, s, acts);
      && v in s'.workers && Running(s'.workers[v], e)
      && (forall w :: w in s.workers ==> w in s'.workers && s'.workers[w] == s.workers[w])
      && e in s'.rows && EarlyResets(s', e) == EarlyResets(s, e)
  {
    v := Sets.FreshNumber(s.workers.Keys);
    var p := Sets.FreshNumber(s.logs.Keys + s.committed.Keys);
    var queued := Apply(limit, s, Append(p, Event(e)));
    assert LogOf(queued, p) == [Event(e)];
    var joined := Apply(limit, queued, Join(v, p));
    assert joined.workers[v] == Worker(p, 0, None);
    acts := [];
    ExecExtend(limit, s, acts, Append(p, Event(e)));
    acts := acts + [Append(p, Event(e))];
    ExecExtend(limit, s, acts, Join(v, p));
    acts := acts + [Join(v, p)];
    ExecExtend(limit, s, acts, Deliver(v));
    acts := acts + [Deliver(v)];
    var looking := joined.(workers := joined.workers[v := Worker(p, 0, Some(Task(e, Look)))]);
    assert Exec(limit, s, acts) == looking;
    var claimed := Climb(limit, looking, e, v);
    ExecConcat(limit, s, acts, claimed);
    acts := acts + claimed;
  }

  lemma Nothing(limit: nat, s: State) returns (acts: seq<Action>)
    ensures Legal(limit, s, acts) && Exec(limit, s, acts) == s
  {
    acts := [];
  }

  /** Takes one more await of a worker that has a delivery to go on with. */
  lemma OneMore(limit: nat, start: State, acts: seq<Action>, s: State, w: WorkerId, e: EventId, pc: Pc, await: Await)
    returns (acts': seq<Action>, s': State)
    requires Legal(limit, start, acts) && s == Exec(limit, start, acts)
    requires w in s.workers && s.workers[w].task == Some(Task(e, pc))
    ensures Legal(limit, start, acts') && s' == Exec(limit, start, acts')
    ensures RowOf(s', e) == Step(limit, pc, RowOf(s, e), await).row
    ensures w in s'.workers && s'.workers[w] == Resumed(s.workers[w], Step(limit, pc, RowOf(s, e), await).pc)
    ensures forall v :: v in s.workers && v != w ==> v in s'.workers && s'.workers[v] == s.workers[v]
    ensures s'.logs == s.logs && EarlyResets(s', e) == EarlyResets(s, e)
    ensures !Step(limit, pc, RowOf(s, e), await).pc.CatchRead? ==> HistoryOf(s', e).failures == HistoryOf(s, e).failures
  {
    hide Step, Legal, Exec;
    ExecExtend(limit, start, acts, Advance(w, await));
    acts' := acts + [Advance(w, await)];
    s' := Advanced(limit, s, w, await);
  }

  /** From the look-up to the handler, undisturbed. */
  lemma Climb(limit: nat, s: State, e: EventId, v: WorkerId) returns (acts: seq<Action>)
    requires e in s.rows && Claimable(s.rows[e].status)
    requires v in s.workers && s.workers[v].task == Some(Task(e, Look))
    ensures Legal(limit, s, acts)
    ensures var s' := Exec(limit, s, acts);
      && v in s'.workers && Running(s'.workers[v], e) && e in s'.rows && EarlyResets(s', e) == EarlyResets(s, e)
      && (forall w :: w in s.workers && w != v ==> w in s'.workers && s'.workers[w] == s.workers[w])
  {
    acts := Nothing(limit, s);
    hide Legal, Exec;
    var t := s;
    acts, t := OneMore(limit, s, acts, t, v, e, Look, Returns);
    acts, t := OneMore(limit, s, acts, t, v, e, Claim, Returns);
    acts, t := OneMore(limit, s, acts, t, v, e, ClaimRead, Returns);
  }

  /** The last holder of a dead-lettered record can end by writing FAILED, whatever the record says. */
  lemma HolderFails(limit: nat, s: State, e: EventId, w: WorkerId) returns (acts: seq<Action>)
    requires w in s.workers && s.workers[w].task.Some? && s.workers[w].task.value.event == e && e in s.rows
    requires s.workers[w].task.value.pc.CommitDlq? || s.workers[w].task.value.pc.WriteFailed?
    ensures Legal(limit, s, acts)
    ensures var s' := Exec(limit, s, acts);
      && (forall v :: v in s.workers && v != w ==> v in s'.workers && s'.workers[v] == s.workers[v])
      && e in s'.rows && s'.rows[e].status.Failed? && EarlyResets(s', e) == EarlyResets(s, e)
  {
    acts := Nothing(limit, s);
    hide Legal, Exec;
    var t := s;
    var pc := s.workers[w].task.value.pc;
    if pc.CommitDlq? {
      acts, t := OneMore(limit, s, acts, t, w, e, pc, Throws(false));
    }
    acts, t := OneMore(limit, s, acts, t, w, e, WriteFailed(pc.n), Returns);
  }

  /** While some worker can still write FAILED over it, resetting a DLQ_SENT record lets two workers run
      its handler at once. */
  lemma ReplayTooEarly(limit: nat, s: State, e: EventId)
    requires e in s.rows && s.rows[e].status.DlqSent? && AnyExposed(s, e)
    ensures !AlwaysAlone(limit, Replayed(s, e), e)
  {
    hide Legal, Exec;
    var w :| w in s.workers && Exposed(s.workers[w], e);
    var r := Replayed(s, e);
    var acts1, v := EnterHandler(limit, r, e);
    var r1 := Exec(limit, r, acts1);
    var acts2 := HolderFails(limit, r1, e, w);
    var r2 := Exec(limit, r1, acts2);
    assert v in r2.workers && Running(r2.workers[v], e);
    var acts3, u := EnterHandler(limit, r2, e);
    ExecConcat(limit, r, acts1, acts2);
    ExecConcat(limit, r, acts1 + acts2, acts3);
    hide EarlyResets;
    assert !HandlerAlone(Exec(limit, r, acts1 + acts2 + acts3), e);
  }

  /** On a record nobody can write over, a reset is safe for good. */
  lemma ReplayInTime(limit: nat, s: State, e: EventId)
    requires Reachable(limit, s) && EarlyResets(s, e) == 0 && !AnyExposed(s, e)
    ensures AlwaysAlone(limit, Replayed(s, e), e)
  {
    var s' := Replayed(s, e);
    ReachableStep(limit, s, PrepareForReplay(e));
    assert EarlyResets(s', e) == 0;
    assert forall w: Worker :: Running(w, e) ==> Holding(w, e);
    hide Reachable, Legal, Exec;
    forall acts | Legal(limit, s', acts) && EarlyResets(Exec(limit, s', acts), e) == 0
      ensures HandlerAlone(Exec(limit, s', acts), e)
    {
      var t := Exec(limit, s', acts);
      ReachableRun(limit, s', acts);
      forall w, v | w in t.workers && v in t.workers && Running(t.workers[w], e) && Running(t.workers[v], e)
        ensures w == v
      {
        InboxExclusion.MutualExclusion(limit, t, e, w, v);
      }
    }
  }

  /** Resetting a dead-lettered event keeps its handler exclusive in every later run exactly when no
      worker is still on the record, which is to say none that can write FAILED over the reset. */
  lemma ReplaySafeIff(limit: nat, s: State, e: EventId)
    requires Reachable(limit, s) && e in s.rows && s.rows[e].status.DlqSent? && EarlyResets(s, e) == 0
    ensures AlwaysAlone(limit, Replayed(s, e), e) <==> Unheld(s, e)
    ensures Unheld(s, e) <==> !AnyExposed(s, e)
  {
    InboxRetries.ReachableInv(limit, s);
    InboxRetries.HeldIsExposed(limit, s, e);
    if AnyExposed(s, e) {
      ReplayTooEarly(limit, s, e);
      var w :| w in s.workers && Exposed(s.workers[w], e);
      assert Holding(s.workers[w], e);
    } else {
      ReplayInTime(limit, s, e);
    }
  }

  /** Worker 0 stands at `pc` in a delivery of the only message of partition 0. */
  ghost predicate OnlyDelivery(s: State, e: EventId, task: Option<Task>) {
    0 in s.workers && s.workers[0] == Worker(0, 0, task) && LogOf(s, 0) == [Event(e)]
  }

  /** The first delivery of the first message begins. */
  lemma FirstDelivery(limit: nat, e: EventId) returns (acts: seq<Action>, s: State)
    ensures Legal(limit, Initial, acts) && s == Exec(limit, Initial, acts)
    ensures OnlyDelivery(s, e, Some(Task(e, Look))) && RowOf(s, e) == None && EarlyResets(s, e) == 0
  {
    var queued := Initial.(logs := map[0 := [Event(e)]]);
    var joined := queued.(workers := map[0 := Worker(0, 0, None)]);
    s := joined.(workers := map[0 := Worker(0, 0, Some(Task(e, Look)))]);
    assert LogOf(Initial, 0) + [Event(e)] == [Event(e)];
    assert Apply(limit, Initial, Append(0, Event(e))) == queued;
    assert Apply(limit, queued, Join(0, 0)) == joined;
    assert Apply(limit, joined, Deliver(0)) == s;
    ExecExtend(limit, Initial, [], Append(0, Event(e)));
    acts := [] + [Append(0, Event(e))];
    ExecExtend(limit, Initial, acts, Join(0, 0));
    acts := acts + [Join(0, 0)];
    ExecExtend(limit, Initial, acts, Deliver(0));
    acts := acts + [Deliver(0)];
  }

  lemma FirstRun(limit: nat, e: EventId) returns (acts: seq<Action>, s: State)
    ensures Legal(limit, Initial, acts) && s == Exec(limit, Initial, acts)
    ensures OnlyDelivery(s, e, Some(Task(e, Handle))) && RowOf(s, e) == Some(Row(Processing, 0))
    ensures EarlyResets(s, e) == 0
  {
    hide Legal, Exec;
    acts, s := FirstDelivery(limit, e);
    acts, s := OneMore(limit, Initial, acts, s, 0, e, Look, Returns);
    acts, s := OneMore(limit, Initial, acts, s, 0, e, Insert, Returns);
    acts, s := OneMore(limit, Initial, acts, s, 0, e, Claim, Returns);
    acts, s := OneMore(limit, Initial, acts, s, 0, e, ClaimRead, Returns);
  }

  /** A handler that fails below the limit leaves the row RETRYING. */
  lemma FailOnce(limit: nat, before: seq<Action>, was: State, e: EventId, n: nat) returns (acts: seq<Action>, s: State)
    requires Legal(limit, Initial, before) && was == Exec(limit, Initial, before) && n < limit
    requires OnlyDelivery(was, e, Some(Task(e, Handle))) && RowOf(was, e) == Some(Row(Processing, n))
    ensures Legal(limit, Initial, acts) && s == Exec(limit, Initial, acts)
    ensures OnlyDelivery(s, e, None) && RowOf(s, e) == Some(Row(Retrying, n + 1))
    ensures EarlyResets(s, e) == EarlyResets(was, e)
  {
    hide Legal, Exec, EarlyResets;
    acts, s := OneMore(limit, Initial, before, was, 0, e, Handle, Throws(false));
    acts, s := OneMore(limit, Initial, acts, s, 0, e, CatchRead, Returns);
    acts, s := OneMore(limit, Initial, acts, s, 0, e, WriteRetrying(n + 1), Returns);
  }

  /** And the redelivery starts it again. */
  lemma StartAgain(limit: nat, before: seq<Action>, was: State, e: EventId, n: nat)
    returns (acts: seq<Action>, s: State)
    requires Legal(limit, Initial, before) && was == Exec(limit, Initial, before)
    requires OnlyDelivery(was, e, None) && RowOf(was, e) == Some(Row(Retrying, n))
    ensures Legal(limit, Initial, acts) && s == Exec(limit, Initial, acts)
    ensures OnlyDelivery(s, e, Some(Task(e, Handle))) && RowOf(s, e) == Some(Row(Processing, n))
    ensures EarlyResets(s, e) == EarlyResets(was, e)
  {
    hide Legal, Exec;
    ExecExtend(limit, Initial, before, Deliver(0));
    acts, s := before + [Deliver(0)], Apply(limit, was, Deliver(0));
    assert EarlyResets(s, e) == EarlyResets(was, e);
    hide EarlyResets, Apply;
    acts, s := OneMore(limit, Initial, acts, s, 0, e, Look, Returns);
    acts, s := OneMore(limit, Initial, acts, s, 0, e, Claim, Returns);
    acts, s := OneMore(limit, Initial, acts, s, 0, e, ClaimRead, Returns);
  }

  lemma {:induction false} FailTimes(limit: nat, e: EventId, n: nat) returns (acts: seq<Action>, s: State)
    requires n <= limit
    ensures Legal(limit, Initial, acts) && s == Exec(limit, Initial, acts)
    ensures OnlyDelivery(s, e, Some(Task(e, Handle))) && RowOf(s, e) == Some(Row(Processing, n))
    ensures EarlyResets(s, e) == 0
  {
    hide Legal, Exec;
    if n == 0 {
      acts, s := FirstRun(limit, e);
    } else {
      acts, s := FailTimes(limit, e, n - 1);
      acts, s := FailOnce(limit, acts, s, e, n - 1);
      acts, s := StartAgain(limit, acts, s, e, n);
    }
  }

  /** A handler that fails at the limit is given up. */
  lemma GiveUp(limit: nat, before: seq<Action>, was: State, e: EventId) returns (acts: seq<Action>, s: State)
    requires Legal(limit, Initial, before) && was == Exec(limit, Initial, before)
    requires OnlyDelivery(was, e, Some(Task(e, Handle))) && RowOf(was, e) == Some(Row(Processing, limit))
    ensures Legal(limit, Initial, acts) && s == Exec(limit, Initial, acts)
    ensures OnlyDelivery(s, e, Some(Task(e, CommitDlq(limit + 1)))) && RowOf(s, e) == Some(Row(DlqSent, limit + 1))
    ensures EarlyResets(s, e) == EarlyResets(was, e)
  {
    hide Legal, Exec, EarlyResets;
    acts, s := OneMore(limit, Initial, before, was, 0, e, Handle, Throws(false));
    acts, s := OneMore(limit, Initial, acts, s, 0, e, CatchRead, Returns);
    acts, s := OneMore(limit, Initial, acts, s, 0, e, SendDlq(limit + 1), Returns);
    acts, s := OneMore(limit, Initial, acts, s, 0, e, WriteDlqSent(limit + 1), Returns);
  }

  /** Such a state is reached, at every limit: an event whose handler always fails has, after its last
      retry, a worker holding a DLQ_SENT record until it has committed the offset. */
  lemma HeldWhileDlqSent(limit: nat, e: EventId) returns (s: State)
    ensures Reachable(limit, s) && e in s.rows && s.rows[e].status.DlqSent? && !Unheld(s, e)
    ensures EarlyResets(s, e) == 0 && OnlyDelivery(s, e, Some(Task(e, CommitDlq(limit + 1))))
  {
    hide Legal, Exec, Reachable, EarlyResets, Step;
    var acts;
    acts, s := FailTimes(limit, e, limit);
    acts, s := GiveUp(limit, acts, s, e);
    assert Holding(s.workers[0], e);
    ReachedBy(limit, acts, s);
  }

  /** What a reset does to such a state: the worker's commit throws, it writes FAILED over the reset, and
      the row's count is no longer the number of failures since. */
  lemma EarlyResetMiscounts(limit: nat, e: EventId) returns (s: State)
    ensures Reachable(limit, s) && EarlyResets(s, e) == 1 && HistoryOf(s, e).failures == 0
    ensures RowOf(s, e) == Some(Row(Failed, limit + 1))
  {
    var held := HeldWhileDlqSent(limit, e);
    ReachableStep(limit, held, PrepareForReplay(e));
    assert Exposed(held.workers[0], e);
    var r := Replayed(held, e);
    assert r.workers == held.workers && EarlyResets(r, e) == 1 && HistoryOf(r, e).failures == 0;
    hide *;
    var acts;
    acts, s := FailedOverReset(limit, r, e, limit + 1);
    ReachableRun(limit, r, acts);
  }

  lemma FailedOverReset(limit: nat, r: State, e: EventId, n: nat) returns (acts: seq<Action>, s: State)
    requires 0 in r.workers && r.workers[0].task == Some(Task(e, CommitDlq(n))) && RowOf(r, e).Some?
    ensures Legal(limit, r, acts) && s == Exec(limit, r, acts) && RowOf(s, e) == Some(Row(Failed, n))
    ensures EarlyResets(s, e) == EarlyResets(r, e) && HistoryOf(s, e).failures == HistoryOf(r, e).failures
  {
    acts := Nothing(limit, r);
    hide Legal, Exec, EarlyResets;
    acts, s := OneMore(limit, r, acts, r, 0, e, CommitDlq(n), Throws(false));
    acts, s := OneMore(limit, r, acts, s, 0, e, WriteFailed(n), Returns);
  }

  lemma ReachedBy(limit: nat, acts: seq<Action>, s: State)
    requires Legal(limit, Initial, acts) && s == Exec(limit, Initial, acts)
    ensures Reachable(limit, s)
  {
  }
}
