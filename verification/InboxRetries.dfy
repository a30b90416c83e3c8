/** The retry count of an inbox row, attempt by attempt, in every run that has not reset the event early. */
module InboxRetries {
  import opened Awaits
  import opened Events
  import opened InboxConsumer
  import opened InboxProtocol
  import opened InboxRepository
  import opened Wrappers

  /* ---- What holds of one event's row and history ---- */

  predicate Within(h: History, limit: nat, slack: nat) {
    h.successes <= h.late && h.failures <= limit + h.forwards + slack
  }

  /** The event can be claimed: every failure is counted on the row. */
  predicate Ready(row: Row, h: History, limit: nat) {
    Within(h, limit, 0) && h.failures == h.runs == row.retryCount
  }

  predicate RunStarted(row: Row, h: History, limit: nat) {
    && row.status.Processing? && h.failures == row.retryCount && h.runs == h.failures + 1
    && h.failures <= limit + h.forwards
  }

  predicate Succeeded(row: Row, h: History, limit: nat) {
    && h.failures == row.retryCount && h.runs == h.failures + 1 && h.failures <= limit + h.forwards
    && 1 <= h.successes <= h.late + 1
  }

  /** In the catch block, before its write: one failure is not on the row yet. */
  predicate Caught(row: Row, h: History, limit: nat) {
    && (row.status.Processing? || (row.status.Processed? && h.successes >= 1))
    && Within(h, limit, 1) && h.failures == h.runs == row.retryCount + 1
  }

  predicate Forwarded(row: Row, h: History, limit: nat) {
    row.status.DlqSent? && Within(h, limit, 1) && h.failures == h.runs == row.retryCount > limit && h.records >= 1
  }

  /** What holds while some worker stands at `pc`, after a claim and before its delivery ends. */
  predicate HeldOk(limit: nat, pc: Pc, row: Row, h: History) {
    match pc
    case ClaimRead => row.status.Processing? && Ready(row, h, limit)
    case Handle => RunStarted(row, h, limit) && h.successes <= h.late
    case MarkDone => row.status.Processing? && Succeeded(row, h, limit)
    case CommitDone => row.status.Processed? && Succeeded(row, h, limit)
    case CatchRead => Caught(row, h, limit)
    case WriteRetrying(n) => Caught(row, h, limit) && n == h.failures <= limit
    case SendDlq(n) => Caught(row, h, limit) && n == h.failures > limit
    case WriteDlqSent(n) => Caught(row, h, limit) && n == h.failures > limit && h.records >= 1
    case CommitDlq(n) => Forwarded(row, h, limit) && n == h.failures
    case WriteFailed(n) =>
      (Caught(row, h, limit) || Forwarded(row, h, limit)) && Within(h, limit, 0) && n == h.failures > limit
    case _ => false
  }

  /** What holds while no worker does. A PROCESSING row without a holder is one whose holder died. */
  predicate FreeOk(limit: nat, row: Option<Row>, h: History) {
    match row
    case None => h == Blank
    case Some(r) =>
      match r.status
      case Received => Ready(r, h, limit) && r.retryCount <= limit
      case Retrying => Ready(r, h, limit) && r.retryCount <= limit
      case Failed => Ready(r, h, limit) && r.retryCount > limit
      case DlqSent => Forwarded(r, h, limit)
      case Processing => h.successes <= h.late + 1 && h.runs <= limit + h.forwards + 1
      case Processed => 1 <= h.successes <= h.late + 1 && h.runs <= limit + h.forwards + 1
  }

  /* A holder's step keeps what holds of its event, in each way it can go on. */

  lemma HeldStep(limit: nat, pc: Pc, row: Row, h: History, await: Await)
    requires Holds(pc) && HeldOk(limit, pc, row, h)
    ensures var local := Step(limit, pc, Some(row), await);
      var h' := Tally(h, pc, await, local.pc);
      && local.row.Some?
      && (if Holds(local.pc) then HeldOk(limit, local.pc, local.row.value, h')
          else Ended(local.pc) && FreeOk(limit, local.row, h'))
  {
  }

  lemma HeldDies(limit: nat, pc: Pc, row: Row, h: History)
    requires Holds(pc) && HeldOk(limit, pc, row, h)
    ensures FreeOk(limit, Some(row), h)
  {
  }

  lemma HeldNotClaimable(limit: nat, pc: Pc, row: Row, h: History)
    requires Holds(pc) && HeldOk(limit, pc, row, h)
    ensures !Claimable(row.status)
    ensures row.status.DlqSent? ==> pc.CommitDlq? || pc.WriteFailed?
  {
  }

  /** A step of a worker that does not hold its event while nobody does: it may become the holder. */
  lemma FreeStep(limit: nat, pc: Pc, row: Option<Row>, h: History, await: Await)
    requires !Holds(pc) && !Ended(pc) && FreeOk(limit, row, h)
    ensures var local := Step(limit, pc, row, await);
      && Tally(h, pc, await, local.pc) == h
      && (if Holds(local.pc) then local.row.Some? && HeldOk(limit, local.pc, local.row.value, h)
          else FreeOk(limit, local.row, h))
  {
  }

  /** A step of a worker that does not hold its event while another does: it changes nothing. */
  lemma LockedOutStep(limit: nat, pc: Pc, row: Row, h: History, await: Await)
    requires !Holds(pc) && !Ended(pc) && !Claimable(row.status)
    ensures var local := Step(limit, pc, Some(row), await);
      Tally(h, pc, await, local.pc) == h && local.row == Some(row) && !Holds(local.pc)
  {
  }

  /* ---- The invariant ---- */

  ghost predicate EventOk(limit: nat, s: State, e: EventId) {
    && (forall w, v :: w in s.workers && v in s.workers && Holding(s.workers[w], e) && Holding(s.workers[v], e) ==>
          w == v)
    && (forall w :: w in s.workers && Holding(s.workers[w], e) ==>
          RowOf(s, e).Some? && HeldOk(limit, s.workers[w].task.value.pc, RowOf(s, e).value, HistoryOf(s, e)))
    && (Unheld(s, e) ==> FreeOk(limit, RowOf(s, e), HistoryOf(s, e)))
  }

  /** What holds of every event that has not been reset early. */
  ghost predicate Inv(limit: nat, s: State) {
    InboxProtocol.Inv(s) && forall e :: HistoryOf(s, e).early == 0 ==> EventOk(limit, s, e)
  }

  /** Where no worker but `w` can hold the event, what `w` and the row say decides. */
  lemma OneMayHold(limit: nat, s: State, e: EventId, w: WorkerId)
    requires w in s.workers && forall v :: v in s.workers && v != w ==> !Holding(s.workers[v], e)
    requires
      if Holding(s.workers[w], e)
      then RowOf(s, e).Some? && HeldOk(limit, s.workers[w].task.value.pc, RowOf(s, e).value, HistoryOf(s, e))
      else FreeOk(limit, RowOf(s, e), HistoryOf(s, e))
    ensures EventOk(limit, s, e)
  {
    hide HeldOk, FreeOk;
  }

  lemma HolderMoves(limit: nat, s: State, w: WorkerId, await: Await)
    requires w in s.workers && s.workers[w].task.Some? && Holds(s.workers[w].task.value.pc)
    requires EventOk(limit, s, s.workers[w].task.value.event)
    ensures EventOk(limit, Advanced(limit, s, w, await), s.workers[w].task.value.event)
  {
    var e, pc := s.workers[w].task.value.event, s.workers[w].task.value.pc;
    assert Holding(s.workers[w], e);
    HeldStep(limit, pc, RowOf(s, e).value, HistoryOf(s, e), await);
    OthersStay(limit, s, w, await);
    hide HeldOk, FreeOk, Step, Tally, Advanced;
    var s' := Advanced(limit, s, w, await);
    assert forall v :: v in s'.workers && v != w ==> !Holding(s'.workers[v], e);
    hide Unheld;
    OneMayHold(limit, s', e, w);
  }

  lemma FreeMoves(limit: nat, s: State, w: WorkerId, await: Await)
    requires w in s.workers && s.workers[w].task.Some? && !Ended(s.workers[w].task.value.pc)
    requires Unheld(s, s.workers[w].task.value.event) && EventOk(limit, s, s.workers[w].task.value.event)
    ensures EventOk(limit, Advanced(limit, s, w, await), s.workers[w].task.value.event)
  {
    var e, pc := s.workers[w].task.value.event, s.workers[w].task.value.pc;
    assert !Holding(s.workers[w], e);
    FreeStep(limit, pc, RowOf(s, e), HistoryOf(s, e), await);
    OthersStay(limit, s, w, await);
    hide HeldOk, FreeOk, Step, Tally, Advanced;
    var s' := Advanced(limit, s, w, await);
    assert forall v :: v in s'.workers && v != w ==> !Holding(s'.workers[v], e);
    hide Unheld;
    OneMayHold(limit, s', e, w);
  }

  lemma LockedOutMoves(limit: nat, s: State, w: WorkerId, await: Await, holder: WorkerId)
    requires w in s.workers && s.workers[w].task.Some? && !Ended(s.workers[w].task.value.pc)
    requires holder in s.workers && holder != w && Holding(s.workers[holder], s.workers[w].task.value.event)
    requires EventOk(limit, s, s.workers[w].task.value.event)
    ensures EventOk(limit, Advanced(limit, s, w, await), s.workers[w].task.value.event)
  {
    var e, pc := s.workers[w].task.value.event, s.workers[w].task.value.pc;
    var row := RowOf(s, e).value;
    HeldNotClaimable(limit, s.workers[holder].task.value.pc, row, HistoryOf(s, e));
    LockedOutStep(limit, pc, row, HistoryOf(s, e), await);
    OthersStay(limit, s, w, await);
    hide HeldOk, FreeOk, Step, Tally, Advanced;
    var s' := Advanced(limit, s, w, await);
    assert Holding(s'.workers[holder], e);
    assert !Holding(s'.workers[w], e);
  }

  lemma MoverOk(limit: nat, s: State, w: WorkerId, await: Await)
    requires w in s.workers && s.workers[w].task.Some? && !Ended(s.workers[w].task.value.pc)
    requires EventOk(limit, s, s.workers[w].task.value.event)
    ensures EventOk(limit, Advanced(limit, s, w, await), s.workers[w].task.value.event)
  {
    var e := s.workers[w].task.value.event;
    if Holds(s.workers[w].task.value.pc) {
      HolderMoves(limit, s, w, await);
    } else if holder :| holder in s.workers && Holding(s.workers[holder], e) {
      LockedOutMoves(limit, s, w, await, holder);
    } else {
      FreeMoves(limit, s, w, await);
    }
  }

  /** A step is invisible to every other event. */
  lemma BystanderOk(limit: nat, s: State, w: WorkerId, await: Await, x: EventId)
    requires w in s.workers && s.workers[w].task.Some? && x != s.workers[w].task.value.event
    requires EventOk(limit, s, x)
    ensures EventOk(limit, Advanced(limit, s, w, await), x)
  {
    OthersStay(limit, s, w, await);
    hide HeldOk, FreeOk, Step, Tally, Advanced;
    var s' := Advanced(limit, s, w, await);
    assert forall v :: v in s.workers ==> Holding(s'.workers[v], x) == Holding(s.workers[v], x);
    assert RowOf(s', x) == RowOf(s, x) && HistoryOf(s', x) == HistoryOf(s, x);
    if Unheld(s', x) {
      assert Unheld(s, x);
    }
  }

  /** Steps that leave rows, histories and holders alone. */
  lemma ElsewhereOk(limit: nat, s: State, s': State, e: EventId)
    requires EventOk(limit, s, e) && RowOf(s', e) == RowOf(s, e) && HistoryOf(s', e) == HistoryOf(s, e)
    requires forall w :: w in s'.workers && Holding(s'.workers[w], e) ==>
      w in s.workers && s'.workers[w].task == s.workers[w].task
    requires forall w :: w in s.workers && Holding(s.workers[w], e) ==>
      w in s'.workers && s'.workers[w].task == s.workers[w].task
    ensures EventOk(limit, s', e)
  {
    hide HeldOk, FreeOk;
    if Unheld(s', e) {
      assert Unheld(s, e);
    }
  }

  lemma CrashEvent(limit: nat, s: State, w: WorkerId, e: EventId)
    requires w in s.workers && EventOk(limit, s, e)
    ensures EventOk(limit, s.(workers := s.workers - {w}), e)
  {
    var s' := s.(workers := s.workers - {w});
    if Holding(s.workers[w], e) {
      HeldDies(limit, s.workers[w].task.value.pc, RowOf(s, e).value, HistoryOf(s, e));
    }
    hide HeldOk, FreeOk;
    if Unheld(s', e) && !Holding(s.workers[w], e) {
      forall v | v in s.workers
        ensures !Holding(s.workers[v], e)
      {
        assert v == w || v in s'.workers;
      }
    }
  }

  lemma HeldIsExposed(limit: nat, s: State, e: EventId)
    requires EventOk(limit, s, e) && e in s.rows && s.rows[e].status.DlqSent?
    ensures Unheld(s, e) || AnyExposed(s, e)
  {
    if w :| w in s.workers && Holding(s.workers[w], e) {
      HeldNotClaimable(limit, s.workers[w].task.value.pc, s.rows[e], HistoryOf(s, e));
      assert Exposed(s.workers[w], e);
    }
  }

  /** A reset that is not early finds nobody on the record: a holder of a DLQ_SENT record is exposed. */
  lemma ReplayEvent(limit: nat, s: State, e: EventId, x: EventId)
    requires EventOk(limit, s, x) && HistoryOf(Replayed(s, e), x).early == HistoryOf(s, x).early
    ensures EventOk(limit, Replayed(s, e), x)
  {
    var s' := Replayed(s, e);
    if x != e || RowOf(s, e).None? || !RowOf(s, e).value.status.DlqSent? {
      hide AnyExposed, NewEpoch;
      ElsewhereOk(limit, s, s', x);
    } else {
      HeldIsExposed(limit, s, e);
      assert Unheld(s, e) && Unheld(s', e);
    }
  }

  lemma EventStep(limit: nat, s: State, a: Action, e: EventId)
    requires Enabled(s, a) && EventOk(limit, s, e) && (a.Advance? ==> !Ended(s.workers[a.worker].task.value.pc))
    requires HistoryOf(Apply(limit, s, a), e).early == HistoryOf(s, e).early
    ensures EventOk(limit, Apply(limit, s, a), e)
  {
    hide EventOk, Advanced, Replayed;
    match a
    case Advance(w, await) =>
      if s.workers[w].task.value.event == e {
        MoverOk(limit, s, w, await);
      } else {
        BystanderOk(limit, s, w, await, e);
      }
    case Crash(w) => CrashEvent(limit, s, w, e);
    case PrepareForReplay(x) => ReplayEvent(limit, s, x, e);
    case _ => ElsewhereOk(limit, s, Apply(limit, s, a), e);
  }

  /** No action takes an early reset back. */
  lemma EarlyGrows(limit: nat, s: State, a: Action, e: EventId)
    requires Enabled(s, a)
    ensures HistoryOf(s, e).early <= HistoryOf(Apply(limit, s, a), e).early
    ensures !Resets(a, e) ==> HistoryOf(s, e).early == HistoryOf(Apply(limit, s, a), e).early
  {
    hide Step, AnyExposed;
  }

  lemma InvStep(limit: nat, s: State, a: Action)
    requires Inv(limit, s) && Enabled(s, a)
    ensures Inv(limit, Apply(limit, s, a))
  {
    InboxProtocol.InvStep(limit, s, a);
    if a.Advance? {
      assert WorkerOk(s, s.workers[a.worker]);
    }
    hide InboxProtocol.Inv, Apply, EventOk, WorkerOk;
    forall e | HistoryOf(Apply(limit, s, a), e).early == 0 ensures EventOk(limit, Apply(limit, s, a), e) {
      EarlyGrows(limit, s, a, e);
      EventStep(limit, s, a, e);
    }
  }

  lemma {:induction false} InvRun(limit: nat, s: State, acts: seq<Action>)
    requires Inv(limit, s) && Legal(limit, s, acts)
    ensures Inv(limit, Exec(limit, s, acts))
    decreases |acts|
  {
    if |acts| > 0 {
      hide Inv;
      InvStep(limit, s, acts[0]);
      InvRun(limit, Apply(limit, s, acts[0]), acts[1..]);
    }
  }

  lemma ReachableInv(limit: nat, s: State)
    requires Reachable(limit, s)
    ensures Inv(limit, s)
  {
    var acts :| Legal(limit, Initial, acts) && s == Exec(limit, Initial, acts);
    InvRun(limit, Initial, acts);
  }

  /** Retry accounting, per replay epoch, for an event not reset early: outside a delivery the row's count
      is the number of failures;
      the status says on which side of the limit it is; and the handler is started at most limit + 1
      times, plus once for each failed forward to the dead-letter topic. */
  lemma RetryAccounting(limit: nat, s: State, e: EventId)
    requires Reachable(limit, s) && HistoryOf(s, e).early == 0
    ensures var h := HistoryOf(s, e);
      && h.runs <= limit + 1 + h.forwards
      && (e in s.rows ==>
        var row := s.rows[e];
        && (Claimable(row.status) || row.status.DlqSent? ==> row.retryCount == h.failures)
        && (row.status.Retrying? ==> row.retryCount <= limit)
        && (row.status.Failed? || row.status.DlqSent? ==> row.retryCount > limit))
  {
    ReachableInv(limit, s);
    assert EventOk(limit, s, e);
    if !Unheld(s, e) {
      var w :| w in s.workers && Holding(s.workers[w], e);
    }
  }

}
