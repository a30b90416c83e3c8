/** How many workers can hold one event, and how often its handler can succeed, in any run.

    A claim uses up the one claimable row, and a holder gives it back when it writes RETRYING or FAILED,
    so that there is never more than one right to run the handler: held by a worker, offered by the row,
    or spent on a success. A replay reset creates the right anew. That is one too many exactly when a
    worker that is past its dead-letter record can still give its own right back. */
module InboxExclusion {
  import opened Awaits
  import opened Events
  import opened InboxConsumer
  import opened InboxProtocol
  import opened InboxRepository
  import opened Wrappers
  import Sets

  /** Where a worker that holds `e` stands. */
  function HoldOn(s: State, w: WorkerId, e: EventId): Option<Pc> {
    if w in s.workers && Holding(s.workers[w], e) then Some(s.workers[w].task.value.pc) else None
  }

  /** Its handler has succeeded, and nothing has thrown since. */
  predicate Spent(pc: Pc) {
    pc.MarkDone? || pc.CommitDone?
  }

  predicate ExposedAt(pc: Pc) {
    pc.CommitDlq? || pc.WriteFailed?
  }

  ghost function Holders(s: State, e: EventId): set<WorkerId> {
    set w | w in s.workers && HoldOn(s, w, e).Some?
  }

  ghost function SpentHolders(s: State, e: EventId): set<WorkerId> {
    set w | w in s.workers && HoldOn(s, w, e).Some? && Spent(HoldOn(s, w, e).value)
  }

  ghost function Unspent(s: State, e: EventId): set<WorkerId> {
    set w | w in s.workers && HoldOn(s, w, e).Some? && !Spent(HoldOn(s, w, e).value)
  }

  /** Whether the row offers a claim, or will once the record is inserted. */
  function Open(row: Option<Row>): nat {
    if row.None? || Claimable(row.value.status) then 1 else 0
  }

  /** What one worker contributes. */
  function Right(pc: Option<Pc>): nat {
    if pc.Some? && Holds(pc.value) && !Spent(pc.value) then 1 else 0
  }

  function Use(pc: Option<Pc>): nat {
    if pc.Some? && Spent(pc.value) then 1 else 0
  }

  function ExposedBy(pc: Option<Pc>): nat {
    if pc.Some? && ExposedAt(pc.value) then 1 else 0
  }

  predicate IsDlqSent(row: Option<Row>) {
    row.Some? && row.value.status.DlqSent?
  }

  /** The rights in use and on offer: at most one, and one more for each early reset. While the row says
      DLQ_SENT and no worker can write over it, even that one is gone. */
  ghost predicate RightsOk(s: State, e: EventId) {
    var h := HistoryOf(s, e);
    && (RowOf(s, e).None? ==> Holders(s, e) == {})
    && h.late + |SpentHolders(s, e)| <= h.successes
    && h.successes + |Unspent(s, e)| + Open(RowOf(s, e)) <= h.late + 1 + h.early
    && (IsDlqSent(RowOf(s, e)) && !AnyExposed(s, e) ==> h.successes + |Unspent(s, e)| <= h.late + h.early)
  }

  /* ---- One await ---- */

  /** An await never creates a right, loses one when an exposed worker moves on, and counts every success
      it spends one on. */
  lemma RightStep(limit: nat, pc: Pc, row: Option<Row>, h: History, await: Await)
    requires !Ended(pc) && (Holds(pc) ==> row.Some?)
    ensures var local := Step(limit, pc, row, await);
      var h' := Tally(h, pc, await, local.pc);
      var before, after := Some(pc), Some(local.pc);
      && h'.successes + Right(after) + Open(local.row) + h.late <= h.successes + Right(before) + Open(row) + h'.late
      && h.successes + Use(after) + h'.late <= h'.successes + Use(before) + h.late
      && h'.early == h.early && (row.Some? || Holds(local.pc) ==> local.row.Some?)
      && (IsDlqSent(local.row) && !ExposedAt(local.pc) ==>
            IsDlqSent(row)
            && h'.successes + Right(after) + ExposedBy(before) + h.late <= h.successes + Right(before) + h'.late)
  {
  }

  /* ---- Counting workers ---- */

  lemma OneDiffers(a: set<WorkerId>, b: set<WorkerId>, w: WorkerId)
    requires forall v :: v != w ==> (v in a <==> v in b)
    ensures |a| + (if w in b then 1 else 0) == |b| + (if w in a then 1 else 0)
  {
    var rest := a - {w};
    assert rest == b - {w};
    assert a == if w in a then rest + {w} else rest;
    assert b == if w in b then rest + {w} else rest;
  }

  /** Where only `w` changes, the counts change by what it contributes. */
  lemma OneMoves(s: State, s': State, e: EventId, w: WorkerId)
    requires forall v :: v != w ==> HoldOn(s', v, e) == HoldOn(s, v, e)
    ensures |Unspent(s', e)| + Right(HoldOn(s, w, e)) == |Unspent(s, e)| + Right(HoldOn(s', w, e))
    ensures |SpentHolders(s', e)| + Use(HoldOn(s, w, e)) == |SpentHolders(s, e)| + Use(HoldOn(s', w, e))
    ensures AnyExposed(s, e) && ExposedBy(HoldOn(s, w, e)) == 0 ==> AnyExposed(s', e)
    ensures ExposedBy(HoldOn(s', w, e)) == 1 ==> AnyExposed(s', e)
  {
    OneDiffers(Unspent(s, e), Unspent(s', e), w);
    OneDiffers(SpentHolders(s, e), SpentHolders(s', e), w);
    if AnyExposed(s, e) && ExposedBy(HoldOn(s, w, e)) == 0 {
      var v :| v in s.workers && Exposed(s.workers[v], e);
      assert HoldOn(s', v, e) == HoldOn(s, v, e);
      assert Exposed(s'.workers[v], e);
    }
    if ExposedBy(HoldOn(s', w, e)) == 1 {
      assert Exposed(s'.workers[w], e);
    }
  }

  /** Where only `w` moves, and its move creates no right, all stays well. */
  lemma RightsMoved(s: State, s': State, e: EventId, w: WorkerId)
    requires RightsOk(s, e) && forall v :: v != w ==> HoldOn(s', v, e) == HoldOn(s, v, e)
    requires RowOf(s, e).Some? || HoldOn(s', w, e).Some? ==> RowOf(s', e).Some?
    requires
      var h, h' := HistoryOf(s, e), HistoryOf(s', e);
      var before, after := HoldOn(s, w, e), HoldOn(s', w, e);
      && h'.successes + Right(after) + Open(RowOf(s', e)) + h.late
           <= h.successes + Right(before) + Open(RowOf(s, e)) + h'.late
      && h.successes + Use(after) + h'.late <= h'.successes + Use(before) + h.late
      && h'.early == h.early
      && (IsDlqSent(RowOf(s', e)) && ExposedBy(after) == 0 ==>
            IsDlqSent(RowOf(s, e))
            && h'.successes + Right(after) + ExposedBy(before) + h.late <= h.successes + Right(before) + h'.late)
    ensures RightsOk(s', e)
  {
    OneMoves(s, s', e, w);
    hide Open, Right, Use, ExposedBy, Unspent, SpentHolders, AnyExposed, Exposed;
    if RowOf(s', e).None? {
      forall v | v in s'.workers ensures HoldOn(s', v, e).None? {
        assert v != w ==> HoldOn(s, v, e) == HoldOn(s', v, e);
        assert v != w && HoldOn(s, v, e).Some? ==> v in Holders(s, e);
      }
    }
  }

  /** Steps that leave an event's row, history and holders alone. */
  lemma RightsSame(s: State, s': State, e: EventId)
    requires RightsOk(s, e) && RowOf(s', e) == RowOf(s, e) && HistoryOf(s', e) == HistoryOf(s, e)
    requires forall v :: HoldOn(s', v, e) == HoldOn(s, v, e)
    ensures RightsOk(s', e)
  {
    assert Holders(s', e) == Holders(s, e);
    assert Unspent(s', e) == Unspent(s, e);
    assert SpentHolders(s', e) == SpentHolders(s, e);
    OneMoves(s, s', e, 0);
    OneMoves(s, s', e, 1);
  }

  /* ---- Every action ---- */

  lemma BystanderKeeps(limit: nat, s: State, w: WorkerId, await: Await, x: EventId)
    requires RightsOk(s, x) && w in s.workers && s.workers[w].task.Some? && x != s.workers[w].task.value.event
    ensures RightsOk(Advanced(limit, s, w, await), x)
  {
    OthersStay(limit, s, w, await);
    hide Step, Tally, Advanced, RightsOk;
    var s' := Advanced(limit, s, w, await);
    forall v ensures HoldOn(s', v, x) == HoldOn(s, v, x) {
    }
    RightsSame(s, s', x);
  }

  /** Where a step leaves its worker. */
  lemma MovedTo(limit: nat, s: State, w: WorkerId, await: Await)
    requires w in s.workers && s.workers[w].task.Some?
    ensures var e, pc := s.workers[w].task.value.event, s.workers[w].task.value.pc;
      var next := Step(limit, pc, RowOf(s, e), await).pc;
      var s' := Advanced(limit, s, w, await);
      && HoldOn(s, w, e) == (if Holds(pc) then Some(pc) else None)
      && HoldOn(s', w, e) == (if Holds(next) then Some(next) else None)
      && forall v :: v != w ==> HoldOn(s', v, e) == HoldOn(s, v, e)
  {
    OthersStay(limit, s, w, await);
    hide Step, Tally, Advanced;
  }

  lemma MoverKeeps(limit: nat, s: State, w: WorkerId, await: Await)
    requires w in s.workers && s.workers[w].task.Some? && !Ended(s.workers[w].task.value.pc)
    requires RightsOk(s, s.workers[w].task.value.event)
    ensures RightsOk(Advanced(limit, s, w, await), s.workers[w].task.value.event)
  {
    var e, pc := s.workers[w].task.value.event, s.workers[w].task.value.pc;
    MovedTo(limit, s, w, await);
    if Holds(pc) {
      HeldNeedsRow(s, e, w);
    }
    RightStep(limit, pc, RowOf(s, e), HistoryOf(s, e), await);
    OthersStay(limit, s, w, await);
    hide Step, Tally, Advanced, RightsOk, Open, HoldOn;
    RightsMoved(s, Advanced(limit, s, w, await), e, w);
  }

  lemma HeldNeedsRow(s: State, e: EventId, w: WorkerId)
    requires RightsOk(s, e) && HoldOn(s, w, e).Some?
    ensures RowOf(s, e).Some?
  {
    assert w in Holders(s, e);
  }

  lemma CrashKeeps(s: State, w: WorkerId, e: EventId)
    requires RightsOk(s, e)
    ensures RightsOk(s.(workers := s.workers - {w}), e)
  {
    hide RightsOk;
    var s' := s.(workers := s.workers - {w});
    forall v | v != w ensures HoldOn(s', v, e) == HoldOn(s, v, e) {
    }
    RightsMoved(s, s', e, w);
  }

  /** A reset offers a right again: the one that was gone, or, taken early, one more. */
  lemma ReplayKeeps(s: State, e: EventId, x: EventId)
    requires RightsOk(s, x)
    ensures RightsOk(Replayed(s, e), x)
  {
    var s' := Replayed(s, e);
    assert s'.workers == s.workers;
    if x != e || !IsDlqSent(RowOf(s, e)) {
      hide RightsOk, AnyExposed;
      forall v ensures HoldOn(s', v, x) == HoldOn(s, v, x) {
      }
      RightsSame(s, s', x);
    } else {
      hide HoldOn;
      assert Unspent(s', e) == Unspent(s, e) && SpentHolders(s', e) == SpentHolders(s, e);
    }
  }

  ghost predicate Inv(s: State) {
    InboxProtocol.Inv(s) && forall e :: RightsOk(s, e)
  }

  lemma InvStep(limit: nat, s: State, a: Action)
    requires Inv(s) && Enabled(s, a)
    ensures Inv(Apply(limit, s, a))
  {
    InboxProtocol.InvStep(limit, s, a);
    if a.Advance? {
      assert WorkerOk(s, s.workers[a.worker]);
    }
    hide InboxProtocol.Inv, Apply, WorkerOk;
    forall e ensures RightsOk(Apply(limit, s, a), e) {
      RightsStep(limit, s, a, e);
    }
  }

  lemma RightsStep(limit: nat, s: State, a: Action, e: EventId)
    requires Enabled(s, a) && RightsOk(s, e) && (a.Advance? ==> !Ended(s.workers[a.worker].task.value.pc))
    ensures RightsOk(Apply(limit, s, a), e)
  {
    hide RightsOk, Advanced, Replayed;
    match a
    case Advance(w, await) =>
      if s.workers[w].task.value.event == e {
        MoverKeeps(limit, s, w, await);
      } else {
        BystanderKeeps(limit, s, w, await, e);
      }
    case Crash(w) => CrashKeeps(s, w, e);
    case PrepareForReplay(x) => ReplayKeeps(s, x, e);
    case _ => RightsSame(s, Apply(limit, s, a), e);
  }

  lemma {:induction false} InvRun(limit: nat, s: State, acts: seq<Action>)
    requires Inv(s) && Legal(limit, s, acts)
    ensures Inv(Exec(limit, s, acts))
    decreases |acts|
  {
    if |acts| > 0 {
      hide Inv;
      InvStep(limit, s, acts[0]);
      InvRun(limit, Apply(limit, s, acts[0]), acts[1..]);
    }
  }

  lemma ReachableInv(limit: nat, s: State)
    requires Reachable(limit, s)
    ensures Inv(s)
  {
    var acts :| Legal(limit, Initial, acts) && s == Exec(limit, Initial, acts);
    assert forall e :: Holders(Initial, e) == {} && Unspent(Initial, e) == {} && SpentHolders(Initial, e) == {};
    InvRun(limit, Initial, acts);
  }

  /* ---- What it gives ---- */

  lemma HoldersSplit(s: State, e: EventId)
    ensures |Holders(s, e)| == |Unspent(s, e)| + |SpentHolders(s, e)|
  {
    assert Holders(s, e) == Unspent(s, e) + SpentHolders(s, e);
    assert Unspent(s, e) * SpentHolders(s, e) == {};
  }

  /** Whatever crashes, throws and interleaves, and whenever the operator resets: the workers between a
      claim of an event and the end of that delivery are at most one, and one more for each early reset. */
  lemma HoldersBounded(limit: nat, s: State, e: EventId)
    requires Reachable(limit, s)
    ensures |Holders(s, e)| <= 1 + HistoryOf(s, e).early
  {
    ReachableInv(limit, s);
    HoldersSplit(s, e);
    assert RightsOk(s, e);
  }

  /** Mutual exclusion: with no early reset of the event, at most one. */
  lemma MutualExclusion(limit: nat, s: State, e: EventId, w: WorkerId, v: WorkerId)
    requires Reachable(limit, s) && HistoryOf(s, e).early == 0
    requires w in s.workers && v in s.workers && Holding(s.workers[w], e) && Holding(s.workers[v], e)
    ensures w == v
  {
    HoldersBounded(limit, s, e);
    if w != v {
      assert {w, v} <= Holders(s, e);
      Sets.SubsetSize({w, v}, Holders(s, e));
    }
  }

  /** Deduplication: an event's handler succeeds at most once, plus once for each time the PROCESSED
      write or the offset commit threw after a success, plus once for each early reset. */
  lemma SuccessesBounded(limit: nat, s: State, e: EventId)
    requires Reachable(limit, s)
    ensures var h := HistoryOf(s, e); h.late <= h.successes <= h.late + 1 + h.early
  {
    ReachableInv(limit, s);
    assert RightsOk(s, e);
  }
}
