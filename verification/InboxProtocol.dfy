/** One consumer group: any number of workers over any number of partitions, sharing one inbox table.

    Workers take the steps of InboxConsumer.Step in any interleaving. A worker joins a partition at its
    committed offset, meets the messages of the partition in order, and meets a message again after it
    threw. It can die between any two steps, and it can go on after its partition went to another. The
    `limit` is RetryLimit of the configured one. */
module InboxProtocol {
  import opened Awaits
  import opened Events
  import opened InboxConsumer
  import opened InboxRepository
  import opened Wrappers

  type WorkerId = nat
  type Partition = nat

  /** A message as a consumer sees it: without a value, undecodable, or carrying an event. */
  datatype Message = Tombstone | Poison | Event(id: EventId)

  datatype Task = Task(event: EventId, pc: Pc)

  /** A worker that will handle, or is handling, the message at `pos` of its partition. */
  datatype Worker = Worker(partition: Partition, pos: nat, task: Option<Task>)

  /** History of one event. `late` counts exceptions of the PROCESSED write or the offset commit after
      a successful handler run; `records` the dead-letter records published; `early` the replay resets
      taken while some worker could still write FAILED over them. The last three are counted since the
      last reset: passes through the catch block, handler runs started, and passes through the inner
      catch block. */
  datatype History = History(
    successes: nat, late: nat, records: nat, early: nat, failures: nat, runs: nat, forwards: nat)

  const Blank := History(0, 0, 0, 0, 0, 0, 0)

  datatype State = State(
    rows: map<EventId, Row>,
    history: map<EventId, History>,
    workers: map<WorkerId, Worker>,
    logs: map<Partition, seq<Message>>,
    committed: map<Partition, nat>)

  datatype Action =
    | Append(partition: Partition, message: Message)
    | Join(worker: WorkerId, partition: Partition)
    | Crash(worker: WorkerId)
    | Deliver(worker: WorkerId)
    | Advance(worker: WorkerId, await: Await)
    | PrepareForReplay(event: EventId)

  const Initial := State(map[], map[], map[], map[], map[])

  function RowOf(s: State, e: EventId): Option<Row> {
    if e in s.rows then Some(s.rows[e]) else None
  }

  function HistoryOf(s: State, e: EventId): History {
    if e in s.history then s.history[e] else Blank
  }

  function LogOf(s: State, p: Partition): seq<Message> {
    if p in s.logs then s.logs[p] else []
  }

  function CommittedOf(s: State, p: Partition): nat {
    if p in s.committed then s.committed[p] else 0
  }

  function PutRow(rows: map<EventId, Row>, e: EventId, row: Option<Row>): map<EventId, Row> {
    match row
    case None => rows - {e}
    case Some(r) => rows[e := r]
  }

  /** Between a successful claim and the end of the delivery. */
  predicate Holds(pc: Pc) {
    match pc
    case ClaimRead => true
    case Handle => true
    case MarkDone => true
    case CommitDone => true
    case CatchRead => true
    case WriteRetrying(_) => true
    case SendDlq(_) => true
    case WriteDlqSent(_) => true
    case CommitDlq(_) => true
    case WriteFailed(_) => true
    case _ => false
  }

  predicate Holding(w: Worker, e: EventId) {
    w.task.Some? && w.task.value.event == e && Holds(w.task.value.pc)
  }

  ghost predicate Unheld(s: State, e: EventId) {
    forall w :: w in s.workers ==> !Holding(s.workers[w], e)
  }

  /** The worker has published the dead-letter record, and may yet write FAILED. */
  predicate Exposed(w: Worker, e: EventId) {
    w.task.Some? && w.task.value.event == e && (w.task.value.pc.CommitDlq? || w.task.value.pc.WriteFailed?)
  }

  predicate AnyExposed(s: State, e: EventId) {
    exists w :: w in s.workers && Exposed(s.workers[w], e)
  }

  /** `PrepareForReplay` is an operator's action, taken at any time. */
  ghost predicate Enabled(s: State, a: Action) {
    match a
    case Append(_, _) => true
    case Join(w, _) => w !in s.workers
    case Crash(w) => w in s.workers
    case Deliver(w) =>
      w in s.workers && s.workers[w].task.None? && s.workers[w].pos < |LogOf(s, s.workers[w].partition)|
    case Advance(w, _) => w in s.workers && s.workers[w].task.Some?
    case PrepareForReplay(_) => true
  }

  predicate CommitsAt(pc: Pc) {
    pc.CommitSkip? || pc.CommitDone? || pc.CommitDlq?
  }

  function Tally(h: History, pc: Pc, await: Await, next: Pc): History {
    h.(successes := h.successes + (if pc.Handle? && await.Returns? then 1 else 0),
       late := h.late + (if (pc.MarkDone? || pc.CommitDone?) && next.CatchRead? then 1 else 0),
       records := h.records + (if pc.SendDlq? && TookEffect(await) then 1 else 0),
       failures := h.failures + (if next.CatchRead? then 1 else 0),
       runs := h.runs + (if next.Handle? then 1 else 0),
       forwards := h.forwards + (if next.WriteFailed? then 1 else 0))
  }

  function Resumed(w: Worker, pc: Pc): Worker {
    if w.task.None? then w
    else if pc.Finished? then w.(pos := w.pos + 1, task := None)
    else if pc.Thrown? then w.(task := None)
    else w.(task := Some(w.task.value.(pc := pc)))
  }

  function Advanced(limit: nat, s: State, w: WorkerId, await: Await): State
    requires w in s.workers && s.workers[w].task.Some?
  {
    var worker := s.workers[w];
    var e, pc := worker.task.value.event, worker.task.value.pc;
    var local := Step(limit, pc, RowOf(s, e), await);
    s.(rows := PutRow(s.rows, e, local.row),
       history := s.history[e := Tally(HistoryOf(s, e), pc, await, local.pc)],
       workers := s.workers[w := Resumed(worker, local.pc)],
       committed := if CommitsAt(pc) && TookEffect(await)
         then s.committed[worker.partition := worker.pos + 1] else s.committed)
  }

  function Delivered(s: State, w: WorkerId): State
    requires w in s.workers && s.workers[w].pos < |LogOf(s, s.workers[w].partition)|
  {
    var worker := s.workers[w];
    match LogOf(s, worker.partition)[worker.pos]
    case Tombstone => s.(workers := s.workers[w := worker.(pos := worker.pos + 1)])
    case Poison => s
    case Event(e) => s.(workers := s.workers[w := worker.(task := Some(Task(e, Look)))])
  }

  function NewEpoch(h: History, early: bool): History {
    h.(failures := 0, runs := 0, forwards := 0, early := h.early + if early then 1 else 0)
  }

  /** A reset that finds DLQ_SENT starts a new epoch for the event. */
  function Replayed(s: State, e: EventId): State {
    var row := RowOf(s, e);
    if row.Some? && row.value.status.DlqSent? then
      s.(rows := PutRow(s.rows, e, ResetForReplay(row)),
         history := s.history[e := NewEpoch(HistoryOf(s, e), AnyExposed(s, e))])
    else s
  }

  ghost function Apply(limit: nat, s: State, a: Action): State
    requires Enabled(s, a)
  {
    match a
    case Append(p, m) => s.(logs := s.logs[p := LogOf(s, p) + [m]])
    case Join(w, p) => s.(workers := s.workers[w := Worker(p, CommittedOf(s, p), None)])
    case Crash(w) => s.(workers := s.workers - {w})
    case Deliver(w) => Delivered(s, w)
    case Advance(w, await) => Advanced(limit, s, w, await)
    case PrepareForReplay(e) => Replayed(s, e)
  }

  ghost predicate Legal(limit: nat, s: State, acts: seq<Action>)
    decreases |acts|
  {
    |acts| == 0 || (Enabled(s, acts[0]) && Legal(limit, Apply(limit, s, acts[0]), acts[1..]))
  }

  ghost function Exec(limit: nat, s: State, acts: seq<Action>): State
    requires Legal(limit, s, acts)
    decreases |acts|
  {
    if |acts| == 0 then s else Exec(limit, Apply(limit, s, acts[0]), acts[1..])
  }

  ghost predicate Reachable(limit: nat, s: State) {
    exists acts :: Legal(limit, Initial, acts) && s == Exec(limit, Initial, acts)
  }

  lemma {:induction false} ExecExtend(limit: nat, s: State, acts: seq<Action>, a: Action)
    requires Legal(limit, s, acts) && Enabled(Exec(limit, s, acts), a)
    ensures Legal(limit, s, acts + [a]) && Exec(limit, s, acts + [a]) == Apply(limit, Exec(limit, s, acts), a)
    decreases |acts|
  {
    if |acts| > 0 {
      ExecExtend(limit, Apply(limit, s, acts[0]), acts[1..], a);
      assert (acts + [a])[1..] == acts[1..] + [a];
    } else {
      assert acts + [a] == [a];
      assert [a][1..] == [];
    }
  }

  lemma ReachableStep(limit: nat, s: State, a: Action)
    requires Reachable(limit, s) && Enabled(s, a)
    ensures Reachable(limit, Apply(limit, s, a))
  {
    var acts :| Legal(limit, Initial, acts) && s == Exec(limit, Initial, acts);
    ExecExtend(limit, Initial, acts, a);
  }

  lemma {:induction false} ReachableRun(limit: nat, s: State, acts: seq<Action>)
    requires Reachable(limit, s) && Legal(limit, s, acts)
    ensures Reachable(limit, Exec(limit, s, acts))
    decreases |acts|
  {
    hide Reachable, Apply;
    if |acts| > 0 {
      ReachableStep(limit, s, acts[0]);
      ReachableRun(limit, Apply(limit, s, acts[0]), acts[1..]);
    }
  }

  /* ---- What rows and workers claim is true ---- */

  /** The event was handled successfully, or a dead-letter record for it was published. */
  predicate Accounted(h: History) {
    h.successes >= 1 || h.records >= 1
  }

  predicate RowTrue(row: Option<Row>, h: History) {
    && (row.Some? && row.value.status.Processed? ==> h.successes >= 1)
    && (row.Some? && row.value.status.DlqSent? ==> h.records >= 1)
  }

  predicate PcTrue(pc: Pc, h: History) {
    && (pc.MarkDone? || pc.CommitDone? ==> h.successes >= 1)
    && (pc.WriteDlqSent? || pc.CommitDlq? ==> h.records >= 1)
    && (pc.CommitSkip? ==> Accounted(h))
  }

  /** An await of any worker keeps rows and workers truthful, and one that ends a delivery well, or
      commits, has its message accounted for. */
  lemma TrueStep(limit: nat, pc: Pc, row: Option<Row>, h: History, await: Await)
    requires !Ended(pc) && RowTrue(row, h) && PcTrue(pc, h)
    ensures var local := Step(limit, pc, row, await);
      var h' := Tally(h, pc, await, local.pc);
      && RowTrue(local.row, h') && PcTrue(local.pc, h')
      && h.successes <= h'.successes && h.records <= h'.records && h'.early == h.early
      && (local.pc.Finished? || (CommitsAt(pc) && TookEffect(await)) ==> Accounted(h'))
  {
  }

  /* ---- The invariant ---- */

  /** The row is truthful, and only a dead-lettered event was ever reset early. */
  predicate EventTrue(s: State, e: EventId) {
    RowTrue(RowOf(s, e), HistoryOf(s, e)) && (HistoryOf(s, e).early > 0 ==> HistoryOf(s, e).records >= 1)
  }

  /** A worker knows its event from the log, and is where it is for a reason. */
  predicate WorkerOk(s: State, w: Worker) {
    w.task.Some? ==>
      && w.pos < |LogOf(s, w.partition)|
      && LogOf(s, w.partition)[w.pos] == Event(w.task.value.event)
      && !Ended(w.task.value.pc)
      && PcTrue(w.task.value.pc, HistoryOf(s, w.task.value.event))
  }

  /** Nothing below `n` has been passed over. */
  predicate Covered(s: State, p: Partition, n: nat) {
    n <= |LogOf(s, p)| && forall i :: 0 <= i < n ==>
      match LogOf(s, p)[i]
      case Tombstone => true
      case Poison => false
      case Event(e) => Accounted(HistoryOf(s, e))
  }

  ghost predicate Inv(s: State) {
    && (forall e :: EventTrue(s, e))
    && (forall w :: w in s.workers ==> WorkerOk(s, s.workers[w]))
    && (forall w :: w in s.workers ==> Covered(s, s.workers[w].partition, s.workers[w].pos))
    && (forall p :: p in s.committed ==> Covered(s, p, s.committed[p]))
  }

  predicate HistoryGrown(h: History, h': History) {
    h.successes <= h'.successes && h.records <= h'.records
  }

  /** Successes and records are never undone, and logs only grow. */
  ghost predicate Grown(s: State, s': State) {
    && (forall e :: HistoryGrown(HistoryOf(s, e), HistoryOf(s', e)))
    && (forall p :: LogOf(s, p) <= LogOf(s', p))
  }

  lemma CoveredKept(s: State, s': State, p: Partition, n: nat)
    requires Grown(s, s') && Covered(s, p, n)
    ensures Covered(s', p, n)
  {
    var before, after := LogOf(s, p), LogOf(s', p);
    forall i | 0 <= i < n ensures after[i] == before[i] {
    }
    assert forall e :: Accounted(HistoryOf(s, e)) ==> HistoryGrown(HistoryOf(s, e), HistoryOf(s', e));
  }

  lemma WorkerKept(s: State, s': State, w: Worker)
    requires Grown(s, s') && WorkerOk(s, w)
    ensures WorkerOk(s', w)
  {
    assert LogOf(s, w.partition) <= LogOf(s', w.partition);
    if w.task.Some? {
      assert HistoryGrown(HistoryOf(s, w.task.value.event), HistoryOf(s', w.task.value.event));
    }
  }

  /** A step changes the row and history of its worker's event, its worker, and perhaps the offset. */
  lemma OthersStay(limit: nat, s: State, w: WorkerId, await: Await)
    requires w in s.workers && s.workers[w].task.Some?
    ensures var s' := Advanced(limit, s, w, await);
      var e, pc := s.workers[w].task.value.event, s.workers[w].task.value.pc;
      var local := Step(limit, pc, RowOf(s, e), await);
      && s'.workers.Keys == s.workers.Keys && s'.logs == s.logs
      && (forall v :: v in s.workers && v != w ==> s'.workers[v] == s.workers[v])
      && s'.workers[w] == Resumed(s.workers[w], local.pc)
      && RowOf(s', e) == local.row && HistoryOf(s', e) == Tally(HistoryOf(s, e), pc, await, local.pc)
      && (forall x :: x != e ==> RowOf(s', x) == RowOf(s, x) && HistoryOf(s', x) == HistoryOf(s, x))
      && s'.committed == if CommitsAt(pc) && TookEffect(await)
           then s.committed[s.workers[w].partition := s.workers[w].pos + 1] else s.committed
  {
    hide Step, Tally;
  }

  /** What a worker's step owes its own event. */
  ghost predicate GoodMove(limit: nat, s: State, w: WorkerId, await: Await)
    requires w in s.workers && s.workers[w].task.Some?
  {
    var e, pc := s.workers[w].task.value.event, s.workers[w].task.value.pc;
    var next := Step(limit, pc, RowOf(s, e), await).pc;
    var s' := Advanced(limit, s, w, await);
    && EventTrue(s', e) && PcTrue(next, HistoryOf(s', e))
    && HistoryGrown(HistoryOf(s, e), HistoryOf(s', e))
    && (next.Finished? || (CommitsAt(pc) && TookEffect(await)) ==> Accounted(HistoryOf(s', e)))
  }

  lemma MoverOk(limit: nat, s: State, w: WorkerId, await: Await)
    requires Inv(s) && w in s.workers && s.workers[w].task.Some?
    ensures GoodMove(limit, s, w, await)
    ensures Grown(s, Advanced(limit, s, w, await))
  {
    var e, pc := s.workers[w].task.value.event, s.workers[w].task.value.pc;
    assert EventTrue(s, e) && WorkerOk(s, s.workers[w]);
    TrueStep(limit, pc, RowOf(s, e), HistoryOf(s, e), await);
    OthersStay(limit, s, w, await);
    hide Step, Tally, Advanced, Inv, Covered, RowTrue, PcTrue, Accounted;
  }

  lemma InvAdvance(limit: nat, s: State, w: WorkerId, await: Await)
    requires Inv(s) && w in s.workers && s.workers[w].task.Some?
    ensures Inv(Advanced(limit, s, w, await))
  {
    var e := s.workers[w].task.value.event;
    var s' := Advanced(limit, s, w, await);
    MoverOk(limit, s, w, await);
    OthersStay(limit, s, w, await);
    PlacesKept(limit, s, w, await);
    hide Step, Tally, WorkerOk, Covered, Advanced, RowTrue, PcTrue, Accounted;
    forall x ensures EventTrue(s', x) {
      assert EventTrue(s, x);
    }
  }

  lemma PlacesKept(limit: nat, s: State, w: WorkerId, await: Await)
    requires Inv(s) && w in s.workers && s.workers[w].task.Some?
    requires GoodMove(limit, s, w, await) && Grown(s, Advanced(limit, s, w, await))
    ensures var s' := Advanced(limit, s, w, await);
      && (forall v :: v in s'.workers ==>
            WorkerOk(s', s'.workers[v]) && Covered(s', s'.workers[v].partition, s'.workers[v].pos))
      && (forall p :: p in s'.committed ==> Covered(s', p, s'.committed[p]))
  {
    var worker := s.workers[w];
    var s' := Advanced(limit, s, w, await);
    OthersStay(limit, s, w, await);
    OnePast(limit, s, w, await);
    hide Step, Tally, Advanced, Accounted, RowTrue, PcTrue, EventTrue;
    forall v | v in s'.workers
      ensures WorkerOk(s', s'.workers[v]) && Covered(s', s'.workers[v].partition, s'.workers[v].pos)
    {
      WorkerKept(s, s', s.workers[v]);
      CoveredKept(s, s', s.workers[v].partition, s.workers[v].pos);
    }
    forall p | p in s'.committed ensures Covered(s', p, s'.committed[p]) {
      if p in s.committed {
        CoveredKept(s, s', p, s.committed[p]);
      }
    }
  }

  /** A delivery that ends well, or commits, has its message accounted for. */
  lemma OnePast(limit: nat, s: State, w: WorkerId, await: Await)
    requires Inv(s) && w in s.workers && s.workers[w].task.Some?
    requires GoodMove(limit, s, w, await) && Grown(s, Advanced(limit, s, w, await))
    ensures var worker := s.workers[w];
      var pc := worker.task.value.pc;
      var next := Step(limit, pc, RowOf(s, worker.task.value.event), await).pc;
      next.Finished? || (CommitsAt(pc) && TookEffect(await)) ==>
        Covered(Advanced(limit, s, w, await), worker.partition, worker.pos + 1)
  {
    hide Step, Tally, EventTrue, RowTrue, PcTrue;
    var worker := s.workers[w];
    var s' := Advanced(limit, s, w, await);
    assert WorkerOk(s, worker);
    CoveredKept(s, s', worker.partition, worker.pos);
    assert LogOf(s', worker.partition) == LogOf(s, worker.partition);
  }

  /** Steps that leave rows and histories alone. */
  lemma InvElsewhere(s: State, s': State)
    requires Inv(s) && s'.rows == s.rows && s'.history == s.history && s'.committed == s.committed && Grown(s, s')
    requires forall w :: w in s'.workers ==>
      WorkerOk(s', s'.workers[w]) && Covered(s', s'.workers[w].partition, s'.workers[w].pos)
    ensures Inv(s')
  {
    hide WorkerOk, Covered, RowTrue;
    forall e ensures EventTrue(s', e) {
      assert EventTrue(s, e);
    }
    forall p | p in s'.committed ensures Covered(s', p, s'.committed[p]) {
      CoveredKept(s, s', p, s.committed[p]);
    }
  }

  lemma InvAppendJoin(limit: nat, s: State, a: Action)
    requires Inv(s) && Enabled(s, a) && (a.Append? || a.Join?)
    ensures Inv(Apply(limit, s, a))
  {
    var s' := Apply(limit, s, a);
    assert Grown(s, s');
    hide EventTrue;
    forall w | w in s'.workers
      ensures WorkerOk(s', s'.workers[w]) && Covered(s', s'.workers[w].partition, s'.workers[w].pos)
    {
      if w in s.workers {
        WorkerKept(s, s', s.workers[w]);
        CoveredKept(s, s', s.workers[w].partition, s.workers[w].pos);
      }
    }
    InvElsewhere(s, s');
  }

  lemma InvMoved(s: State, w: WorkerId, to: Worker)
    requires Inv(s) && w in s.workers && s.workers[w].task.None?
    requires WorkerOk(s, to) && Covered(s, to.partition, to.pos)
    ensures Inv(s.(workers := s.workers[w := to]))
  {
    hide EventTrue, WorkerOk, Covered;
    var s' := s.(workers := s.workers[w := to]);
    forall v | v in s'.workers
      ensures WorkerOk(s', s'.workers[v]) && Covered(s', s'.workers[v].partition, s'.workers[v].pos)
    {
      WorkerKept(s, s', s'.workers[v]);
      CoveredKept(s, s', s'.workers[v].partition, s'.workers[v].pos);
    }
    InvElsewhere(s, s');
  }

  lemma InvDeliver(s: State, w: WorkerId)
    requires Inv(s) && Enabled(s, Deliver(w))
    ensures Inv(Delivered(s, w))
  {
    hide EventTrue;
    var worker := s.workers[w];
    assert Covered(s, worker.partition, worker.pos);
    match LogOf(s, worker.partition)[worker.pos]
    case Tombstone => InvMoved(s, w, worker.(pos := worker.pos + 1));
    case Poison =>
    case Event(e) => InvMoved(s, w, worker.(task := Some(Task(e, Look))));
  }

  lemma InvCrash(s: State, w: WorkerId)
    requires Inv(s) && w in s.workers
    ensures Inv(s.(workers := s.workers - {w}))
  {
    hide EventTrue, WorkerOk, Covered;
    var s' := s.(workers := s.workers - {w});
    assert Grown(s, s');
    forall v | v in s'.workers
      ensures WorkerOk(s', s'.workers[v]) && Covered(s', s'.workers[v].partition, s'.workers[v].pos)
    {
      WorkerKept(s, s', s.workers[v]);
      CoveredKept(s, s', s.workers[v].partition, s.workers[v].pos);
    }
    InvElsewhere(s, s');
  }

  lemma InvReplay(s: State, e: EventId)
    requires Inv(s)
    ensures Inv(Replayed(s, e))
  {
    hide AnyExposed;
    var s' := Replayed(s, e);
    assert Grown(s, s');
    forall x ensures EventTrue(s', x) {
      assert EventTrue(s, x);
    }
    forall v | v in s'.workers
      ensures WorkerOk(s', s'.workers[v]) && Covered(s', s'.workers[v].partition, s'.workers[v].pos)
    {
      WorkerKept(s, s', s.workers[v]);
      CoveredKept(s, s', s.workers[v].partition, s.workers[v].pos);
    }
    forall p | p in s'.committed ensures Covered(s', p, s'.committed[p]) {
      CoveredKept(s, s', p, s.committed[p]);
    }
  }

  lemma InvStep(limit: nat, s: State, a: Action)
    requires Inv(s) && Enabled(s, a)
    ensures Inv(Apply(limit, s, a))
  {
    hide Inv, Advanced, Delivered, Replayed;
    match a
    case Append(_, _) => InvAppendJoin(limit, s, a);
    case Join(_, _) => InvAppendJoin(limit, s, a);
    case Crash(w) => InvCrash(s, w);
    case Deliver(w) => InvDeliver(s, w);
    case Advance(w, await) => InvAdvance(limit, s, w, await);
    case PrepareForReplay(e) => InvReplay(s, e);
  }

  lemma {:induction false} InvRun(limit: nat, s: State, acts: seq<Action>)
    requires Inv(s) && Legal(limit, s, acts)
    ensures Inv(Exec(limit, s, acts))
    decreases |acts|
  {
    if |acts| > 0 {
      InvStep(limit, s, acts[0]);
      InvRun(limit, Apply(limit, s, acts[0]), acts[1..]);
    }
  }

  lemma ReachableInv(limit: nat, s: State)
    requires Reachable(limit, s)
    ensures Inv(s)
  {
    var acts :| Legal(limit, Initial, acts) && s == Exec(limit, Initial, acts);
    InvRun(limit, Initial, acts);
  }

  /* ---- What it gives ---- */

  /** No silent loss: every message below a committed offset is a tombstone, or its event's handler has
      succeeded, or a dead-letter record for it has been published. */
  lemma NoSilentLoss(limit: nat, s: State, p: Partition, i: nat)
    requires Reachable(limit, s) && p in s.committed && i < s.committed[p]
    ensures i < |LogOf(s, p)|
    ensures match LogOf(s, p)[i]
      case Tombstone => true
      case Poison => false
      case Event(e) => Accounted(HistoryOf(s, e))
  {
    ReachableInv(limit, s);
    assert Covered(s, p, s.committed[p]);
  }

  lemma PastMeansCommitted(limit: nat, s: State, w: WorkerId, await: Await)
    requires w in s.workers && s.workers[w].task.Some? && !Ended(s.workers[w].task.value.pc)
    ensures var worker, s' := s.workers[w], Advanced(limit, s, w, await);
      && worker.pos <= s'.workers[w].pos <= worker.pos + 1
      && (s'.workers[w].pos > worker.pos ==> CommittedOf(s', worker.partition) == s'.workers[w].pos)
      && (s'.workers[w].pos > worker.pos ==> s'.workers[w].task == None)
      && (CommittedOf(s', worker.partition) != CommittedOf(s, worker.partition) ==>
            && OperationAt(worker.task.value.pc) == CommitOffset && TookEffect(await)
            && CommittedOf(s', worker.partition) == worker.pos + 1)
      && (forall p :: p != worker.partition ==> CommittedOf(s', p) == CommittedOf(s, p))
  {
    hide Tally;
  }

  /** A worker that gets past a message has committed its offset: whenever a worker's step moves it on, the
      committed offset of its partition is its new position; and no other step changes an offset, but one
      whose commit took effect without returning. */
  lemma PastIsCommitted(limit: nat, s: State, a: Action)
    requires Reachable(limit, s) && Enabled(s, a)
    ensures var s' := Apply(limit, s, a);
      && (forall w :: a.Advance? && a.worker == w && s'.workers[w].pos != s.workers[w].pos ==>
            && s'.workers[w].pos == s.workers[w].pos + 1 && s'.workers[w].task == None
            && CommittedOf(s', s.workers[w].partition) == s'.workers[w].pos)
      && (forall p :: CommittedOf(s', p) != CommittedOf(s, p) ==>
            && a.Advance? && OperationAt(s.workers[a.worker].task.value.pc) == CommitOffset && TookEffect(a.await)
            && p == s.workers[a.worker].partition && CommittedOf(s', p) == s.workers[a.worker].pos + 1)
  {
    ReachableInv(limit, s);
    if a.Advance? {
      assert WorkerOk(s, s.workers[a.worker]);
      PastMeansCommitted(limit, s, a.worker, a.await);
    } else {
      OffsetsStay(limit, s, a);
    }
    hide Inv, Advanced, Delivered, Replayed, WorkerOk;
  }

  lemma OffsetsStay(limit: nat, s: State, a: Action)
    requires Enabled(s, a) && !a.Advance?
    ensures Apply(limit, s, a).committed == s.committed
  {
    hide AnyExposed, Step;
  }

  /** A record that says PROCESSED or DLQ_SENT tells the truth, even while workers are still on it. */
  lemma SettledMeansAccounted(limit: nat, s: State, e: EventId)
    requires Reachable(limit, s) && e in s.rows
    ensures s.rows[e].status.Processed? ==> HistoryOf(s, e).successes >= 1
    ensures s.rows[e].status.DlqSent? ==> HistoryOf(s, e).records >= 1
  {
    ReachableInv(limit, s);
    assert EventTrue(s, e);
  }

  /** Only an event whose dead-letter record was published is ever reset. */
  lemma ResetMeansRecorded(limit: nat, s: State, e: EventId)
    requires Reachable(limit, s) && HistoryOf(s, e).early > 0
    ensures HistoryOf(s, e).records >= 1
  {
    ReachableInv(limit, s);
    assert EventTrue(s, e);
  }

  ghost predicate SettledForGood(s: State, e: EventId) {
    e in s.rows && (s.rows[e].status.Processed? || s.rows[e].status.DlqSent?) && Unheld(s, e)
  }

  predicate Resets(a: Action, e: EventId) {
    a.PrepareForReplay? && a.event == e
  }

  lemma SettledStep(limit: nat, s: State, a: Action, e: EventId)
    requires Enabled(s, a) && SettledForGood(s, e) && (a.Advance? ==> WorkerOk(s, s.workers[a.worker]))
    requires s.rows[e].status.Processed? || !Resets(a, e)
    ensures var s' := Apply(limit, s, a);
      SettledForGood(s', e) && s'.rows[e] == s.rows[e] && HistoryOf(s', e) == HistoryOf(s, e)
  {
    if a.Advance? {
      SettledAdvance(limit, s, a.worker, a.await, e);
    }
  }

  lemma SettledAdvance(limit: nat, s: State, w: WorkerId, await: Await, e: EventId)
    requires w in s.workers && s.workers[w].task.Some? && WorkerOk(s, s.workers[w]) && SettledForGood(s, e)
    ensures var s' := Advanced(limit, s, w, await);
      SettledForGood(s', e) && s'.rows[e] == s.rows[e] && HistoryOf(s', e) == HistoryOf(s, e)
  {
    var s' := Advanced(limit, s, w, await);
    OthersStay(limit, s, w, await);
    assert !Holding(s.workers[w], e);
    assert !Holding(s'.workers[w], e);
    assert forall v :: v in s.workers ==> !Holding(s'.workers[v], e);
  }

  /** A PROCESSED record nobody holds is absorbing: under every later delivery, collision, crash and
      replay reset it stays as it is, nobody holds it again, and its handler never runs again. So is a
      DLQ_SENT record nobody holds, until it is reset. */
  lemma {:induction false} SettledIsFinal(limit: nat, s: State, acts: seq<Action>, e: EventId)
    requires Inv(s) && Legal(limit, s, acts) && SettledForGood(s, e)
    requires s.rows[e].status.Processed? || forall i :: 0 <= i < |acts| ==> !Resets(acts[i], e)
    ensures var s' := Exec(limit, s, acts);
      SettledForGood(s', e) && s'.rows[e] == s.rows[e] && HistoryOf(s', e) == HistoryOf(s, e)
    decreases |acts|
  {
    hide Inv;
    if |acts| > 0 {
      InvStep(limit, s, acts[0]);
      SettledOnce(limit, s, acts[0], e);
      SettledIsFinal(limit, Apply(limit, s, acts[0]), acts[1..], e);
    }
  }

  lemma SettledOnce(limit: nat, s: State, a: Action, e: EventId)
    requires Inv(s) && Enabled(s, a) && SettledForGood(s, e)
    requires s.rows[e].status.Processed? || !Resets(a, e)
    ensures var s' := Apply(limit, s, a);
      SettledForGood(s', e) && s'.rows[e] == s.rows[e] && HistoryOf(s', e) == HistoryOf(s, e)
  {
    SettledStep(limit, s, a, e);
  }
}
