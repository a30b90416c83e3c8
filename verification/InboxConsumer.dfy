/** One delivery of one event to one worker (packages/common/src/messaging/consumer.ts, eachMessage).

    `Step` is the delivery cut at its awaits: one shared-store operation, handler run, broker call or
    offset commit per step. `Delivery.RunConsumer` is the same code in its own shape, and is proved to
    take exactly those steps whatever other workers do between them. */
module InboxConsumer {
  import opened Awaits
  import opened Wrappers
  import opened InboxRepository

  /** The await a delivery is about to perform, or how it ended. */
  datatype Pc =
    | Look                  // read the record
    | Insert                // record as RECEIVED
    | Collide               // re-read after a unique-key collision
    | Claim                 // compare-and-set to PROCESSING
    | ClaimRead             // read back what was claimed
    | LostRead              // re-read after losing the claim
    | Handle                // run the business handler
    | MarkDone              // write PROCESSED
    | CommitDone            // commit the offset after PROCESSED
    | CatchRead             // the catch block reads the retry count
    | WriteRetrying(n: nat) // write RETRYING with count n
    | SendDlq(n: nat)       // publish the dead-letter record
    | WriteDlqSent(n: nat)  // write DLQ_SENT with count n
    | CommitDlq(n: nat)     // commit the offset after DLQ_SENT
    | WriteFailed(n: nat)   // the inner catch block writes FAILED with count n
    | CommitSkip            // commit the offset of a duplicate
    | Finished              // eachMessage returned
    | Thrown                // eachMessage threw

  predicate Ended(pc: Pc) {
    pc.Finished? || pc.Thrown?
  }

  /** Where an existing record sends a delivery: skip it, refuse it, or go on to claim it. */
  function Dispatch(status: Status): Pc {
    match status
    case Processed => CommitSkip
    case DlqSent => CommitSkip
    case Processing => Thrown
    case _ => Claim
  }

  /** The limit the steps below go by: a configured limit below 0 allows no retry, as 0 does. */
  function RetryLimit(configured: int): nat {
    if configured < 0 then 0 else configured
  }

  datatype Local = Local(pc: Pc, row: Option<Row>)

  /** One await: what follows it, and the row it leaves. */
  function Step(limit: nat, pc: Pc, found: Option<Row>, await: Await): Local {
    var ok := await.Returns?;
    var written := (w: Option<Row>) => if TookEffect(await) then w else found;
    match pc
    case Look =>
      if !ok then Local(Thrown, found)
      else Local(if found.None? then Insert else Dispatch(found.value.status), found)
    case Insert =>
      Local(if !ok then Thrown else if found.Some? then Collide else Claim, written(Inserted(found)))
    case Collide =>
      if !ok then Local(Thrown, found)
      else Local(if found.None? then Claim else Dispatch(found.value.status), found)
    case Claim =>
      if !ok then Local(Thrown, written(Claimed(found)))
      else Local(if found.Some? && Claimable(found.value.status) then ClaimRead else LostRead, Claimed(found))
    case ClaimRead =>
      Local(if !ok then Thrown else if found.None? then LostRead else Handle, found)
    case LostRead =>
      var settled := found.Some? && (found.value.status.Processed? || found.value.status.DlqSent?);
      Local(if ok && settled then CommitSkip else Thrown, found)
    case CommitSkip => Local(if ok then Finished else Thrown, found)
    case Handle => Local(if ok then MarkDone else CatchRead, found)
    case MarkDone =>
      Local(if ok && found.Some? then CommitDone else CatchRead, written(Written(found, Processed, None)))
    case CommitDone => Local(if ok then Finished else CatchRead, found)
    case CatchRead =>
      if !ok then Local(Thrown, found)
      else
        var n := (if found.Some? then found.value.retryCount else 0) + 1;
        Local(if n <= limit then WriteRetrying(n) else SendDlq(n), found)
    case WriteRetrying(n) => Local(Thrown, written(Written(found, Retrying, Some(n))))
    case SendDlq(n) => Local(if ok then WriteDlqSent(n) else WriteFailed(n), found)
    case WriteDlqSent(n) =>
      Local(if ok && found.Some? then CommitDlq(n) else WriteFailed(n), written(Written(found, DlqSent, Some(n))))
    case CommitDlq(n) => Local(if ok then Finished else WriteFailed(n), found)
    case WriteFailed(n) => Local(Thrown, written(Written(found, Failed, Some(n))))
    case Finished => Local(pc, found)
    case Thrown => Local(pc, found)
  }

  /** A bound on the awaits still to come: the delivery's control flow has no cycle. */
  function Remaining(pc: Pc): nat {
    match pc
    case Look => 14 case Insert => 13 case Collide => 12 case Claim => 11 case ClaimRead => 10
    case LostRead => 9 case CommitSkip => 8 case Handle => 9 case MarkDone => 8 case CommitDone => 7
    case CatchRead => 6 case WriteRetrying(_) => 1 case SendDlq(_) => 5 case WriteDlqSent(_) => 4
    case CommitDlq(_) => 3 case WriteFailed(_) => 2 case Finished => 0 case Thrown => 0
  }

  lemma StepsRunOut(limit: nat, pc: Pc, found: Option<Row>, await: Await)
    requires !Ended(pc)
    ensures Remaining(Step(limit, pc, found, await).pc) < Remaining(pc)
  {
  }

  /** An await that has been performed, and the row after it. */
  datatype Taken = Taken(pc: Pc, row: Option<Row>)

  datatype Path = Path(taken: seq<Taken>, ending: Pc)

  /** Everything a delivery standing at `pc` still does, when its n-th await from now runs into
      `world(clock + n)`. */
  ghost function Rest(limit: nat, pc: Pc, world: nat -> Turn, clock: nat): Path
    decreases Remaining(pc)
  {
    if Ended(pc) then Path([], pc)
    else
      var turn := world(clock);
      var local := Step(limit, pc, turn.found, turn.await);
      StepsRunOut(limit, pc, turn.found, turn.await);
      var rest := Rest(limit, local.pc, world, clock + 1);
      Path([Taken(pc, local.row)] + rest.taken, rest.ending)
  }

  /** The path `start` is what has been taken so far followed by what `pc` still does. */
  ghost predicate Reached(limit: nat, start: Path, taken: seq<Taken>, pc: Pc, world: nat -> Turn, clock: nat) {
    var rest := Rest(limit, pc, world, clock);
    start.taken == taken + rest.taken && start.ending == rest.ending
  }

  /** What the await at `pc` asks for. */
  function OperationAt(pc: Pc): Operation {
    match pc
    case Insert => InsertReceived
    case Claim => ClaimProcessing
    case Handle => RunHandler
    case MarkDone => Write(Processed, None)
    case CommitDone => CommitOffset
    case WriteRetrying(n) => Write(Retrying, Some(n))
    case SendDlq(_) => SendDeadLetter
    case WriteDlqSent(n) => Write(DlqSent, Some(n))
    case CommitDlq(_) => CommitOffset
    case WriteFailed(n) => Write(Failed, Some(n))
    case CommitSkip => CommitOffset
    case _ => Read
  }

  /** The repository saw each await ask for what its step asks for, and leave the same row. */
  ghost predicate Recorded(taken: seq<Taken>, left: seq<Done>) {
    |taken| == |left| && forall i :: 0 <= i < |left| ==> left[i] == Done(OperationAt(taken[i].pc), taken[i].row)
  }

  lemma ReachNext(limit: nat, start: Path, taken: seq<Taken>, pc: Pc, world: nat -> Turn, clock: nat)
    requires !Ended(pc) && Reached(limit, start, taken, pc, world, clock)
    ensures var turn := world(clock);
      var local := Step(limit, pc, turn.found, turn.await);
      Reached(limit, start, taken + [Taken(pc, local.row)], local.pc, world, clock + 1)
  {
    var turn := world(clock);
    var local := Step(limit, pc, turn.found, turn.await);
    var rest := Rest(limit, local.pc, world, clock + 1);
    assert Rest(limit, pc, world, clock) == Path([Taken(pc, local.row)] + rest.taken, rest.ending);
    assert taken + ([Taken(pc, local.row)] + rest.taken) == taken + [Taken(pc, local.row)] + rest.taken;
  }

  /* ---- What a delivery comes to, in terms of what it asked for and what it ran into ---- */

  predicate Settled(row: Option<Row>) {
    row.Some? && (row.value.status == Processed || row.value.status == DlqSent)
  }

  /** The i-th of the awaits in `left` ran into this. */
  function Met(world: nat -> Turn, clock: nat, i: nat): Turn {
    world(clock + i)
  }

  /** The delivery ends well exactly when its last await is an offset commit that returned. */
  ghost predicate EndsWithCommit(left: seq<Done>, world: nat -> Turn, clock: nat, end: Pc) {
    end.Finished? <==>
      |left| > 0 && left[|left| - 1].operation == CommitOffset && Met(world, clock, |left| - 1).await == Returns
  }

  function Count(row: Option<Row>): nat {
    if row.Some? then row.value.retryCount else 0
  }

  /** Each await of consequence comes right after what entitles the delivery to it: the claim after a record
      that was inserted, or read as claimable or gone; the handler after a claim that was won and read
      back; PROCESSED after a handler that returned; RETRYING or a dead-letter record after the count was
      read, on its side of the limit; DLQ_SENT after a record that was published; FAILED after that, or
      what follows it, has not gone well; and a commit after PROCESSED or DLQ_SENT was written or read. */
  ghost predicate Entitled(limit: nat, left: seq<Done>, world: nat -> Turn, clock: nat, i: nat)
    requires i < |left|
  {
    var before := if i > 0 then left[i - 1].operation else Reset;
    var returned := i > 0 && Met(world, clock, i - 1).await == Returns;
    match left[i].operation
    case InsertReceived => returned && i == 1 && before == Read && left[0].row.None?
    case ClaimProcessing =>
      && returned
      && (|| (before == Read && (left[i - 1].row.Some? ==> Claimable(left[i - 1].row.value.status)))
          || (before == InsertReceived && Met(world, clock, i - 1).found.None?))
    case RunHandler =>
      && returned && before == Read && left[i - 1].row.Some?
      && i > 1 && left[i - 2].operation == ClaimProcessing && Met(world, clock, i - 2).await == Returns
      && Met(world, clock, i - 2).found.Some?
      && Met(world, clock, i - 2).found.value.status in {Received, Retrying, Failed}
    case SendDeadLetter => returned && before == Read && Count(left[i - 1].row) + 1 > limit
    case CommitOffset =>
      && returned
      && (|| (before == Read && Settled(left[i - 1].row))
          || before == Write(Processed, None)
          || (before.Write? && before.status == DlqSent))
    case Write(Processed, n) => n == None && returned && before == RunHandler
    case Write(Retrying, n) =>
      returned && before == Read && n == Some(Count(left[i - 1].row) + 1) && n.value <= limit
    case Write(DlqSent, n) =>
      && returned && before == SendDeadLetter && i > 1 && left[i - 2].operation == Read
      && n == Some(Count(left[i - 2].row) + 1)
    case Write(Failed, n) =>
      || before == SendDeadLetter
      || before == Write(DlqSent, n)
      || (before == CommitOffset && i > 1 && left[i - 2].operation == Write(DlqSent, n))
    case Write(_, _) => false
    case _ => true
  }

  /** Where a delivery that throws has got to: an await before the handler has thrown, or the commit of a
      duplicate, or the read of the count; another worker has the record; or the handler's failure has been
      written down. A handler that was started never leaves its record without such a write, unless that
      one read has thrown. */
  ghost predicate ThrowsForAReason(left: seq<Done>, world: nat -> Turn, clock: nat, end: Pc) {
    end.Thrown? ==>
      && |left| > 0
      && var last := |left| - 1;
         match left[last].operation
         case Read => Met(world, clock, last).await.Throws? || TakenByAnother(left, last)
         case InsertReceived => Met(world, clock, last).await.Throws?
         case ClaimProcessing => Met(world, clock, last).await.Throws?
         case CommitOffset => Met(world, clock, last).await.Throws? && last > 0 && left[last - 1].operation == Read
         case Write(status, _) => status == Retrying || status == Failed
         case _ => false
  }

  /** The record read is PROCESSING, or a claim was lost on it and it is not settled since. */
  ghost predicate TakenByAnother(left: seq<Done>, i: nat)
    requires i < |left|
  {
    || (left[i].row.Some? && left[i].row.value.status == Processing)
    || (&& !Settled(left[i].row) && i > 0
        && (|| left[i - 1].operation == ClaimProcessing
            || (i > 1 && left[i - 1] == Done(Read, None) && left[i - 2].operation == ClaimProcessing)))
  }

  /** The awaits a delivery performs before the handler, on a record that is absent or can be claimed. */
  function Climbs(row: Option<Row>): seq<Done> {
    var count := if row.Some? then row.value.retryCount else 0;
    var held := Some(Row(Processing, count));
    [Done(Read, row)]
    + (if row.None? then [Done(InsertReceived, Some(Row(Received, 0)))] else [])
    + [Done(ClaimProcessing, held), Done(Read, held)]
  }

  /** From a handler that returns, on a record with `n` failures. */
  function Completes(n: nat): seq<Done> {
    var done := Some(Row(Processed, n));
    [Done(RunHandler, Some(Row(Processing, n))), Done(Write(Processed, None), done), Done(CommitOffset, done)]
  }

  /** From a handler that throws, below the limit. */
  function Retries(n: nat): seq<Done> {
    var held := Some(Row(Processing, n));
    [Done(RunHandler, held), Done(Read, held), Done(Write(Retrying, Some(n + 1)), Some(Row(Retrying, n + 1)))]
  }

  /** From a handler that throws, at the limit. */
  function GivesUp(n: nat): seq<Done> {
    var held, dead := Some(Row(Processing, n)), Some(Row(DlqSent, n + 1));
    [Done(RunHandler, held), Done(Read, held), Done(SendDeadLetter, held), Done(Write(DlqSent, Some(n + 1)), dead),
     Done(CommitOffset, dead)]
  }

  /** All that happens in a delivery nobody disturbs, and how it ends. */
  function Alone(limit: nat, row: Option<Row>, handled: Await): (seq<Done>, Pc) {
    var n := if row.Some? then row.value.retryCount else 0;
    if Settled(row) then ([Done(Read, row), Done(CommitOffset, row)], Finished)
    else if row.Some? && row.value.status == Processing then ([Done(Read, row)], Thrown)
    else if handled == Returns then (Climbs(row) + Completes(n), Finished)
    else if n < limit then (Climbs(row) + Retries(n), Thrown)
    else (Climbs(row) + GivesUp(n), Finished)
  }

  /** What the i-th await runs into when nobody disturbs the delivery: the row the one before it left. None
      but the handler throws. */
  function Calm(left: seq<Done>, row: Option<Row>, handled: Await, i: nat): Turn
    requires i < |left|
  {
    Turn(if i == 0 then row else left[i - 1].row, if left[i].operation == RunHandler then handled else Returns)
  }

  ghost predicate Undisturbed(left: seq<Done>, world: nat -> Turn, clock: nat, row: Option<Row>, handled: Await) {
    forall i :: 0 <= i < |left| ==> Met(world, clock, i) == Calm(left, row, handled, i)
  }

  /* Proofs, on the small-step delivery. */

  lemma RestStep(limit: nat, pc: Pc, world: nat -> Turn, clock: nat)
    requires !Ended(pc)
    ensures var turn := world(clock);
      var local := Step(limit, pc, turn.found, turn.await);
      var rest := Rest(limit, local.pc, world, clock + 1);
      Rest(limit, pc, world, clock) == Path([Taken(pc, local.row)] + rest.taken, rest.ending)
  {
  }

  /** `taken` are consecutive steps from `pc` to `end`. */
  ghost predicate Chain(limit: nat, pc: Pc, taken: seq<Taken>, end: Pc, world: nat -> Turn, clock: nat) {
    && Ended(end)
    && (if |taken| == 0 then end == pc else taken[0].pc == pc)
    && forall i :: 0 <= i < |taken| ==> Link(limit, taken, end, world, clock, i)
  }

  ghost predicate Link(limit: nat, taken: seq<Taken>, end: Pc, world: nat -> Turn, clock: nat, i: nat)
    requires i < |taken|
  {
    var local := Step(limit, taken[i].pc, Met(world, clock, i).found, Met(world, clock, i).await);
    !Ended(taken[i].pc) && taken[i].row == local.row
    && (if i + 1 < |taken| then taken[i + 1].pc else end) == local.pc
  }

  lemma OneMoreLink(limit: nat, first: Taken, next: Pc, rest: seq<Taken>, end: Pc, world: nat -> Turn, clock: nat)
    requires Chain(limit, next, rest, end, world, clock + 1) && !Ended(first.pc)
    requires Step(limit, first.pc, world(clock).found, world(clock).await) == Local(next, first.row)
    ensures Chain(limit, first.pc, [first] + rest, end, world, clock)
  {
    hide Step, Ended;
    var taken := [first] + rest;
    forall i | 0 <= i < |taken| ensures Link(limit, taken, end, world, clock, i) {
      if i > 0 {
        assert Link(limit, rest, end, world, clock + 1, i - 1);
        assert Met(world, clock, i) == Met(world, clock + 1, i - 1);
      }
    }
  }

  lemma {:induction false} RestIsChain(limit: nat, pc: Pc, world: nat -> Turn, clock: nat)
    ensures var rest := Rest(limit, pc, world, clock); Chain(limit, pc, rest.taken, rest.ending, world, clock)
    decreases Remaining(pc)
  {
    if !Ended(pc) {
      var turn := world(clock);
      var local := Step(limit, pc, turn.found, turn.await);
      StepsRunOut(limit, pc, turn.found, turn.await);
      RestIsChain(limit, local.pc, world, clock + 1);
      RestStep(limit, pc, world, clock);
      hide Step, Rest, Chain;
      var rest := Rest(limit, local.pc, world, clock + 1);
      OneMoreLink(limit, Taken(pc, local.row), local.pc, rest.taken, rest.ending, world, clock);
    }
  }

  lemma ChainAt(limit: nat, taken: seq<Taken>, left: seq<Done>, end: Pc, world: nat -> Turn, clock: nat, i: nat)
    requires Chain(limit, Look, taken, end, world, clock) && Recorded(taken, left) && i < |left|
    ensures |taken| == |left| && Link(limit, taken, end, world, clock, i) && (i == 0 ==> taken[0].pc == Look)
    ensures left[i] == Done(OperationAt(taken[i].pc), taken[i].row)
  {
  }

  /** What comes before each step. */
  lemma Precedes(limit: nat, pc: Pc, found: Option<Row>, await: Await)
    requires !Ended(pc)
    ensures var local := Step(limit, pc, found, await);
      && (OperationAt(pc) == Read ==> local.row == found)
      && match local.pc
         case Look => false
         case Insert => pc == Look && await == Returns && found.None?
         case Collide => pc == Insert && await == Returns
         case Claim =>
           && await == Returns && (found.Some? ==> pc != Insert && Claimable(found.value.status))
           && (pc == Look || pc == Collide || pc == Insert)
         case ClaimRead => pc == Claim && await == Returns && found.Some? && Claimable(found.value.status)
         case LostRead => (pc == Claim || (pc == ClaimRead && found.None?)) && await == Returns
         case Handle => pc == ClaimRead && await == Returns && found.Some?
         case MarkDone => pc == Handle && await == Returns
         case CommitDone => pc == MarkDone && await == Returns
         case WriteRetrying(n) => pc == CatchRead && await == Returns && n == Count(found) + 1 && n <= limit
         case SendDlq(n) => pc == CatchRead && await == Returns && n == Count(found) + 1 && n > limit
         case WriteDlqSent(n) => pc == SendDlq(n) && await == Returns
         case CommitDlq(n) => pc == WriteDlqSent(n) && await == Returns
         case WriteFailed(n) => pc == SendDlq(n) || pc == WriteDlqSent(n) || pc == CommitDlq(n)
         case CommitSkip => OperationAt(pc) == Read && await == Returns && Settled(found)
         case _ => true
  {
  }

  lemma ChainEndsWithCommit(limit: nat, taken: seq<Taken>, left: seq<Done>, end: Pc, world: nat -> Turn, clock: nat)
    requires Chain(limit, Look, taken, end, world, clock) && Recorded(taken, left)
    ensures EndsWithCommit(left, world, clock, end)
  {
    ChainAt(limit, taken, left, end, world, clock, |taken| - 1);
  }

  lemma ChainThrowsForAReason(limit: nat, taken: seq<Taken>, left: seq<Done>, end: Pc, world: nat -> Turn,
                              clock: nat)
    requires Chain(limit, Look, taken, end, world, clock) && Recorded(taken, left)
    ensures ThrowsForAReason(left, world, clock, end)
  {
    var last := |taken| - 1;
    assert Link(limit, taken, end, world, clock, last);
    assert left[last] == Done(OperationAt(taken[last].pc), taken[last].row);
    if last > 0 {
      assert Link(limit, taken, end, world, clock, last - 1);
      assert left[last - 1] == Done(OperationAt(taken[last - 1].pc), taken[last - 1].row);
    }
    if last > 1 {
      assert Link(limit, taken, end, world, clock, last - 2);
      assert left[last - 2] == Done(OperationAt(taken[last - 2].pc), taken[last - 2].row);
    }
  }

  lemma ChainIsEntitled(limit: nat, taken: seq<Taken>, left: seq<Done>, end: Pc, world: nat -> Turn, clock: nat,
                        i: nat)
    requires Chain(limit, Look, taken, end, world, clock) && Recorded(taken, left) && i < |left|
    ensures Entitled(limit, left, world, clock, i)
  {
    hide Chain, Recorded, Step;
    ChainAt(limit, taken, left, end, world, clock, i);
    if i > 0 {
      ChainAt(limit, taken, left, end, world, clock, i - 1);
      Precedes(limit, taken[i - 1].pc, Met(world, clock, i - 1).found, Met(world, clock, i - 1).await);
    }
    if i > 1 {
      ChainAt(limit, taken, left, end, world, clock, i - 2);
      Precedes(limit, taken[i - 2].pc, Met(world, clock, i - 2).found, Met(world, clock, i - 2).await);
    }
  }

  /** The i-th await of an undisturbed delivery, standing at `pc` on the row `found`. */
  lemma AloneStep(limit: nat, taken: seq<Taken>, left: seq<Done>, end: Pc, world: nat -> Turn, clock: nat,
                  row: Option<Row>, handled: Await, i: nat, pc: Pc, found: Option<Row>)
    requires Chain(limit, Look, taken, end, world, clock) && Recorded(taken, left)
    requires Undisturbed(left, world, clock, row, handled)
    requires i < |taken| && taken[i].pc == pc && found == if i == 0 then row else left[i - 1].row
    ensures var local := Step(limit, pc, found, if pc.Handle? then handled else Returns);
      && left[i] == Done(OperationAt(pc), local.row)
      && (if Ended(local.pc) then |taken| == i + 1 && end == local.pc
          else |taken| > i + 1 && taken[i + 1].pc == local.pc)
  {
    hide Step;
    SameLength(taken, left);
    assert Link(limit, taken, end, world, clock, i);
    assert left[i] == Done(OperationAt(taken[i].pc), taken[i].row);
    assert Met(world, clock, i) == Calm(left, row, handled, i);
    if i + 1 < |taken| {
      assert Link(limit, taken, end, world, clock, i + 1);
    }
  }

  lemma SameLength(taken: seq<Taken>, left: seq<Done>)
    requires Recorded(taken, left)
    ensures |left| == |taken|
  {
  }

  /** Up to the handler. */
  lemma AloneClimbs(limit: nat, taken: seq<Taken>, left: seq<Done>, end: Pc, world: nat -> Turn, clock: nat,
                    row: Option<Row>, handled: Await)
    requires Chain(limit, Look, taken, end, world, clock) && Recorded(taken, left)
    requires Undisturbed(left, world, clock, row, handled) && |taken| > 0 && taken[0].pc == Look
    requires row.None? || Claimable(row.value.status)
    ensures var h := |Climbs(row)|;
      h < |taken| && left[..h] == Climbs(row) && taken[h].pc == Handle && left[h - 1].row == Climbs(row)[h - 1].row
  {
    SameLength(taken, left);
    hide Chain, Recorded, Undisturbed;
    AloneStep(limit, taken, left, end, world, clock, row, handled, 0, Look, row);
    var i := 1;
    if row.None? {
      AloneStep(limit, taken, left, end, world, clock, row, handled, 1, Insert, row);
      i := 2;
    }
    AloneStep(limit, taken, left, end, world, clock, row, handled, i, Claim, left[i - 1].row);
    AloneStep(limit, taken, left, end, world, clock, row, handled, i + 1, ClaimRead, left[i].row);
    assert |Climbs(row)| == i + 2;
    assert left[..i + 2] == Climbs(row);
  }

  lemma AloneCompletes(limit: nat, taken: seq<Taken>, left: seq<Done>, end: Pc, world: nat -> Turn, clock: nat,
                       row: Option<Row>, handled: Await, h: nat, n: nat)
    requires Chain(limit, Look, taken, end, world, clock) && Recorded(taken, left)
    requires Undisturbed(left, world, clock, row, handled)
    requires 0 < h < |taken| && taken[h].pc == Handle && left[h - 1].row == Some(Row(Processing, n))
    requires handled == Returns
    ensures h <= |left| && left[h..] == Completes(n) && end == Finished
  {
    SameLength(taken, left);
    hide Chain, Recorded, Undisturbed;
    var held := Some(Row(Processing, n));
    AloneStep(limit, taken, left, end, world, clock, row, handled, h, Handle, held);
    AloneStep(limit, taken, left, end, world, clock, row, handled, h + 1, MarkDone, held);
    AloneStep(limit, taken, left, end, world, clock, row, handled, h + 2, CommitDone, Some(Row(Processed, n)));
    hide Step;
    assert left[h..] == [left[h], left[h + 1], left[h + 2]];
  }

  lemma AloneRetries(limit: nat, taken: seq<Taken>, left: seq<Done>, end: Pc, world: nat -> Turn, clock: nat,
                       row: Option<Row>, handled: Await, h: nat, n: nat)
    requires Chain(limit, Look, taken, end, world, clock) && Recorded(taken, left)
    requires Undisturbed(left, world, clock, row, handled)
    requires 0 < h < |taken| && taken[h].pc == Handle && left[h - 1].row == Some(Row(Processing, n))
    requires handled.Throws? && n < limit
    ensures h <= |left| && left[h..] == Retries(n) && end == Thrown
  {
    SameLength(taken, left);
    hide Chain, Recorded, Undisturbed;
    var held := Some(Row(Processing, n));
    AloneStep(limit, taken, left, end, world, clock, row, handled, h, Handle, held);
    AloneStep(limit, taken, left, end, world, clock, row, handled, h + 1, CatchRead, held);
    AloneStep(limit, taken, left, end, world, clock, row, handled, h + 2, WriteRetrying(n + 1), held);
    hide Step;
    assert left[h..] == [left[h], left[h + 1], left[h + 2]];
  }

  lemma AloneGivesUp(limit: nat, taken: seq<Taken>, left: seq<Done>, end: Pc, world: nat -> Turn, clock: nat,
                       row: Option<Row>, handled: Await, h: nat, n: nat)
    requires Chain(limit, Look, taken, end, world, clock) && Recorded(taken, left)
    requires Undisturbed(left, world, clock, row, handled)
    requires 0 < h < |taken| && taken[h].pc == Handle && left[h - 1].row == Some(Row(Processing, n))
    requires handled.Throws? && n >= limit
    ensures h <= |left| && left[h..] == GivesUp(n) && end == Finished
  {
    SameLength(taken, left);
    hide Chain, Recorded, Undisturbed;
    var held, dead := Some(Row(Processing, n)), Some(Row(DlqSent, n + 1));
    AloneStep(limit, taken, left, end, world, clock, row, handled, h, Handle, held);
    AloneStep(limit, taken, left, end, world, clock, row, handled, h + 1, CatchRead, held);
    AloneStep(limit, taken, left, end, world, clock, row, handled, h + 2, SendDlq(n + 1), held);
    AloneStep(limit, taken, left, end, world, clock, row, handled, h + 3, WriteDlqSent(n + 1), held);
    AloneStep(limit, taken, left, end, world, clock, row, handled, h + 4, CommitDlq(n + 1), dead);
    hide Step;
    assert left[h..] == [left[h], left[h + 1], left[h + 2], left[h + 3], left[h + 4]];
  }

  lemma AloneIsAlone(limit: nat, taken: seq<Taken>, left: seq<Done>, end: Pc, world: nat -> Turn, clock: nat,
                     row: Option<Row>, handled: Await)
    requires Chain(limit, Look, taken, end, world, clock) && Recorded(taken, left)
    requires Undisturbed(left, world, clock, row, handled)
    ensures (left, end) == Alone(limit, row, handled)
  {
    assert |taken| > 0 && taken[0].pc == Look;
    SameLength(taken, left);
    hide Chain, Recorded, Undisturbed;
    if row.None? || Claimable(row.value.status) {
      AloneClimbs(limit, taken, left, end, world, clock, row, handled);
      var h := |Climbs(row)|;
      var n := if row.Some? then row.value.retryCount else 0;
      if handled == Returns {
        AloneCompletes(limit, taken, left, end, world, clock, row, handled, h, n);
      } else if n < limit {
        AloneRetries(limit, taken, left, end, world, clock, row, handled, h, n);
      } else {
        AloneGivesUp(limit, taken, left, end, world, clock, row, handled, h, n);
      }
      hide Step, Completes, Retries, GivesUp;
      assert left == left[..h] + left[h..];
    } else {
      AloneStep(limit, taken, left, end, world, clock, row, handled, 0, Look, row);
      if Settled(row) {
        AloneStep(limit, taken, left, end, world, clock, row, handled, 1, CommitSkip, row);
        assert left == [left[0], left[1]];
      } else {
        assert left == [left[0]];
      }
    }
  }

  class Delivery {
    const consumerRetryLimit: int
    const limit: nat := RetryLimit(consumerRetryLimit)
    const repository: Repository
    /** The awaits performed so far, and the row each left. */
    ghost var taken: seq<Taken>

    constructor (repository: Repository, consumerRetryLimit: int)
      ensures this.repository == repository && limit == RetryLimit(consumerRetryLimit) && taken == []
    {
      this.repository := repository;
      this.consumerRetryLimit := consumerRetryLimit;
      taken := [];
    }

    ghost predicate At(start: Path, pc: Pc)
      reads this, repository
    {
      && Reached(limit, start, taken, pc, repository.world, repository.clock)
      && Recorded(taken, repository.left)
    }

    /** Records that the await `pc` has just been performed, and what it left. */
    ghost method Took(pc: Pc, start: Path)
      requires !Ended(pc) && repository.clock > 0
      requires Reached(limit, start, taken, pc, repository.world, repository.clock - 1)
      requires |repository.left| > 0 && Recorded(taken, repository.left[..|repository.left| - 1])
      requires var turn := repository.world(repository.clock - 1);
        repository.left[|repository.left| - 1] == Done(OperationAt(pc), Step(limit, pc, turn.found, turn.await).row)
      modifies this`taken
      ensures var turn := repository.world(repository.clock - 1);
        At(start, Step(limit, pc, turn.found, turn.await).pc)
    {
      hide Reached;
      ReachNext(limit, start, taken, pc, repository.world, repository.clock - 1);
      var turn := repository.world(repository.clock - 1);
      taken := taken + [Taken(pc, Step(limit, pc, turn.found, turn.await).row)];
    }

    /** Lines 183 to 278: whether to go on to the claim. `Some(end)` ends the delivery. */
    method CheckDuplicate(ghost start: Path) returns (end: Option<Pc>)
      requires At(start, Look)
      modifies this, repository
      ensures At(start, if end.None? then Claim else end.value)
      ensures end.Some? ==> Ended(end.value)
    {
      hide Reached;
      var existing := repository.FindByEventIdAndConsumer();
      Took(Look, start);
      if existing.Err? {
        return Some(Thrown);
      }
      if existing.value.Some? {
        end := Evaluate(existing.value.value.status, start);
        return;
      }
      end := RecordFirst(start);
    }

    /** Lines 219 to 278: the first delivery inserts the record, or meets one inserted meanwhile. */
    method RecordFirst(ghost start: Path) returns (end: Option<Pc>)
      requires At(start, Insert)
      modifies this, repository
      ensures At(start, if end.None? then Claim else end.value)
      ensures end.Some? ==> Ended(end.value)
    {
      hide Reached;
      var recorded := repository.RecordReceived();
      Took(Insert, start);
      if recorded.Ok? {
        return None;
      }
      if recorded.error != UniqueViolation {
        return Some(Thrown);
      }
      var collided := repository.FindByEventIdAndConsumer();
      Took(Collide, start);
      if collided.Err? {
        return Some(Thrown);
      }
      if collided.value.None? {
        return None;
      }
      end := Evaluate(collided.value.value.status, start);
    }

    /** What a record's status decides, before the claim. */
    method Evaluate(status: Status, ghost start: Path) returns (end: Option<Pc>)
      requires At(start, Dispatch(status))
      modifies this, repository
      ensures At(start, if end.None? then Claim else end.value)
      ensures end.Some? ==> Ended(end.value)
    {
      hide Reached;
      if status == Processed || status == DlqSent {
        var skip := SkipDuplicate(start);
        return Some(skip);
      }
      if status == Processing {
        return Some(Thrown);
      }
      return None;
    }

    method SkipDuplicate(ghost start: Path) returns (end: Pc)
      requires At(start, CommitSkip)
      modifies this, repository
      ensures At(start, end) && Ended(end)
    {
      hide Reached;
      var committed := repository.Elsewhere(CommitOffset);
      Took(CommitSkip, start);
      end := if committed.Returns? then Finished else Thrown;
    }

    /** Lines 423 to 455, the inner try block. */
    method TryForward(n: nat, ghost start: Path) returns (ok: bool)
      requires At(start, SendDlq(n))
      modifies this, repository
      ensures At(start, if ok then Finished else WriteFailed(n))
    {
      hide Reached;
      var published := repository.Elsewhere(SendDeadLetter);
      Took(SendDlq(n), start);
      if published.Throws? {
        return false;
      }
      var marked := repository.UpdateStatus(DlqSent, Some(n));
      Took(WriteDlqSent(n), start);
      if marked.Err? {
        return false;
      }
      var committed := repository.Elsewhere(CommitOffset);
      Took(CommitDlq(n), start);
      ok := committed.Returns?;
    }

    /** Lines 401 to 473: retries exhausted. */
    method ForwardToDlq(n: nat, ghost start: Path) returns (end: Pc)
      requires At(start, SendDlq(n))
      modifies this, repository
      ensures At(start, end) && Ended(end)
    {
      hide Reached;
      var forwarded := TryForward(n, start);
      if forwarded {
        return Finished;
      }
      var _ := repository.UpdateStatus(Failed, Some(n));
      Took(WriteFailed(n), start);
      return Thrown;
    }

    /** Lines 351 to 475: the catch block around the handler, the PROCESSED write and the commit. */
    method HandleFailure(ghost start: Path) returns (end: Pc)
      requires At(start, CatchRead)
      modifies this, repository
      ensures At(start, end) && Ended(end)
    {
      hide Reached;
      var current := repository.FindByEventIdAndConsumer();
      Took(CatchRead, start);
      if current.Err? {
        return Thrown;
      }
      var currentRetry := if current.value.Some? then current.value.value.retryCount else 0;
      var newRetryCount := currentRetry + 1;
      if newRetryCount <= consumerRetryLimit {
        var _ := repository.UpdateStatus(Retrying, Some(newRetryCount));
        Took(WriteRetrying(newRetryCount), start);
        return Thrown;
      }
      end := ForwardToDlq(newRetryCount, start);
    }

    /** Lines 325 to 350, the try block. */
    method TryProcess(ghost start: Path) returns (ok: bool)
      requires At(start, Handle)
      modifies this, repository
      ensures At(start, if ok then Finished else CatchRead)
    {
      hide Reached;
      var handled := repository.Elsewhere(RunHandler);
      Took(Handle, start);
      if handled.Throws? {
        return false;
      }
      var marked := repository.UpdateStatus(Processed, None);
      Took(MarkDone, start);
      if marked.Err? {
        return false;
      }
      var committed := repository.Elsewhere(CommitOffset);
      Took(CommitDone, start);
      ok := committed.Returns?;
    }

    /** Run the handler, mark, commit; anything thrown goes to the catch block. */
    method Process(ghost start: Path) returns (end: Pc)
      requires At(start, Handle)
      modifies this, repository
      ensures At(start, end) && Ended(end)
    {
      hide Reached;
      var processed := TryProcess(start);
      if processed {
        return Finished;
      }
      end := HandleFailure(start);
    }

    /** Lines 289 to 316: another worker was quicker. */
    method LostClaim(ghost start: Path) returns (end: Pc)
      requires At(start, LostRead)
      modifies this, repository
      ensures At(start, end) && Ended(end)
    {
      hide Reached;
      var current := repository.FindByEventIdAndConsumer();
      Took(LostRead, start);
      if current.Err? || current.value.None? {
        return Thrown;
      }
      var status := current.value.value.status;
      if status == Processed || status == DlqSent {
        end := SkipDuplicate(start);
        return;
      }
      return Thrown;
    }

    /** Line 282: both awaits of the compare-and-set. */
    method TransitionStatus(ghost start: Path) returns (r: Result<bool, DbError>)
      requires At(start, Claim)
      modifies this, repository
      ensures At(start, if r.Err? then Thrown else if r.value then Handle else LostRead)
    {
      hide Reached;
      ghost var clock := repository.clock;
      var transitioned := repository.TransitionToProcessing();
      ghost var turn := repository.world(clock);
      ghost var local := Step(limit, Claim, turn.found, turn.await);
      ReachNext(limit, start, taken, Claim, repository.world, clock);
      taken := taken + [Taken(Claim, local.row)];
      if local.pc.ClaimRead? {
        Took(ClaimRead, start);
      }
      r := match transitioned
        case Err(e) => Err(e)
        case Ok(row) => Ok(row.Some?);
    }

    /** The delivery of a well-formed event. Whatever the world does, it ends well exactly with a commit, does
        nothing it is not entitled to, and throws only for a reason; undisturbed, it does what `Alone`
        lists. The awaits it performs, what each asks for, the row each leaves and the way it ends are those
        of the small-step delivery from `Look`. */
    method RunConsumer() returns (end: Pc)
      requires taken == [] && repository.left == []
      modifies this, repository
      ensures Ended(end)
      ensures Path(taken, end) == Rest(limit, Look, repository.world, old(repository.clock))
      ensures Recorded(taken, repository.left)
      ensures EndsWithCommit(repository.left, repository.world, old(repository.clock), end)
      ensures ThrowsForAReason(repository.left, repository.world, old(repository.clock), end)
      ensures forall i :: 0 <= i < |repository.left| ==>
        Entitled(limit, repository.left, repository.world, old(repository.clock), i)
      ensures forall row, handled ::
        Undisturbed(repository.left, repository.world, old(repository.clock), row, handled) ==>
          (repository.left, end) == Alone(limit, row, handled)
    {
      end := Deliver();
      ghost var left, world, clock := repository.left, repository.world, old(repository.clock);
      RestIsChain(limit, Look, world, clock);
      ChainEndsWithCommit(limit, taken, left, end, world, clock);
      ChainThrowsForAReason(limit, taken, left, end, world, clock);
      forall i | 0 <= i < |left| ensures Entitled(limit, left, world, clock, i) {
        ChainIsEntitled(limit, taken, left, end, world, clock, i);
      }
      forall row, handled | Undisturbed(left, world, clock, row, handled)
        ensures (left, end) == Alone(limit, row, handled)
      {
        AloneIsAlone(limit, taken, left, end, world, clock, row, handled);
      }
    }

    /** Its code. */
    method Deliver() returns (end: Pc)
      requires taken == [] && repository.left == []
      modifies this, repository
      ensures Ended(end)
      ensures Path(taken, end) == Rest(limit, Look, repository.world, old(repository.clock))
      ensures Recorded(taken, repository.left)
    {
      ghost var start := Rest(limit, Look, repository.world, repository.clock);
      var duplicate := CheckDuplicate(start);
      if duplicate.Some? {
        return duplicate.value;
      }
      var transitioned := TransitionStatus(start);
      if transitioned.Err? {
        return Thrown;
      }
      if !transitioned.value {
        end := LostClaim(start);
        return;
      }
      end := Process(start);
    }
  }
}
