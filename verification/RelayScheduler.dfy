/** The polling timer (apps/outbox-relay/src/scheduler.ts) driving the relay's cycles
    (apps/outbox-relay/src/relay.service.ts): why cycles never overlap, and why that is what bounds the
    messages in flight. */
module RelayScheduler {
  import opened Wrappers
  import Sums

  /* ---- The scheduler's fields, with the runtime's armed timers ---- */

  type TimerId = nat

  datatype Timers = Timers(
    isRunning: bool,
    isPolling: bool,
    timeoutId: Option<TimerId>,
    armed: set<TimerId>,
    nextTimer: TimerId)

  const Idle := Timers(false, false, None, {}, 0)

  function ScheduleNext(t: Timers): Timers {
    if !t.isRunning then t
    else t.(timeoutId := Some(t.nextTimer), armed := t.armed + {t.nextTimer}, nextTimer := t.nextTimer + 1)
  }

  function Bootstrapped(t: Timers): Timers {
    ScheduleNext(t.(isRunning := true))
  }

  /** clearTimeout reaches the timer armed last and no other. */
  function ShutDown(t: Timers): Timers {
    t.(isRunning := false, armed := if t.timeoutId.Some? then t.armed - {t.timeoutId.value} else t.armed)
  }

  predicate StartsCycle(t: Timers) {
    t.isRunning && !t.isPolling
  }

  function Fired(t: Timers, id: TimerId): Timers {
    var rest := t.(armed := t.armed - {id});
    if !t.isRunning then rest
    else if t.isPolling then ScheduleNext(rest)
    else rest.(isPolling := true)
  }

  function CycleOver(t: Timers): Timers {
    ScheduleNext(t.(isPolling := false))
  }

  class OutboxScheduler {
    var isRunning: bool
    var isPolling: bool
    var timeoutId: Option<TimerId>
    var armed: set<TimerId>
    var nextTimer: TimerId

    ghost function View(): Timers
      reads this
    {
      Timers(isRunning, isPolling, timeoutId, armed, nextTimer)
    }

    constructor ()
      ensures View() == Idle
    {
      isRunning, isPolling, timeoutId, armed, nextTimer := false, false, None, {}, 0;
    }

    method OnApplicationBootstrap()
      modifies this
      ensures View() == Bootstrapped(old(View()))
      ensures isRunning && isPolling == old(isPolling)
      ensures timeoutId == Some(old(nextTimer)) && armed == old(armed) + {old(nextTimer)}
    {
      isRunning := true;
      ScheduleNextPoll();
    }

    method OnApplicationShutdown()
      modifies this
      ensures View() == ShutDown(old(View()))
      ensures !isRunning && isPolling == old(isPolling)
      ensures armed == old(armed) - (if old(timeoutId).Some? then {old(timeoutId).value} else {})
    {
      isRunning := false;
      if timeoutId.Some? {
        armed := armed - {timeoutId.value};
      }
    }

    method ScheduleNextPoll()
      modifies this
      ensures View() == ScheduleNext(old(View()))
      ensures isRunning ==> timeoutId == Some(old(nextTimer)) && armed == old(armed) + {old(nextTimer)}
      ensures !isRunning ==> timeoutId == old(timeoutId) && armed == old(armed)
    {
      if !isRunning {
        return;
      }
      timeoutId := Some(nextTimer);
      armed := armed + {nextTimer};
      nextTimer := nextTimer + 1;
    }

    /** The timer's callback, as far as the call of `processBatch`. */
    method OnTimer(id: TimerId) returns (startsCycle: bool)
      requires id in armed
      modifies this
      ensures View() == Fired(old(View()), id) && startsCycle == StartsCycle(old(View()))
      ensures startsCycle <==> isRunning && !old(isPolling)
      ensures isRunning == old(isRunning) && isPolling == (old(isPolling) || startsCycle)
      ensures armed == old(armed) - {id} + if isRunning && old(isPolling) then {old(nextTimer)} else {}
    {
      armed := armed - {id};
      if !isRunning {
        return false;
      }
      if isPolling {
        ScheduleNextPoll();
        return false;
      }
      isPolling := true;
      startsCycle := true;
    }

    /** The rest of the callback, however `processBatch` ended. */
    method OnCycleOver()
      modifies this
      ensures View() == CycleOver(old(View()))
      ensures !isPolling && isRunning == old(isRunning)
      ensures armed == old(armed) + if isRunning then {old(nextTimer)} else {}
    {
      isPolling := false;
      ScheduleNextPoll();
    }
  }

  /* ---- Scheduler and relay together ---- */

  datatype Config = Config(maxInFlight: int, batchSize: int)

  type CycleId = nat
  type BatchId = nat

  const MAX_BATCHES_PER_CYCLE: nat := 10

  /** Where a call of `processBatch` stands. */
  datatype Cycle =
    | Deciding(spawned: nat)
    | Polling(spawned: nat, limit: int)
    | Waiting   // on Promise.all

  datatype State = State(
    timers: Timers,
    cycles: map<CycleId, Cycle>,
    nextCycle: CycleId,
    inFlight: int,
    batches: map<BatchId, nat>,   // the unfinished batches and their sizes
    nextBatch: BatchId)

  datatype Action =
    | Bootstrap
    | Shutdown
    | Fire(timer: TimerId)
    | Decide(cycle: CycleId)
    | PollReturns(cycle: CycleId, count: nat)
    | PollFails(cycle: CycleId)
    | BatchEnds(batch: BatchId)
    | CycleEnds(cycle: CycleId)

  const Initial := State(Idle, map[], 0, 0, map[], 0)

  /** A batch can end at any time, during a poll as well; a cycle can end while its batches run on,
      since Promise.all rejects as soon as one of them does. */
  predicate Enabled(s: State, a: Action) {
    match a
    case Bootstrap => true
    case Shutdown => true
    case Fire(t) => t in s.timers.armed
    case Decide(c) => c in s.cycles && s.cycles[c].Deciding?
    case PollReturns(c, n) => c in s.cycles && s.cycles[c].Polling? && n <= s.cycles[c].limit
    case PollFails(c) => c in s.cycles && s.cycles[c].Polling?
    case BatchEnds(b) => b in s.batches
    case CycleEnds(c) => c in s.cycles && s.cycles[c].Waiting?
  }

  /** The loop's tests before a poll. */
  function Decision(config: Config, spawned: nat, inFlight: int): Cycle {
    if spawned >= MAX_BATCHES_PER_CYCLE then Waiting
    else if inFlight >= config.maxInFlight then Waiting
    else
      var capacity := config.maxInFlight - inFlight;
      Polling(spawned, if config.batchSize < capacity then config.batchSize else capacity)
  }

  function Polled(cycle: Cycle, count: nat): Cycle
    requires cycle.Polling?
  {
    if count == 0 || count < cycle.limit then Waiting else Deciding(cycle.spawned + 1)
  }

  function Apply(config: Config, s: State, a: Action): State
    requires Enabled(s, a)
  {
    match a
    case Bootstrap => s.(timers := Bootstrapped(s.timers))
    case Shutdown => s.(timers := ShutDown(s.timers))
    case Fire(t) =>
      var fired := s.(timers := Fired(s.timers, t));
      if StartsCycle(s.timers) then
        fired.(cycles := s.cycles[s.nextCycle := Deciding(0)], nextCycle := s.nextCycle + 1)
      else fired
    case Decide(c) => s.(cycles := s.cycles[c := Decision(config, s.cycles[c].spawned, s.inFlight)])
    case PollReturns(c, n) =>
      var polled := s.(cycles := s.cycles[c := Polled(s.cycles[c], n)]);
      if n == 0 then polled
      else polled.(inFlight := s.inFlight + n, batches := s.batches[s.nextBatch := n], nextBatch := s.nextBatch + 1)
    case PollFails(c) => s.(cycles := s.cycles[c := Waiting])
    case BatchEnds(b) => s.(inFlight := s.inFlight - s.batches[b], batches := s.batches - {b})
    case CycleEnds(c) => s.(timers := CycleOver(s.timers), cycles := s.cycles - {c})
  }

  ghost predicate Legal(config: Config, s: State, acts: seq<Action>)
    decreases |acts|
  {
    |acts| == 0 || (Enabled(s, acts[0]) && Legal(config, Apply(config, s, acts[0]), acts[1..]))
  }

  ghost function Exec(config: Config, s: State, acts: seq<Action>): State
    requires Legal(config, s, acts)
    decreases |acts|
  {
    if |acts| == 0 then s else Exec(config, Apply(config, s, acts[0]), acts[1..])
  }

  ghost predicate Reachable(config: Config, s: State) {
    exists acts :: Legal(config, Initial, acts) && Exec(config, Initial, acts) == s
  }

  function Capacity(config: Config): nat {
    if config.maxInFlight < 0 then 0 else config.maxInFlight
  }

  ghost predicate TimersOk(t: Timers) {
    && (t.isRunning && !t.isPolling ==> t.armed != {})
    && (t.timeoutId.Some? ==> t.timeoutId.value < t.nextTimer)
    && (forall id :: id in t.armed ==> id < t.nextTimer)
  }

  /** One cycle exactly while polling; the counter is the sum over unfinished batches; and whatever a
      poll under way may claim still fits. */
  ghost predicate Inv(config: Config, s: State) {
    && TimersOk(s.timers)
    && (forall c, d :: c in s.cycles && d in s.cycles ==> c == d)
    && (s.timers.isPolling <==> s.cycles != map[])
    && (forall b :: b in s.batches ==> b < s.nextBatch)
    && s.inFlight == Sums.Sum(s.batches)
    && s.inFlight <= Capacity(config)
    && (forall c :: c in s.cycles && s.cycles[c].Polling? ==> s.inFlight + s.cycles[c].limit <= config.maxInFlight)
    && (forall c :: c in s.cycles && !s.cycles[c].Waiting? ==> s.cycles[c].spawned <= MAX_BATCHES_PER_CYCLE)
    && (forall c :: c in s.cycles && s.cycles[c].Polling? ==> s.cycles[c].spawned < MAX_BATCHES_PER_CYCLE)
  }

  lemma InvTimer(config: Config, s: State, a: Action)
    requires Inv(config, s) && Enabled(s, a) && (a.Bootstrap? || a.Shutdown? || a.Fire? || a.CycleEnds?)
    ensures Inv(config, Apply(config, s, a))
  {
    var s' := Apply(config, s, a);
    if s'.timers.isRunning && !s'.timers.isPolling {
      assert s.timers.nextTimer in s'.timers.armed;
    }
    if a.CycleEnds? {
      assert s'.cycles == map[];
    }
    if a.Fire? && StartsCycle(s.timers) {
      assert s.nextCycle in s'.cycles;
    }
  }

  lemma InvCycle(config: Config, s: State, a: Action)
    requires Inv(config, s) && Enabled(s, a) && (a.Decide? || a.PollReturns? || a.PollFails?)
    ensures Inv(config, Apply(config, s, a))
  {
    var s' := Apply(config, s, a);
    assert a.cycle in s'.cycles;
    if a.PollReturns? && a.count > 0 {
      Sums.SumUpdate(s.batches, s.nextBatch, a.count);
    }
  }

  lemma InvBatchEnds(config: Config, s: State, b: BatchId)
    requires Inv(config, s) && Enabled(s, BatchEnds(b))
    ensures Inv(config, Apply(config, s, BatchEnds(b)))
  {
    Sums.SumSplit(s.batches, b);
  }

  lemma InvStep(config: Config, s: State, a: Action)
    requires Inv(config, s) && Enabled(s, a)
    ensures Inv(config, Apply(config, s, a))
  {
    match a
    case Decide(_) => InvCycle(config, s, a);
    case PollReturns(_, _) => InvCycle(config, s, a);
    case PollFails(_) => InvCycle(config, s, a);
    case BatchEnds(b) => InvBatchEnds(config, s, b);
    case _ => InvTimer(config, s, a);
  }

  lemma {:induction false} InvRun(config: Config, s: State, acts: seq<Action>)
    requires Inv(config, s) && Legal(config, s, acts)
    ensures Inv(config, Exec(config, s, acts))
    decreases |acts|
  {
    if |acts| > 0 {
      InvStep(config, s, acts[0]);
      InvRun(config, Apply(config, s, acts[0]), acts[1..]);
    }
  }

  lemma ReachableInv(config: Config, s: State)
    requires Reachable(config, s)
    ensures Inv(config, s)
  {
    var acts :| Legal(config, Initial, acts) && Exec(config, Initial, acts) == s;
    InvRun(config, Initial, acts);
  }

  lemma {:induction false} ExecExtend(config: Config, s: State, acts: seq<Action>, a: Action)
    requires Legal(config, s, acts) && Enabled(Exec(config, s, acts), a)
    ensures Legal(config, s, acts + [a])
    ensures Exec(config, s, acts + [a]) == Apply(config, Exec(config, s, acts), a)
    decreases |acts|
  {
    hide Enabled, Apply;
    if |acts| > 0 {
      ExecExtend(config, Apply(config, s, acts[0]), acts[1..], a);
      assert (acts + [a])[1..] == acts[1..] + [a];
    } else {
      assert acts + [a] == [a];
      assert [a][1..] == [];
    }
  }

  lemma ReachableStep(config: Config, s: State, a: Action)
    requires Reachable(config, s) && Enabled(s, a)
    ensures Reachable(config, Apply(config, s, a))
  {
    hide Enabled, Apply;
    var acts :| Legal(config, Initial, acts) && Exec(config, Initial, acts) == s;
    ExecExtend(config, Initial, acts, a);
  }

  /** However bootstraps, shutdowns and timers fall, there is at most one call of `processBatch` at a
      time, and it is there exactly while `isPolling` is set. */
  lemma CyclesNeverOverlap(config: Config, s: State)
    requires Reachable(config, s)
    ensures |s.cycles| == if s.timers.isPolling then 1 else 0
  {
    ReachableInv(config, s);
    if s.timers.isPolling {
      var c :| c in s.cycles;
      assert s.cycles.Keys == {c};
    }
  }

  /** The counter always equals the size of the unfinished batches, and never exceeds the limit. */
  lemma BackPressure(config: Config, s: State)
    requires Reachable(config, s)
    ensures 0 <= s.inFlight == Sums.Sum(s.batches) <= Capacity(config)
  {
    ReachableInv(config, s);
  }

  /** While running, the scheduler always has its next poll armed or a cycle at work. */
  lemma PollingGoesOn(config: Config, s: State)
    requires Reachable(config, s) && s.timers.isRunning
    ensures s.cycles != map[] || s.timers.armed != {}
  {
    ReachableInv(config, s);
  }

  /** After a shutdown a cycle under way goes on, but no new one begins before another bootstrap. */
  lemma {:induction false} ShutdownHolds(config: Config, s: State, acts: seq<Action>)
    requires Legal(config, s, acts) && !s.timers.isRunning && Bootstrap !in acts
    ensures Exec(config, s, acts).nextCycle == s.nextCycle && !Exec(config, s, acts).timers.isRunning
    decreases |acts|
  {
    if |acts| > 0 {
      var s' := Apply(config, s, acts[0]);
      assert acts[0] in acts;
      assert s'.nextCycle == s.nextCycle && !s'.timers.isRunning;
      ShutdownHolds(config, s', acts[1..]);
    }
  }

  /** The guard against overlap is needed: were two cycles ever deciding at once, each would claim up to
      the same capacity, and the counter could reach twice the limit. */
  lemma OverlapOverflows(config: Config, s: State, c: CycleId, d: CycleId)
    requires config.maxInFlight > 0 && config.batchSize >= config.maxInFlight
    requires c != d && c in s.cycles && d in s.cycles && s.inFlight == 0
    requires s.cycles[c] == Deciding(0) && s.cycles[d] == Deciding(0)
    ensures var acts := [Decide(c), Decide(d), PollReturns(c, config.maxInFlight), PollReturns(d, config.maxInFlight)];
      Legal(config, s, acts) && Exec(config, s, acts).inFlight == 2 * config.maxInFlight
  {
    var m: nat := config.maxInFlight;
    var s1 := Apply(config, s, Decide(c));
    var s2 := Apply(config, s1, Decide(d));
    var s3 := Apply(config, s2, PollReturns(c, m));
    var s4 := Apply(config, s3, PollReturns(d, m));
    assert Legal(config, s4, []) && Exec(config, s4, []) == s4;
    var a3 := [PollReturns(d, m)];
    assert a3[1..] == [] && Legal(config, s3, a3) && Exec(config, s3, a3) == s4;
    var a2 := [PollReturns(c, m), PollReturns(d, m)];
    assert a2[1..] == a3 && Legal(config, s2, a2) && Exec(config, s2, a2) == s4;
    var a1 := [Decide(d), PollReturns(c, m), PollReturns(d, m)];
    assert a1[1..] == a2 && Legal(config, s1, a1) && Exec(config, s1, a1) == s4;
    var a0 := [Decide(c), Decide(d), PollReturns(c, m), PollReturns(d, m)];
    assert a0[1..] == a1;
  }

  /** Only the timer armed last is armed, and none while a cycle is at work. */
  predicate OneTimer(t: Timers) {
    && t.armed <= (if t.timeoutId.Some? then {t.timeoutId.value} else {})
    && (t.isPolling ==> t.armed == {})
  }

  predicate NotBooted(t: Timers) {
    !t.isRunning && !t.isPolling && t.armed == {}
  }

  lemma OneTimerStep(config: Config, s: State, a: Action)
    requires Inv(config, s) && Enabled(s, a) && OneTimer(s.timers) && (a.Bootstrap? ==> NotBooted(s.timers))
    ensures OneTimer(Apply(config, s, a).timers)
    ensures NotBooted(s.timers) && !a.Bootstrap? ==> NotBooted(Apply(config, s, a).timers)
  {
    if a.CycleEnds? {
      assert s.cycles != map[];
    }
  }

  lemma {:induction false} OneTimerRun(config: Config, s: State, acts: seq<Action>)
    requires Inv(config, s) && Legal(config, s, acts) && OneTimer(s.timers)
    requires NotBooted(s.timers) || Bootstrap !in acts
    requires forall i, j :: 0 <= i < j < |acts| ==> !(acts[i].Bootstrap? && acts[j].Bootstrap?)
    ensures OneTimer(Exec(config, s, acts).timers)
    decreases |acts|
  {
    if |acts| > 0 {
      assert acts[0] in acts;
      InvStep(config, s, acts[0]);
      OneTimerStep(config, s, acts[0]);
      hide Inv, Apply, OneTimer, NotBooted, Enabled;
      if acts[0].Bootstrap? {
        assert forall j :: 0 < j < |acts| ==> !acts[j].Bootstrap?;
      }
      OneTimerRun(config, Apply(config, s, acts[0]), acts[1..]);
    }
  }

  /** A shutdown leaves no timer armed, in any run that bootstraps at most once. */
  lemma ShutdownDisarms(config: Config, acts: seq<Action>)
    requires Legal(config, Initial, acts)
    requires forall i, j :: 0 <= i < j < |acts| ==> !(acts[i].Bootstrap? && acts[j].Bootstrap?)
    ensures Apply(config, Exec(config, Initial, acts), Shutdown).timers.armed == {}
  {
    OneTimerRun(config, Initial, acts);
  }

  /** After a second bootstrap it can leave one: clearTimeout knows the last timer only. */
  lemma SecondBootstrapOutlives(config: Config)
    ensures var acts := [Bootstrap, Bootstrap, Shutdown];
      Legal(config, Initial, acts) && Exec(config, Initial, acts).timers.armed == {0}
  {
    var s1 := Apply(config, Initial, Bootstrap);
    var s2 := Apply(config, s1, Bootstrap);
    var s3 := Apply(config, s2, Shutdown);
    assert s3.timers.armed == {0};
    assert Legal(config, s3, []) && Exec(config, s3, []) == s3;
    assert [Shutdown][1..] == [] && Legal(config, s2, [Shutdown]) && Exec(config, s2, [Shutdown]) == s3;
    var a1 := [Bootstrap, Shutdown];
    assert a1[1..] == [Shutdown] && Legal(config, s1, a1) && Exec(config, s1, a1) == s3;
    var a0 := [Bootstrap, Bootstrap, Shutdown];
    assert a0[1..] == a1;
  }
}
