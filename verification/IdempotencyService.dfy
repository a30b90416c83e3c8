/** `check`, `complete` and `cleanup` (apps/idempotency-service/src/services/idempotency.service.ts) and
    the gateway flow around them (apps/gateway/src/idempotency/idempotency.interceptor.ts). */
module IdempotencyService {
  import opened Awaits
  import opened RedisLock
  import opened Wrappers

  /** How `check` ends: the caller owns the lock; a completed response to replay; 409; 422; the 500 of
      its own; or the 500 of a command that threw. */
  datatype CheckResult =
    | Miss
    | Replay(response: Response)
    | Conflict
    | Mismatch
    | Unable
    | Failed

  /** `check` cut at its Redis commands. */
  datatype CheckPc = Nx1 | Get1 | Nx2 | Get2 | Over(result: CheckResult)

  /** Steps 3 to 5: what a record that was read means for a request with this hash. */
  function Judge(record: Record, hash: Hash): CheckResult {
    if record.requestHash != hash then Mismatch
    else if record.status.InProgress? then Conflict
    else if record.response.None? then Replay(Response(200, map[], Absent))
    else Replay(record.response.value)
  }

  /** One command that returns: what follows it, and the slot it leaves. */
  function CheckStep(pc: CheckPc, found: Slot, owner: OwnerId, hash: Hash): (CheckPc, Slot) {
    match pc
    case Nx1 => (if found.None? then Over(Miss) else Get1, SetNx(found, NewRecord(owner, hash)))
    case Get1 => (if found.None? then Nx2 else Over(Judge(found.value, hash)), found)
    case Nx2 => (if found.None? then Over(Miss) else Get2, SetNx(found, NewRecord(owner, hash)))
    case Get2 => (if found.None? then Over(Unable) else Over(Judge(found.value, hash)), found)
    case Over(_) => (pc, found)
  }

  /** The same for a command that may throw. */
  function CheckTurn(pc: CheckPc, turn: Turn, owner: OwnerId, hash: Hash): (CheckPc, Slot) {
    var step := CheckStep(pc, turn.found, owner, hash);
    if turn.await.Returns? then step else (Over(Failed), if turn.await.applied then step.1 else turn.found)
  }

  /** `check` as one indivisible test-and-create. */
  function AtomicCheck(slot: Slot, owner: OwnerId, hash: Hash): (CheckResult, Slot) {
    match slot
    case None => (Miss, Some(NewRecord(owner, hash)))
    case Some(record) => (Judge(record, hash), slot)
  }

  function Rank(pc: CheckPc): nat {
    match pc
    case Nx1 => 4 case Get1 => 3 case Nx2 => 2 case Get2 => 1 case Over(_) => 0
  }

  /** The commands of a call: what each ran into and what it left, and how the call ended. */
  datatype Path = Path(turns: seq<Turn>, left: seq<Slot>, result: CheckResult)

  /** The commands a call standing at `pc` still issues, when its n-th runs into `world(clock + n)`: the
      slot each leaves, and the result. */
  ghost function Rest(pc: CheckPc, world: nat -> Turn, clock: nat, owner: OwnerId, hash: Hash): Path
    decreases Rank(pc)
  {
    if pc.Over? then Path([], [], pc.result)
    else
      var step := CheckTurn(pc, world(clock), owner, hash);
      var rest := Rest(step.0, world, clock + 1, owner, hash);
      Path([world(clock)] + rest.turns, [step.1] + rest.left, rest.result)
  }

  lemma NextCommand(pc: CheckPc, world: nat -> Turn, clock: nat, owner: OwnerId, hash: Hash)
    requires !pc.Over?
    ensures var step := CheckTurn(pc, world(clock), owner, hash);
      var rest := Rest(step.0, world, clock + 1, owner, hash);
      Rest(pc, world, clock, owner, hash) == Path([world(clock)] + rest.turns, [step.1] + rest.left, rest.result)
  {
  }

  /** A command that only looks: it leaves what it found. */
  ghost predicate OnlyLooks(run: Path, i: nat) {
    i < |run.left| == |run.turns| && run.left[i] == run.turns[i].found
  }

  /** The call takes effect, as an atomic check would, at its i-th command and at no other. */
  ghost predicate TakesEffectAt(run: Path, owner: OwnerId, hash: Hash, i: nat) {
    && i < |run.left| == |run.turns|
    && (run.result, run.left[i]) == AtomicCheck(run.turns[i].found, owner, hash)
    && forall j: nat :: j < |run.left| && j != i ==> OnlyLooks(run, j)
  }

  /** The call breaks off at its last command, which does what an atomic check would or nothing. */
  ghost predicate BreaksOff(run: Path, owner: OwnerId, hash: Hash) {
    && 0 < |run.left| == |run.turns|
    && (forall j: nat :: j < |run.left| - 1 ==> OnlyLooks(run, j))
    && var last := |run.left| - 1;
       && run.turns[last].await.Throws?
       && (OnlyLooks(run, last) || run.left[last] == AtomicCheck(run.turns[last].found, owner, hash).1)
  }

  /** What a call must look like from outside. */
  ghost predicate Linear(run: Path, owner: OwnerId, hash: Hash) {
    match run.result
    case Unable => forall j: nat :: j < |run.left| ==> OnlyLooks(run, j)
    case Failed => BreaksOff(run, owner, hash)
    case _ => exists i: nat :: TakesEffectAt(run, owner, hash, i)
  }

  /** A command that only looks, in front of a linear run, leaves it linear. */
  lemma LooksFirst(turn: Turn, rest: Path, owner: OwnerId, hash: Hash)
    requires Linear(rest, owner, hash) && |rest.left| == |rest.turns|
    ensures Linear(Path([turn] + rest.turns, [turn.found] + rest.left, rest.result), owner, hash)
  {
    var run := Path([turn] + rest.turns, [turn.found] + rest.left, rest.result);
    forall j: nat | j < |run.left| ensures OnlyLooks(run, j) <==> j == 0 || OnlyLooks(rest, j - 1) {
    }
    if !rest.result.Failed? && !rest.result.Unable? {
      var i: nat :| TakesEffectAt(rest, owner, hash, i);
      assert TakesEffectAt(run, owner, hash, i + 1);
    }
  }

  /** A run of one command. */
  lemma OneCommand(pc: CheckPc, turn: Turn, owner: OwnerId, hash: Hash)
    requires !pc.Over? && CheckTurn(pc, turn, owner, hash).0.Over?
    ensures var step := CheckTurn(pc, turn, owner, hash);
      Linear(Path([turn], [step.1], step.0.result), owner, hash)
  {
    var step := CheckTurn(pc, turn, owner, hash);
    var run := Path([turn], [step.1], step.0.result);
    if !run.result.Failed? && !run.result.Unable? {
      assert TakesEffectAt(run, owner, hash, 0);
    }
  }

  lemma RunOver(result: CheckResult, world: nat -> Turn, clock: nat, owner: OwnerId, hash: Hash)
    ensures Rest(Over(result), world, clock, owner, hash) == Path([], [], result)
  {
  }

  /** The first command that settles anything is the last of the call. */
  lemma {:induction false} LinearFrom(pc: CheckPc, world: nat -> Turn, clock: nat, owner: OwnerId, hash: Hash)
    ensures var run := Rest(pc, world, clock, owner, hash);
      |run.left| == |run.turns| && (!pc.Over? ==> Linear(run, owner, hash))
    decreases Rank(pc)
  {
    if pc.Over? {
      return;
    }
    var step := CheckTurn(pc, world(clock), owner, hash);
    NextCommand(pc, world, clock, owner, hash);
    LinearFrom(step.0, world, clock + 1, owner, hash);
    if step.0.Over? {
      RunOver(step.0.result, world, clock + 1, owner, hash);
      OneCommand(pc, world(clock), owner, hash);
      assert [world(clock)] + [] == [world(clock)] && [step.1] + [] == [step.1];
    } else {
      assert step.1 == world(clock).found;
      hide Linear, Rest;
      LooksFirst(world(clock), Rest(step.0, world, clock + 1, owner, hash), owner, hash);
    }
  }

  /** All four commands return, the key there at both creations and gone at both reads. */
  ghost predicate Dodged(world: nat -> Turn, clock: nat) {
    && world(clock) == Turn(world(clock).found, Returns) && world(clock).found.Some?
    && world(clock + 1) == Turn(None, Returns)
    && world(clock + 2) == Turn(world(clock + 2).found, Returns) && world(clock + 2).found.Some?
    && world(clock + 3) == Turn(None, Returns)
  }

  /** Linearizability: whatever others do between its commands, a call of `check` has the result and the
      one effect of an atomic check at the instant of one of its own commands, every other command of
      the call changing nothing. A call that a throwing command breaks off has that effect or none. The
      500 of its own changes nothing, and occurs exactly when the key was there at both creations and
      gone at both reads. */
  lemma CheckLinearizable(world: nat -> Turn, clock: nat, owner: OwnerId, hash: Hash)
    ensures Linear(Rest(Nx1, world, clock, owner, hash), owner, hash)
    ensures Rest(Nx1, world, clock, owner, hash).result.Unable? <==> Dodged(world, clock)
  {
    LinearFrom(Nx1, world, clock, owner, hash);
    hide Linear, Rest;
    NextCommand(Nx1, world, clock, owner, hash);
    var pc1 := CheckTurn(Nx1, world(clock), owner, hash).0;
    if pc1.Over? {
      RunOver(pc1.result, world, clock + 1, owner, hash);
      return;
    }
    NextCommand(Get1, world, clock + 1, owner, hash);
    var pc2 := CheckTurn(Get1, world(clock + 1), owner, hash).0;
    if pc2.Over? {
      RunOver(pc2.result, world, clock + 2, owner, hash);
      return;
    }
    NextCommand(Nx2, world, clock + 2, owner, hash);
    var pc3 := CheckTurn(Nx2, world(clock + 2), owner, hash).0;
    if pc3.Over? {
      RunOver(pc3.result, world, clock + 3, owner, hash);
      return;
    }
    NextCommand(Get2, world, clock + 3, owner, hash);
    RunOver(CheckTurn(Get2, world(clock + 3), owner, hash).0.result, world, clock + 4, owner, hash);
  }

  /** A check that fails can leave a lock no handler will run under: the creation took effect, its answer
      was lost. */
  lemma FailedCheckLocks(world: nat -> Turn, clock: nat, owner: OwnerId, hash: Hash)
    requires world(clock) == Turn(None, Throws(true))
    ensures var run := Rest(Nx1, world, clock, owner, hash);
      run.result == Failed && run.left == [Some(NewRecord(owner, hash))]
  {
    NextCommand(Nx1, world, clock, owner, hash);
    RunOver(Failed, world, clock + 1, owner, hash);
  }

  /** `check` itself. */
  method Check(store: Store, ownerId: OwnerId, requestHash: Hash) returns (r: CheckResult)
    modifies store
    ensures var run := Rest(Nx1, store.world, old(store.clock), ownerId, requestHash);
      r == run.result && store.left == old(store.left) + run.left && store.clock == old(store.clock) + |run.left|
  {
    hide Rest;
    ghost var world, clock := store.world, store.clock;
    NextCommand(Nx1, world, clock, ownerId, requestHash);
    var acquired := store.CreateInProgress(requestHash, ownerId);
    if acquired.Err? {
      RunOver(Failed, world, clock + 1, ownerId, requestHash);
      return Failed;
    }
    if acquired.value {
      RunOver(Miss, world, clock + 1, ownerId, requestHash);
      return Miss;
    }
    NextCommand(Get1, world, clock + 1, ownerId, requestHash);
    var record := store.FindRequest();
    if record.Err? {
      RunOver(Failed, world, clock + 2, ownerId, requestHash);
      return Failed;
    }
    if record.value.None? {
      r := Retry(store, ownerId, requestHash);
      return;
    }
    r := Verdict(record.value.value, requestHash);
    RunOver(r, world, clock + 2, ownerId, requestHash);
  }

  /** Lines 88 to 116: the key expired between the two commands. */
  method Retry(store: Store, ownerId: OwnerId, requestHash: Hash) returns (r: CheckResult)
    modifies store
    ensures var run := Rest(Nx2, store.world, old(store.clock), ownerId, requestHash);
      r == run.result && store.left == old(store.left) + run.left && store.clock == old(store.clock) + |run.left|
  {
    hide Rest;
    ghost var world, clock := store.world, store.clock;
    NextCommand(Nx2, world, clock, ownerId, requestHash);
    var reAcquired := store.CreateInProgress(requestHash, ownerId);
    if reAcquired.Err? {
      RunOver(Failed, world, clock + 1, ownerId, requestHash);
      return Failed;
    }
    if reAcquired.value {
      RunOver(Miss, world, clock + 1, ownerId, requestHash);
      return Miss;
    }
    NextCommand(Get2, world, clock + 1, ownerId, requestHash);
    var record := store.FindRequest();
    r := if record.Err? then Failed else if record.value.None? then Unable else Judge(record.value.value, requestHash);
    RunOver(r, world, clock + 2, ownerId, requestHash);
  }

  /** Lines 120 to 167. */
  method Verdict(record: Record, requestHash: Hash) returns (r: CheckResult)
    ensures r == Judge(record, requestHash)
  {
    if record.requestHash != requestHash {
      return Mismatch;
    }
    if record.status == InProgress {
      return Conflict;
    }
    r := Replay(if record.response.Some? then record.response.value else Response(200, map[], Absent));
  }

  /* ---- The gateway ---- */

  /** What the route's handler did: answered, or threw. */
  datatype Handled = Answered(statusCode: int, headers: seq<Header>, body: Body) | Threw

  /** A response header; `None` is the value undefined. */
  datatype Header = Header(name: string, value: Option<string>)

  datatype Reply =
    | Direct                     // the handler's own outcome, without idempotency
    | BadRequest                 // no usable Idempotency-Key
    | Cached(response: Response) // replayed, with Idempotency-Replayed: true
    | Refused(result: CheckResult)
    | Handler                    // the handler's own outcome, recorded or released

  function LowerChar(c: char): char {
    if 'A' <= c <= 'Z' then c - 'A' + 'a' else c
  }

  function Lower(s: string): string {
    seq(|s|, i requires 0 <= i < |s| => LowerChar(s[i]))
  }

  const HOP_BY_HOP: set<string> := {"connection", "keep-alive", "transfer-encoding", "date", "x-powered-by"}

  predicate Cacheable(h: Header) {
    h.value.Some? && Lower(h.name) !in HOP_BY_HOP
  }

  /** Every cacheable header, and nothing else. */
  ghost predicate CachesExactly(raw: seq<Header>, cached: map<string, string>) {
    && (forall i :: 0 <= i < |raw| && Cacheable(raw[i]) ==>
          raw[i].name in cached && cached[raw[i].name] == raw[i].value.value)
    && (forall name :: name in cached ==> exists i :: 0 <= i < |raw| && raw[i].name == name && Cacheable(raw[i]))
  }

  /** Lines 113 to 124: the headers worth caching. Header names are the keys of one object. */
  method HeadersToCache(raw: seq<Header>) returns (cached: map<string, string>)
    requires forall i, j :: 0 <= i < j < |raw| ==> raw[i].name != raw[j].name
    ensures CachesExactly(raw, cached)
  {
    cached := map[];
    for i := 0 to |raw|
      invariant forall j :: 0 <= j < i && Cacheable(raw[j]) ==>
        raw[j].name in cached && cached[raw[j].name] == raw[j].value.value
      invariant forall name :: name in cached ==> exists j :: 0 <= j < i && raw[j].name == name && Cacheable(raw[j])
    {
      if raw[i].value.Some? && Lower(raw[i].name) !in HOP_BY_HOP {
        cached := cached[raw[i].name := raw[i].value.value];
      }
    }
  }

  /** `body ?? {}` in the gateway, then `body || {}` in the service's controller. */
  function StoredBody(body: Body): Body {
    if body.Absent? || body.Falsy? then Empty else body
  }

  /** `response` is the handler's own answer: its status, its headers worth caching, and its body, which
      only an absent, falsy or empty one is not remembered by. */
  ghost predicate Reproduces(response: Response, handled: Handled) {
    && handled.Answered? && handled.statusCode < 500
    && response.statusCode == handled.statusCode
    && CachesExactly(handled.headers, response.headers)
    && response.body == if handled.body.Data? then handled.body else Empty
  }

  /** A command of `owner` that leaves `record` in place of a record of its own, and nothing else anywhere. */
  predicate Replaces(turn: Turn, owner: OwnerId, left: Slot, record: Slot) {
    left == if TookEffect(turn.await) && turn.found.Some? && turn.found.value.ownerId == owner then record
            else turn.found
  }

  predicate Mutating(verb: string) {
    verb in {"POST", "PUT", "PATCH", "DELETE"}
  }

  /** `intercept`, with what its handler will do if it is called. The handler runs at most once, and
      exactly when `check` answered MISS (or idempotency does not apply); the one command that follows a
      MISS is `markCompleted` when the handler answered below 500 and `delete` otherwise, and whether that
      command throws makes no difference to the reply. A check that throws is answered with an error. */
  method Intercept(store: Store, verb: string, key: Option<string>, merchant: bool, ownerId: OwnerId,
                   requestHash: Hash, handled: Handled) returns (reply: Reply, runs: nat)
    requires handled.Answered? ==>
      forall i, j :: 0 <= i < j < |handled.headers| ==> handled.headers[i].name != handled.headers[j].name
    modifies store
    ensures Mutating(verb) && (key.None? || key.value == "") <==> reply.BadRequest?
    ensures runs <= 1 && (runs == 1 <==> reply.Direct? || reply.Handler?)
    ensures reply.Direct? <==> !Mutating(verb) || (!reply.BadRequest? && !merchant)
    ensures reply.Direct? || reply.BadRequest? ==> store.left == old(store.left)
    ensures !reply.Direct? && !reply.BadRequest? ==>
      var run := Rest(Nx1, store.world, old(store.clock), ownerId, requestHash);
      var last := store.world(old(store.clock) + |run.left|);
      match run.result
      case Miss =>
        && reply.Handler?
        && (if handled.Answered? && handled.statusCode < 500 then
              exists response :: Reproduces(response, handled)
                && Replaces(last, ownerId, store.slot, Some(Record(Completed, ownerId, requestHash, Some(response))))
            else
              Replaces(last, ownerId, store.slot, None))
        && store.left == old(store.left) + run.left + [store.slot]
      case Replay(response) =>
        reply == Cached(response.(statusCode := if response.statusCode == 0 then 200 else response.statusCode))
        && store.left == old(store.left) + run.left
      case _ => reply == Refused(run.result) && store.left == old(store.left) + run.left
  {
    runs := 0;
    if Mutating(verb) {
      if key.None? || key.value == "" {
        return BadRequest, 0;
      }
    } else {
      return Direct, 1;
    }
    if !merchant {
      return Direct, 1;
    }
    hide Rest;
    var checkResult := Check(store, ownerId, requestHash);
    match checkResult {
      case Replay(response) =>
        var statusCode := if response.statusCode == 0 then 200 else response.statusCode;
        reply := Cached(response.(statusCode := statusCode));
      case Miss =>
        runs := 1;
        reply := Handler;
        if handled.Answered? && handled.statusCode < 500 {
          var headersToCache := HeadersToCache(handled.headers);
          var body := if handled.body.Absent? then Empty else handled.body;
          var response := Response(handled.statusCode, headersToCache, if body.Falsy? then Empty else body);
          var _ := store.MarkCompleted(ownerId, requestHash, response);
          assert Reproduces(response, handled);
        } else {
          var _ := store.Delete(ownerId);
        }
      case _ =>
        reply := Refused(checkResult);
    }
  }
}
