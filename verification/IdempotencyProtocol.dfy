/** Any number of gateways sharing the idempotency record of one (merchant, key) pair.

    Each request draws a fresh owner id, goes through the commands of `check`, runs its handler if it
    acquired the lock, and then issues one command: complete or delete. The commands of different
    requests interleave freely, the record can expire at any moment, and a request can stop anywhere:
    its next step is simply never taken. A command that throws is one after which the request stops, its
    step taken or not. */
module IdempotencyProtocol {
  import opened IdempotencyService
  import opened RedisLock
  import opened Wrappers
  import Sets

  datatype Phase =
    | Checking(pc: CheckPc)
    | Running                          // acquired the lock; the handler has not returned
    | Completing(response: Response)   // the handler answered below 500; complete is next
    | Cleaning                         // it answered 500 or above, or threw; cleanup is next
    | Settled

  datatype Client = Client(hash: Hash, phase: Phase)

  /** What happens to the record, and what the requests are told. */
  datatype Event =
    | Acquired(owner: OwnerId, hash: Hash)
    | Stored(owner: OwnerId, hash: Hash, response: Response)
    | Released(owner: OwnerId)
    | Expired
    | Replayed(hash: Hash, response: Response)
    | RefusedBusy(hash: Hash)        // 409
    | RefusedMismatch(hash: Hash)    // 422
    | GaveUp                         // 500 from check

  /** `won` are the requests whose handler answered below 500, `lost` those whose record expired, and
      `answers` what each handler that has ended did. */
  datatype State = State(
    slot: Slot,
    clients: map<OwnerId, Client>,
    won: set<OwnerId>,
    lost: set<OwnerId>,
    answers: map<OwnerId, Handled>,
    log: seq<Event>)

  datatype Action =
    | Begin(owner: OwnerId, hash: Hash)
    | Check(owner: OwnerId)
    | Finish(owner: OwnerId, handled: Handled, headers: map<string, string>)
    | Close(owner: OwnerId)
    | Expire

  const Initial := State(None, map[], {}, {}, map[], [])

  ghost predicate Enabled(s: State, a: Action) {
    match a
    case Begin(o, _) => o !in s.clients
    case Check(o) => o in s.clients && s.clients[o].phase.Checking? && !s.clients[o].phase.pc.Over?
    case Finish(o, handled, headers) =>
      && o in s.clients && s.clients[o].phase.Running?
      && (handled.Answered? ==> CachesExactly(handled.headers, headers))
    case Close(o) => o in s.clients && (s.clients[o].phase.Completing? || s.clients[o].phase.Cleaning?)
    case Expire => s.slot.Some?
  }

  function Says(pc: CheckPc, owner: OwnerId, hash: Hash): seq<Event> {
    if !pc.Over? then []
    else
      match pc.result
      case Miss => [Acquired(owner, hash)]
      case Replay(response) => [Replayed(hash, response)]
      case Conflict => [RefusedBusy(hash)]
      case Mismatch => [RefusedMismatch(hash)]
      case Unable => [GaveUp]
      case Failed => []
  }

  predicate Succeeded(handled: Handled) {
    handled.Answered? && handled.statusCode < 500
  }

  function Apply(s: State, a: Action): State {
    match a
    case Begin(o, hash) => s.(clients := s.clients[o := Client(hash, Checking(Nx1))])
    case Check(o) => if o in s.clients && s.clients[o].phase.Checking? then Checked(s, o) else s
    case Finish(o, handled, headers) =>
      if o !in s.clients then s
      else if Succeeded(handled) then
        var response := Response(handled.statusCode, headers, StoredBody(handled.body));
        s.(clients := s.clients[o := s.clients[o].(phase := Completing(response))], won := s.won + {o},
           answers := s.answers[o := handled])
      else s.(clients := s.clients[o := s.clients[o].(phase := Cleaning)], answers := s.answers[o := handled])
    case Close(o) => if o in s.clients then Closed(s, o) else s
    case Expire => if s.slot.Some? then Gone(s) else s
  }

  function Checked(s: State, o: OwnerId): State
    requires o in s.clients && s.clients[o].phase.Checking?
  {
    var c := s.clients[o];
    var (pc, slot) := CheckStep(c.phase.pc, s.slot, o, c.hash);
    s.(slot := slot,
       clients := s.clients[o := c.(phase := if pc == Over(Miss) then Running else Checking(pc))],
       log := s.log + Says(pc, o, c.hash))
  }

  function Closed(s: State, o: OwnerId): State
    requires o in s.clients
  {
    var c := s.clients[o];
    var settled := s.(clients := s.clients[o := c.(phase := Settled)]);
    match c.phase
    case Completing(response) =>
      settled.(slot := SetIfOwner(s.slot, o, CompletedRecord(o, c.hash, response)),
               log := if Owns(s.slot, o) then s.log + [Stored(o, c.hash, response)] else s.log)
    case _ =>
      settled.(slot := DeleteIfOwner(s.slot, o),
               log := if Owns(s.slot, o) then s.log + [Released(o)] else s.log)
  }

  function Gone(s: State): State
    requires s.slot.Some?
  {
    s.(slot := None, lost := s.lost + {s.slot.value.ownerId}, log := s.log + [Expired])
  }

  ghost predicate Legal(s: State, acts: seq<Action>)
    decreases |acts|
  {
    |acts| == 0 || (Enabled(s, acts[0]) && Legal(Apply(s, acts[0]), acts[1..]))
  }

  ghost function Exec(s: State, acts: seq<Action>): State
    requires Legal(s, acts)
    decreases |acts|
  {
    if |acts| == 0 then s else Exec(Apply(s, acts[0]), acts[1..])
  }

  ghost predicate Reachable(s: State) {
    exists acts :: Legal(Initial, acts) && Exec(Initial, acts) == s
  }

  /* ---- The specification: one atomic lock that keeps a response until it expires ---- */

  datatype Lock = Free | Held(owner: OwnerId, hash: Hash) | Kept(owner: OwnerId, hash: Hash, response: Response)

  /** The state an event leaves the lock in; None when the lock does not allow the event. */
  function Next(lock: Lock, e: Event): Option<Lock> {
    match e
    case Acquired(o, h) => if lock.Free? then Some(Held(o, h)) else None
    case Stored(o, h, r) => if lock == Held(o, h) then Some(Kept(o, h, r)) else None
    case Released(o) => if lock.Held? && lock.owner == o then Some(Free) else None
    case Expired => if lock.Free? then None else Some(Free)
    case Replayed(h, r) => if lock.Kept? && lock.hash == h && lock.response == r then Some(lock) else None
    case RefusedBusy(h) => if lock.Held? && lock.hash == h then Some(lock) else None
    case RefusedMismatch(h) => if !lock.Free? && lock.hash != h then Some(lock) else None
    case GaveUp => Some(lock)
  }

  /** The lock after a whole log; None if the lock does not allow some event of the log. */
  function Follow(log: seq<Event>): Option<Lock> {
    if |log| == 0 then Some(Free)
    else
      var before := Follow(log[..|log| - 1]);
      if before.None? then None else Next(before.value, log[|log| - 1])
  }

  lemma FollowOne(log: seq<Event>, e: Event)
    requires Follow(log).Some?
    ensures Follow(log + [e]) == Next(Follow(log).value, e)
  {
    assert (log + [e])[..|log|] == log;
  }

  /* ---- The invariant ---- */

  /** The lock a stored record stands for. */
  function Abs(slot: Slot): Lock {
    if slot.None? then Free
    else if slot.value.response.None? then Held(slot.value.ownerId, slot.value.requestHash)
    else Kept(slot.value.ownerId, slot.value.requestHash, slot.value.response.value)
  }

  predicate ClientOk(s: State, o: OwnerId)
    requires o in s.clients
  {
    match s.clients[o].phase
    case Checking(pc) => !Owns(s.slot, o) && o !in s.won && o !in s.lost
    case Running => o !in s.won && (Owns(s.slot, o) != (o in s.lost))
    case Completing(_) => o in s.won && (Owns(s.slot, o) != (o in s.lost))
    case Cleaning => o !in s.won && (Owns(s.slot, o) != (o in s.lost))
    case Settled =>
      && (Owns(s.slot, o) ==> s.slot.value.status.Completed?)
      && !(Owns(s.slot, o) && o in s.lost)
      && (o in s.won ==> Owns(s.slot, o) || o in s.lost)
  }

  predicate RecordOk(s: State, r: Record) {
    && r.ownerId in s.clients && r.requestHash == s.clients[r.ownerId].hash
    && (r.status.Completed? <==> r.response.Some?)
    && (r.status.Completed? ==> s.clients[r.ownerId].phase.Settled?)
  }

  ghost predicate Inv(s: State) {
    && (s.slot.Some? ==> RecordOk(s, s.slot.value))
    && (forall o :: o in s.clients ==> ClientOk(s, o))
    && s.won <= s.clients.Keys && s.lost <= s.clients.Keys
    && Follow(s.log) == Some(Abs(s.slot))
  }

  lemma InvCheck(s: State, o: OwnerId)
    requires Inv(s) && Enabled(s, Check(o))
    ensures Inv(Apply(s, Check(o)))
  {
    hide Follow;
    var s' := Apply(s, Check(o));
    var c := s.clients[o];
    var pc := CheckStep(c.phase.pc, s.slot, o, c.hash).0;
    assert ClientOk(s, o);
    if |Says(pc, o, c.hash)| > 0 {
      FollowOne(s.log, Says(pc, o, c.hash)[0]);
      assert Says(pc, o, c.hash) == [Says(pc, o, c.hash)[0]];
    } else {
      assert s'.log == s.log;
    }
    forall x | x in s'.clients ensures ClientOk(s', x) {
      assert ClientOk(s, x);
    }
  }

  lemma InvClose(s: State, o: OwnerId)
    requires Inv(s) && Enabled(s, Close(o))
    ensures Inv(Apply(s, Close(o)))
  {
    hide Follow;
    var s' := Apply(s, Close(o));
    assert ClientOk(s, o);
    if Owns(s.slot, o) {
      FollowOne(s.log, s'.log[|s.log|]);
      assert s'.log == s.log + [s'.log[|s.log|]];
    }
    forall x | x in s'.clients ensures ClientOk(s', x) {
      assert ClientOk(s, x);
    }
  }

  lemma InvExpire(s: State)
    requires Inv(s) && Enabled(s, Expire)
    ensures Inv(Apply(s, Expire))
  {
    hide Follow;
    var s' := Apply(s, Expire);
    FollowOne(s.log, Expired);
    forall x | x in s'.clients ensures ClientOk(s', x) {
      assert ClientOk(s, x);
    }
  }

  lemma InvStep(s: State, a: Action)
    requires Inv(s) && Enabled(s, a)
    ensures Inv(Apply(s, a))
  {
    hide Follow;
    match a
    case Check(o) => InvCheck(s, o);
    case Close(o) => InvClose(s, o);
    case Expire => InvExpire(s);
    case Begin(o, _) =>
      forall x | x in s.clients ensures ClientOk(Apply(s, a), x) {
        assert ClientOk(s, x);
      }
    case Finish(o, _, _) =>
      assert ClientOk(s, o);
      forall x | x in s.clients ensures ClientOk(Apply(s, a), x) {
        assert ClientOk(s, x);
      }
  }

  lemma {:induction false} InvRun(s: State, acts: seq<Action>)
    requires Inv(s) && Legal(s, acts)
    ensures Inv(Exec(s, acts))
    decreases |acts|
  {
    if |acts| > 0 {
      InvStep(s, acts[0]);
      InvRun(Apply(s, acts[0]), acts[1..]);
    }
  }

  lemma ReachableInv(s: State)
    requires Reachable(s)
    ensures Inv(s)
  {
    var acts :| Legal(Initial, acts) && Exec(Initial, acts) == s;
    InvRun(Initial, acts);
  }

  /* ---- Results ---- */

  /** Refinement: in every run, what happens to the record and what requests are told is a history of
      the atomic lock, which stands where the stored record says. */
  lemma RefinesLock(s: State)
    requires Reachable(s)
    ensures Follow(s.log) == Some(Abs(s.slot))
  {
    ReachableInv(s);
  }

  /** A request whose record expired cannot overwrite or delete whatever is there now. */
  lemma StaleOwnerIsHarmless(s: State, o: OwnerId)
    requires Reachable(s) && o in s.lost && Enabled(s, Close(o))
    ensures Apply(s, Close(o)).slot == s.slot && Apply(s, Close(o)).log == s.log
  {
    ReachableInv(s);
    assert ClientOk(s, o);
  }

  /** No two handlers run at once unless one of them has outlived its record. */
  lemma HandlersExclude(s: State, o: OwnerId, p: OwnerId)
    requires Reachable(s) && o in s.clients && p in s.clients && o != p
    requires s.clients[o].phase.Running? && s.clients[p].phase.Running?
    ensures o in s.lost || p in s.lost
  {
    ReachableInv(s);
    assert ClientOk(s, o) && ClientOk(s, p);
  }

  lemma {:induction false} ExecConcat(s: State, first: seq<Action>, next: seq<Action>)
    requires Legal(s, first) && Legal(Exec(s, first), next)
    ensures Legal(s, first + next) && Exec(s, first + next) == Exec(Exec(s, first), next)
    decreases |first|
  {
    hide Apply, Enabled;
    if |first| == 0 {
      assert first + next == next;
    } else {
      ExecConcat(Apply(s, first[0]), first[1..], next);
      assert (first + next)[1..] == first[1..] + next && (first + next)[0] == first[0];
    }
  }

  lemma OneStep(s: State, a: Action)
    requires Enabled(s, a)
    ensures Legal(s, [a]) && Exec(s, [a]) == Apply(s, a)
  {
    assert [a][1..] == [] && Legal(Apply(s, a), []);
  }

  predicate HandlerRuns(s: State, o: OwnerId) {
    o in s.clients && s.clients[o].phase.Running?
  }

  /** A request that was not running its handler has come to run it beside `o`, whose record has not
      expired in between. */
  ghost predicate Joins(s: State, o: OwnerId, acts: seq<Action>, p: OwnerId) {
    && Legal(s, acts) && p != o && !HandlerRuns(s, p)
    && HandlerRuns(Exec(s, acts), o) && HandlerRuns(Exec(s, acts), p)
    && (o in Exec(s, acts).lost ==> o in s.lost)
  }

  /** Beside a handler that has outlived its record, any new request can get the lock. */
  lemma OutlivedIsJoined(s: State, o: OwnerId, p: OwnerId) returns (acts: seq<Action>)
    requires Reachable(s) && HandlerRuns(s, o) && o in s.lost && p !in s.clients
    ensures Joins(s, o, acts, p)
  {
    ReachableInv(s);
    assert ClientOk(s, o);
    acts := [];
    var t := s;
    if s.slot.Some? {
      OneStep(s, Expire);
      acts, t := [Expire], Apply(s, Expire);
    }
    var hash := s.clients[o].hash;
    OneStep(t, Begin(p, hash));
    ExecConcat(s, acts, [Begin(p, hash)]);
    acts, t := acts + [Begin(p, hash)], Apply(t, Begin(p, hash));
    OneStep(t, Check(p));
    ExecConcat(s, acts, [Check(p)]);
    acts := acts + [Check(p)];
  }

  /** A handler that has ended never runs again, and an expired record stays expired. */
  lemma {:induction false} EndedStays(s: State, acts: seq<Action>, o: OwnerId)
    requires Legal(s, acts) && o in s.clients
    ensures o in Exec(s, acts).clients
    ensures o in s.lost ==> o in Exec(s, acts).lost
    ensures !s.clients[o].phase.Checking? && !HandlerRuns(s, o) ==> !HandlerRuns(Exec(s, acts), o)
    decreases |acts|
  {
    if |acts| > 0 {
      EndedStays(Apply(s, acts[0]), acts[1..], o);
    }
  }

  /** Beside a handler that still owns its record no other comes to run. */
  lemma {:induction false} OwnerIsNotJoined(s: State, acts: seq<Action>, o: OwnerId, p: OwnerId)
    requires Inv(s) && Legal(s, acts) && p != o && HandlerRuns(s, o) && o !in s.lost && !HandlerRuns(s, p)
    ensures !HandlerRuns(Exec(s, acts), o) || o in Exec(s, acts).lost || !HandlerRuns(Exec(s, acts), p)
    decreases |acts|
  {
    if |acts| > 0 {
      var s' := Apply(s, acts[0]);
      assert ClientOk(s, o);
      InvStep(s, acts[0]);
      EndedStays(s', acts[1..], o);
      assert !HandlerRuns(s', p);
      hide Apply, Enabled, Inv;
      if HandlerRuns(s', o) && o !in s'.lost {
        OwnerIsNotJoined(s', acts[1..], o, p);
      }
    }
  }

  /** Another handler can join a running one, whose own record does not expire meanwhile, exactly when
      that record has already expired. */
  lemma JoinsIffOutlived(s: State, o: OwnerId)
    requires Reachable(s) && HandlerRuns(s, o)
    ensures (exists acts, p :: Joins(s, o, acts, p)) <==> o in s.lost
  {
    ReachableInv(s);
    if o in s.lost {
      var p := Sets.FreshNumber(s.clients.Keys);
      var acts := OutlivedIsJoined(s, o, p);
    } else {
      forall acts, p ensures !Joins(s, o, acts, p) {
        if Joins(s, o, acts, p) {
          OwnerIsNotJoined(s, acts, o, p);
        }
      }
    }
  }

  /** And there are such handlers: the first request of all, once its record has expired. */
  lemma HandlerOutlives(hash: Hash) returns (s: State, o: OwnerId)
    ensures Reachable(s) && HandlerRuns(s, o) && o in s.lost
  {
    o := 0;
    var s1 := Apply(Initial, Begin(o, hash));
    var s2 := Apply(s1, Check(o));
    s := Apply(s2, Expire);
    OneStep(Initial, Begin(o, hash));
    OneStep(s1, Check(o));
    OneStep(s2, Expire);
    ExecConcat(Initial, [Begin(o, hash)], [Check(o)]);
    ExecConcat(Initial, [Begin(o, hash)] + [Check(o)], [Expire]);
  }

  /** Over a whole run, the requests whose handler succeeded number at most one more than those whose
      record expired: with no expiry, at most one success ever. */
  lemma SuccessesBounded(s: State)
    requires Reachable(s)
    ensures |s.won| <= 1 + |s.lost|
    ensures forall o, p :: o in s.won && p in s.won && o != p ==> o in s.lost || p in s.lost
  {
    ReachableInv(s);
    forall o | o in s.won ensures Owns(s.slot, o) || o in s.lost {
      assert ClientOk(s, o);
    }
    Sets.SubsetSize(s.won, s.lost + if s.slot.Some? then {s.slot.value.ownerId} else {});
  }

  /* ---- What a history of the lock guarantees ---- */

  lemma {:induction false} FollowPrefix(log: seq<Event>, n: nat)
    requires Follow(log).Some? && n <= |log|
    ensures Follow(log[..n]).Some?
    decreases |log|
  {
    if n < |log| {
      FollowPrefix(log[..|log| - 1], n);
      assert log[..|log| - 1][..n] == log[..n];
    } else {
      assert log[..n] == log;
    }
  }

  lemma FollowAt(log: seq<Event>, n: nat)
    requires Follow(log).Some? && n < |log|
    ensures Follow(log[..n]).Some? && Follow(log[..n + 1]).Some?
    ensures Next(Follow(log[..n]).value, log[n]) == Follow(log[..n + 1])
  {
    FollowPrefix(log, n);
    FollowPrefix(log, n + 1);
    assert log[..n + 1] == log[..n] + [log[n]];
    FollowOne(log[..n], log[n]);
  }

  /** A stored response stays until the record expires. */
  lemma {:induction false} KeptUntilExpiry(log: seq<Event>, i: nat, n: nat)
    requires Follow(log).Some? && i < n <= |log| && log[i].Stored?
    requires forall k :: i < k < n ==> !log[k].Expired?
    ensures Follow(log[..n]) == Some(Kept(log[i].owner, log[i].hash, log[i].response))
    decreases n
  {
    FollowAt(log, n - 1);
    if n - 1 > i {
      KeptUntilExpiry(log, i, n - 1);
    }
  }

  /** One outcome per lifetime: from the moment a response is stored until the record expires, no
      request acquires the lock or stores another response, and every replay is of that response, to
      the same request hash. */
  lemma OneOutcomePerLifetime(s: State, i: nat, j: nat)
    requires Reachable(s) && i < j < |s.log| && s.log[i].Stored?
    requires forall k :: i < k < j ==> !s.log[k].Expired?
    ensures !s.log[j].Acquired? && !s.log[j].Stored? && !s.log[j].Released? && !s.log[j].RefusedBusy?
    ensures s.log[j].Replayed? ==> s.log[j].hash == s.log[i].hash && s.log[j].response == s.log[i].response
    ensures s.log[j].RefusedMismatch? ==> s.log[j].hash != s.log[i].hash
  {
    RefinesLock(s);
    KeptUntilExpiry(s.log, i, j);
    FollowAt(s.log, j);
  }

  /** Where a lock that is not free comes from. */
  lemma {:induction false} Origin(log: seq<Event>) returns (i: nat)
    requires Follow(log).Some? && !Follow(log).value.Free?
    ensures i < |log| && (forall k :: i < k < |log| ==> !log[k].Expired?)
    ensures var lock := Follow(log).value;
      log[i] == if lock.Held? then Acquired(lock.owner, lock.hash) else Stored(lock.owner, lock.hash, lock.response)
  {
    var n := |log| - 1;
    FollowAt(log, n);
    assert log[..n + 1] == log;
    if log[n].Acquired? || log[n].Stored? {
      i := n;
    } else {
      i := Origin(log[..n]);
    }
  }

  /** Every replay is of a response that the owner of the same lifetime stored, for the same hash. */
  lemma ReplaysWhatWasStored(s: State, j: nat) returns (i: nat)
    requires Reachable(s) && j < |s.log| && s.log[j].Replayed?
    ensures i < j && s.log[i].Stored? && s.log[i].hash == s.log[j].hash && s.log[i].response == s.log[j].response
    ensures forall k :: i < k < j ==> !s.log[k].Expired?
  {
    RefinesLock(s);
    FollowAt(s.log, j);
    i := Origin(s.log[..j]);
  }

  /** Every stored response is that of the request that acquired the lock last. */
  lemma StoredByItsOwner(s: State, j: nat) returns (i: nat)
    requires Reachable(s) && j < |s.log| && s.log[j].Stored?
    ensures i < j && s.log[i] == Acquired(s.log[j].owner, s.log[j].hash)
    ensures forall k :: i < k < j ==> !s.log[k].Expired?
  {
    RefinesLock(s);
    FollowAt(s.log, j);
    i := Origin(s.log[..j]);
  }

  /* ---- Whose answer a replay is ---- */

  ghost predicate ClientAnswers(s: State, o: OwnerId)
    requires o in s.clients
  {
    match s.clients[o].phase
    case Checking(_) => o !in s.answers
    case Running => o !in s.answers
    case Completing(response) => o in s.answers && Reproduces(response, s.answers[o])
    case _ => true
  }

  ghost predicate EventAnswers(s: State, e: Event) {
    e.Stored? ==> e.owner in s.answers && Reproduces(e.response, s.answers[e.owner])
  }

  ghost predicate InvAnswers(s: State) {
    && s.answers.Keys <= s.clients.Keys
    && (forall o :: o in s.clients ==> ClientAnswers(s, o))
    && (forall j :: 0 <= j < |s.log| ==> EventAnswers(s, s.log[j]))
  }

  lemma AnswersStep(s: State, a: Action)
    requires InvAnswers(s) && Enabled(s, a)
    ensures InvAnswers(Apply(s, a))
  {
    hide Reproduces, CachesExactly;
    var s' := Apply(s, a);
    if a.Finish? && Succeeded(a.handled) {
      FinishReproduces(a.handled, a.headers);
    }
    assert a.Check? || a.Close? || a.Finish? ==> ClientAnswers(s, a.owner);
    forall o | o in s'.clients ensures ClientAnswers(s', o) {
      assert o in s.clients ==> ClientAnswers(s, o);
    }
    forall j | 0 <= j < |s'.log| ensures EventAnswers(s', s'.log[j]) {
      if j < |s.log| {
        assert EventAnswers(s, s.log[j]) && s'.log[j] == s.log[j];
        assert a.Finish? ==> a.owner !in s.answers;
      }
    }
  }

  lemma FinishReproduces(handled: Handled, headers: map<string, string>)
    requires Succeeded(handled) && CachesExactly(handled.headers, headers)
    ensures Reproduces(Response(handled.statusCode, headers, StoredBody(handled.body)), handled)
  {
  }

  lemma {:induction false} AnswersRun(s: State, acts: seq<Action>)
    requires InvAnswers(s) && Legal(s, acts)
    ensures InvAnswers(Exec(s, acts))
    decreases |acts|
  {
    hide InvAnswers, Enabled, Apply;
    if |acts| > 0 {
      AnswersStep(s, acts[0]);
      AnswersRun(Apply(s, acts[0]), acts[1..]);
    }
  }

  /** Every replay is the answer of the handler of the request that acquired the lock in the same lifetime,
      with the same hash: its status, its cacheable headers and its body. */
  lemma ReplaysTheHandlersAnswer(s: State, k: nat) returns (i: nat, j: nat)
    requires Reachable(s) && k < |s.log| && s.log[k].Replayed?
    ensures i < j < k && s.log[i].Acquired? && s.log[i].hash == s.log[k].hash
    ensures s.log[j] == Stored(s.log[i].owner, s.log[k].hash, s.log[k].response)
    ensures forall n :: i < n < k ==> !s.log[n].Expired?
    ensures s.log[i].owner in s.answers && Reproduces(s.log[k].response, s.answers[s.log[i].owner])
  {
    j := ReplaysWhatWasStored(s, k);
    i := StoredByItsOwner(s, j);
    var acts :| Legal(Initial, acts) && Exec(Initial, acts) == s;
    AnswersRun(Initial, acts);
    assert EventAnswers(s, s.log[j]);
  }

  /** The promise to a client that retries: once a handler that has kept its lock has completed, a new
      request with the same body is answered with that handler's answer, and one with another body is
      refused. */
  lemma RetryIsAnswered(s: State, o: OwnerId, p: OwnerId, hash: Hash) returns (acts: seq<Action>)
    requires Reachable(s) && o in s.clients && s.clients[o].phase.Completing? && o !in s.lost && p !in s.clients
    ensures Legal(s, acts)
    ensures var c := s.clients[o];
      var response := c.phase.response;
      && o in s.answers && Reproduces(response, s.answers[o])
      && Exec(s, acts).log == s.log + [Stored(o, c.hash, response)]
           + [if hash == c.hash then Replayed(hash, response) else RefusedMismatch(hash)]
  {
    ReachableInv(s);
    assert ClientOk(s, o) && ClientAnswers(s, o) by {
      var before :| Legal(Initial, before) && Exec(Initial, before) == s;
      AnswersRun(Initial, before);
    }
    hide Inv, InvAnswers, Reproduces, Reachable;
    var t := Apply(s, Close(o));
    assert t.slot == Some(CompletedRecord(o, s.clients[o].hash, s.clients[o].phase.response));
    OneStep(s, Close(o));
    acts := [Close(o)];
    OneStep(t, Begin(p, hash));
    ExecConcat(s, acts, [Begin(p, hash)]);
    acts, t := acts + [Begin(p, hash)], Apply(t, Begin(p, hash));
    OneStep(t, Check(p));
    ExecConcat(s, acts, [Check(p)]);
    acts, t := acts + [Check(p)], Apply(t, Check(p));
    assert t.clients[p].phase == Checking(Get1);
    OneStep(t, Check(p));
    ExecConcat(s, acts, [Check(p)]);
    acts := acts + [Check(p)];
  }

  /** And after a failure: once a handler that has kept its lock has cleaned up, the next request runs. */
  lemma FailureIsRetried(s: State, o: OwnerId, p: OwnerId, hash: Hash) returns (acts: seq<Action>)
    requires Reachable(s) && o in s.clients && s.clients[o].phase.Cleaning? && o !in s.lost && p !in s.clients
    ensures Legal(s, acts)
    ensures HandlerRuns(Exec(s, acts), p) && Exec(s, acts).log == s.log + [Released(o)] + [Acquired(p, hash)]
  {
    ReachableInv(s);
    assert ClientOk(s, o);
    hide Inv, Reachable;
    var t := Apply(s, Close(o));
    assert t.slot == None;
    OneStep(s, Close(o));
    acts := [Close(o)];
    OneStep(t, Begin(p, hash));
    ExecConcat(s, acts, [Begin(p, hash)]);
    acts, t := acts + [Begin(p, hash)], Apply(t, Begin(p, hash));
    OneStep(t, Check(p));
    ExecConcat(s, acts, [Check(p)]);
    acts := acts + [Check(p)];
  }
}
