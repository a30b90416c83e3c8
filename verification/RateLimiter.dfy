/** The sliding-window rate limiter
    (apps/gateway/src/rate-limit/redis-rate-limit.repository.ts, rate-limit.middleware.ts). */
module RateLimiter {
  import opened Wrappers
  import Sets

  datatype RequestId = RequestId(text: string)

  /** A Redis sorted set with its expiry. A key that holds no member does not exist. */
  datatype Key = Key(members: map<RequestId, int>, expiresAt: int)

  datatype Decision = Decision(allowed: bool, remaining: int, resetTime: int)

  datatype Outcome = Outcome(decision: Decision, key: Option<Key>)

  /** Redis drops a key whose time to live has run out before any command sees it. */
  function Live(key: Option<Key>, now: int): Option<Key> {
    if key.Some? && now > key.value.expiresAt then None else key
  }

  /** What `zremrangebyscore -inf before` leaves. */
  function Cleaned(members: map<RequestId, int>, before: int): map<RequestId, int> {
    map id | id in members && members[id] > before :: members[id]
  }

  function Members(key: Option<Key>): map<RequestId, int> {
    if key.None? then map[] else key.value.members
  }

  ghost predicate IsOldest(members: map<RequestId, int>, score: int) {
    && (exists id :: id in members && members[id] == score)
    && (forall id :: id in members ==> score <= members[id])
  }

  lemma {:induction false} OldestExists(members: map<RequestId, int>)
    requires members.Keys != {}
    ensures exists score :: IsOldest(members, score)
    decreases |members.Keys|
  {
    var x :| x in members;
    var rest := members - {x};
    assert forall y :: y in members ==> y == x || y in rest;
    if rest.Keys == {} {
      assert IsOldest(members, members[x]);
    } else {
      OldestExists(rest);
      var least :| IsOldest(rest, least);
      if members[x] <= least {
        assert IsOldest(members, members[x]);
      } else {
        var y :| y in rest && rest[y] == least;
        assert y in members && members[y] == least;
        assert IsOldest(members, least);
      }
    }
  }

  ghost function Oldest(members: map<RequestId, int>): (score: int)
    requires members.Keys != {}
    ensures IsOldest(members, score)
  {
    OldestExists(members);
    var score :| IsOldest(members, score);
    score
  }

  /** The script, as a function of the sorted set it finds. */
  ghost function ScriptOn(found: Option<Key>, now: int, window: int, limit: int, id: RequestId): Outcome {
    var kept := Cleaned(Members(found), now - window);
    var allowed := |kept| < limit;
    var members := if allowed then kept[id := now] else kept;
    var expiresAt := if allowed then now + window else if found.Some? then found.value.expiresAt else now;
    var amount := if allowed then |kept| + 1 else |kept|;
    Outcome(
      Decision(allowed, limit - amount, if members.Keys == {} then now + window else Oldest(members) + window),
      if members.Keys == {} then None else Some(Key(members, expiresAt)))
  }

  ghost function Script(key: Option<Key>, now: int, window: int, limit: int, id: RequestId): Outcome {
    ScriptOn(Live(key, now), now, window, limit, id)
  }

  /** `zrange key 0 0 WITHSCORES`: the smallest score of a non-empty set. */
  method Zrange(members: map<RequestId, int>) returns (score: int)
    requires members.Keys != {}
    ensures score == Oldest(members)
  {
    OldestExists(members);
    var id :| id in members && forall x :: x in members ==> members[id] <= members[x];
    score := members[id];
  }

  /** The script itself. */
  method Eval(found: Option<Key>, now: int, window: int, limit: int, requestId: RequestId)
    returns (r: Decision, key: Option<Key>)
    ensures Outcome(r, key) == ScriptOn(found, now, window, limit, requestId)
  {
    var clearBefore := now - window;
    var zset := Members(found);
    zset := Cleaned(zset, clearBefore);
    hide Cleaned, IsOldest;
    var expiresAt := if found.Some? then found.value.expiresAt else now;
    var amount := |zset|;
    var allowed := 0;
    if amount < limit {
      zset := zset[requestId := now];
      expiresAt := now + window;
      allowed := 1;
      amount := amount + 1;
    }
    var resetTime := now + window;
    key := None;
    if zset.Keys != {} {
      var oldest := Zrange(zset);
      resetTime := oldest + window;
      key := Some(Key(zset, expiresAt));
    }
    r := Decision(allowed == 1, limit - amount, resetTime);
  }

  /** The keyspace of the limiter, one key per merchant. */
  class Repository {
    var keys: map<string, Key>

    constructor ()
      ensures keys == map[]
    {
      keys := map[];
    }

    function Get(merchant: string): Option<Key>
      reads this
    {
      if merchant in keys then Some(keys[merchant]) else None
    }

    method CheckRateLimit(merchant: string, limit: int, windowSeconds: int, requestId: RequestId, now: int)
      returns (r: Decision)
      modifies this
      ensures Outcome(r, Get(merchant)) == Script(old(Get(merchant)), now, windowSeconds * 1000, limit, requestId)
      ensures keys - {merchant} == old(keys) - {merchant}
    {
      hide ScriptOn;
      ghost var stored := Get(merchant);
      if merchant in keys && now > keys[merchant].expiresAt {
        keys := keys - {merchant};
      }
      assert Get(merchant) == Live(stored, now);
      var key;
      r, key := Eval(Get(merchant), now, windowSeconds * 1000, limit, requestId);
      keys := match key
        case None => keys - {merchant}
        case Some(k) => keys[merchant := k];
    }
  }

  /* ---- The naive specification ---- */

  /** A request: when it was made and its id. */
  datatype Request = Request(time: int, id: RequestId)

  /** The ids accepted after `cutoff`. */
  ghost function AcceptedSince(history: seq<Request>, cutoff: int): set<RequestId> {
    set i | 0 <= i < |history| && history[i].time > cutoff :: history[i].id
  }

  ghost predicate Chronological(reqs: seq<Request>) {
    forall i, j :: 0 <= i < j < |reqs| ==> reqs[i].time <= reqs[j].time
  }

  /** Fewer than `limit` ids accepted in the window that ends now. */
  ghost predicate NaiveAllows(history: seq<Request>, req: Request, window: int, limit: int) {
    |AcceptedSince(history, req.time - window)| < limit
  }

  ghost function NaiveHistory(history: seq<Request>, reqs: seq<Request>, window: int, limit: int): seq<Request>
    decreases |reqs|
  {
    if |reqs| == 0 then history
    else NaiveHistory(if NaiveAllows(history, reqs[0], window, limit) then history + [reqs[0]] else history,
                      reqs[1..], window, limit)
  }

  ghost function NaiveVerdicts(history: seq<Request>, reqs: seq<Request>, window: int, limit: int): seq<bool>
    decreases |reqs|
  {
    if |reqs| == 0 then []
    else
      var allows := NaiveAllows(history, reqs[0], window, limit);
      [allows] + NaiveVerdicts(if allows then history + [reqs[0]] else history, reqs[1..], window, limit)
  }

  ghost function ScriptVerdicts(key: Option<Key>, reqs: seq<Request>, window: int, limit: int): seq<bool>
    decreases |reqs|
  {
    if |reqs| == 0 then []
    else
      var run := Script(key, reqs[0].time, window, limit, reqs[0].id);
      [run.decision.allowed] + ScriptVerdicts(run.key, reqs[1..], window, limit)
  }

  ghost function ScriptKey(key: Option<Key>, reqs: seq<Request>, window: int, limit: int): Option<Key>
    decreases |reqs|
  {
    if |reqs| == 0 then key
    else ScriptKey(Script(key, reqs[0].time, window, limit, reqs[0].id).key, reqs[1..], window, limit)
  }

  /** When `id` was last accepted. */
  ghost predicate LastAccepted(history: seq<Request>, id: RequestId, time: int) {
    && (exists i :: 0 <= i < |history| && history[i] == Request(time, id))
    && (forall i :: 0 <= i < |history| && history[i].id == id ==> history[i].time <= time)
  }

  /** The stored set is the accepted history, less what had left the window when it was last touched:
      each member's score is its last acceptance, nothing accepted after `cleaned` is missing, and no
      member outlives the key's expiry. */
  ghost predicate Represents(key: Option<Key>, history: seq<Request>, cleaned: int, window: int) {
    var members := Members(key);
    && (forall id :: id in members ==> LastAccepted(history, id, members[id]))
    && (forall i :: 0 <= i < |history| && history[i].time > cleaned ==> history[i].id in members)
    && (key.Some? ==> forall id :: id in members ==> members[id] <= key.value.expiresAt - window)
  }

  /** Dropping an expired key drops nothing that still counts. */
  lemma LiveRepresents(key: Option<Key>, history: seq<Request>, cleaned: int, window: int, now: int)
    requires Represents(key, history, cleaned, window) && cleaned <= now - window
    ensures Represents(Live(key, now), history, now - window, window)
  {
    if key.Some? && now > key.value.expiresAt {
      forall i | 0 <= i < |history| && history[i].time > cleaned
        ensures history[i].time <= key.value.expiresAt - window
      {
        assert LastAccepted(history, history[i].id, Members(key)[history[i].id]);
      }
    }
  }

  /** What the script counts is what the specification counts. */
  lemma KeptIsAccepted(key: Option<Key>, history: seq<Request>, cleaned: int, window: int, now: int)
    requires Represents(key, history, cleaned, window) && cleaned <= now - window
    ensures Cleaned(Members(Live(key, now)), now - window).Keys == AcceptedSince(history, now - window)
  {
    LiveRepresents(key, history, cleaned, window, now);
    var members := Members(Live(key, now));
    var kept := Cleaned(members, now - window);
    forall id
      ensures id in kept <==> id in AcceptedSince(history, now - window)
    {
      if id in kept {
        assert LastAccepted(history, id, members[id]);
      }
      if id in AcceptedSince(history, now - window) {
        var i :| 0 <= i < |history| && history[i].time > now - window && history[i].id == id;
        assert id in members;
        assert LastAccepted(history, id, members[id]);
      }
    }
  }

  lemma RefinesStep(key: Option<Key>, history: seq<Request>, cleaned: int, window: int, limit: int, req: Request)
    requires Represents(key, history, cleaned, window) && cleaned <= req.time - window
    requires forall i :: 0 <= i < |history| ==> history[i].time <= req.time
    ensures var run := Script(key, req.time, window, limit, req.id);
      var allows := NaiveAllows(history, req, window, limit);
      && run.decision.allowed == allows
      && Represents(run.key, if allows then history + [req] else history, req.time - window, window)
  {
    hide Represents, AcceptedSince, Cleaned;
    KeptIsAccepted(key, history, cleaned, window, req.time);
    LiveRepresents(key, history, cleaned, window, req.time);
    var live := Live(key, req.time);
    SameSize(Cleaned(Members(live), req.time - window));
    if NaiveAllows(history, req, window, limit) {
      assert req.id in Cleaned(Members(live), req.time - window)[req.id := req.time];
      AcceptRepresents(live, history, window, req);
    } else {
      RefuseRepresents(live, history, window, req.time);
    }
  }

  /** A refusal cleans the set and leaves the expiry. */
  lemma RefuseRepresents(live: Option<Key>, history: seq<Request>, window: int, now: int)
    requires Represents(live, history, now - window, window)
    ensures var members := Cleaned(Members(live), now - window);
      && (live.Some? && members.Keys != {} ==>
            Represents(Some(Key(members, live.value.expiresAt)), history, now - window, window))
      && (members.Keys == {} ==> Represents(None, history, now - window, window))
      && (live.None? ==> members.Keys == {})
  {
    var members := Cleaned(Members(live), now - window);
    forall i | 0 <= i < |history| && history[i].time > now - window
      ensures history[i].id in members
    {
      assert LastAccepted(history, history[i].id, Members(live)[history[i].id]);
    }
  }

  lemma AcceptRepresents(live: Option<Key>, history: seq<Request>, window: int, req: Request)
    requires Represents(live, history, req.time - window, window)
    requires forall i :: 0 <= i < |history| ==> history[i].time <= req.time
    ensures var members := Cleaned(Members(live), req.time - window)[req.id := req.time];
      Represents(Some(Key(members, req.time + window)), history + [req], req.time - window, window)
  {
    var members := Cleaned(Members(live), req.time - window)[req.id := req.time];
    var longer := history + [req];
    forall id | id in members
      ensures LastAccepted(longer, id, members[id]) && members[id] <= req.time
    {
      if id == req.id {
        assert longer[|history|] == Request(req.time, id);
      } else {
        assert LastAccepted(history, id, members[id]);
        var i :| 0 <= i < |history| && history[i] == Request(members[id], id);
        assert longer[i] == Request(members[id], id);
      }
    }
    forall i | 0 <= i < |longer| && longer[i].time > req.time - window
      ensures longer[i].id in members
    {
      if i < |history| {
        assert history[i].id in Members(live);
        assert LastAccepted(history, history[i].id, Members(live)[history[i].id]);
      }
    }
  }

  lemma SameSize(m: map<RequestId, int>)
    ensures |m| == |m.Keys|
  {
  }

  /** Refinement, from any state the limiter can be in. */
  lemma {:induction false} RefinesFrom(key: Option<Key>, history: seq<Request>, cleaned: int, reqs: seq<Request>,
                                       window: int, limit: int)
    requires Represents(key, history, cleaned, window)
    requires Chronological(history + reqs) && (|reqs| > 0 ==> cleaned <= reqs[0].time - window)
    ensures ScriptVerdicts(key, reqs, window, limit) == NaiveVerdicts(history, reqs, window, limit)
    ensures Represents(ScriptKey(key, reqs, window, limit), NaiveHistory(history, reqs, window, limit),
                       if |reqs| == 0 then cleaned else reqs[|reqs| - 1].time - window, window)
    decreases |reqs|
  {
    hide Script, Represents, NaiveAllows;
    if |reqs| > 0 {
      var all := history + reqs;
      forall i | 0 <= i < |history|
        ensures history[i].time <= reqs[0].time
      {
        assert all[i] == history[i] && all[|history|] == reqs[0];
      }
      RefinesStep(key, history, cleaned, window, limit, reqs[0]);
      var run := Script(key, reqs[0].time, window, limit, reqs[0].id);
      var history' := if NaiveAllows(history, reqs[0], window, limit) then history + [reqs[0]] else history;
      assert |reqs| > 1 ==> all[|history| + 1] == reqs[1] && all[|history|] == reqs[0];
      StillChronological(history, reqs);
      RefinesFrom(run.key, history', reqs[0].time - window, reqs[1..], window, limit);
    }
  }

  lemma StillChronological(history: seq<Request>, reqs: seq<Request>)
    requires |reqs| > 0 && Chronological(history + reqs)
    ensures Chronological(history + [reqs[0]] + reqs[1..]) && Chronological(history + reqs[1..])
  {
    var all := history + reqs;
    assert history + [reqs[0]] + reqs[1..] == all;
    var skipped := history + reqs[1..];
    forall i, j | 0 <= i < j < |skipped|
      ensures skipped[i].time <= skipped[j].time
    {
      var i' := if i < |history| then i else i + 1;
      var j' := if j < |history| then j else j + 1;
      assert skipped[i] == all[i'] && skipped[j] == all[j'];
    }
  }

  lemma SinceAppend(front: seq<Request>, last: Request, cutoff: int)
    ensures AcceptedSince(front + [last], cutoff)
         == AcceptedSince(front, cutoff) + (if last.time > cutoff then {last.id} else {})
  {
    var all := front + [last];
    forall id
      ensures id in AcceptedSince(all, cutoff) <==>
        id in AcceptedSince(front, cutoff) || (last.time > cutoff && id == last.id)
    {
      if i :| 0 <= i < |front| && front[i].time > cutoff && front[i].id == id {
        assert all[i] == front[i];
      }
      if last.time > cutoff && id == last.id {
        assert all[|front|] == last;
      }
    }
  }

  /** The script with its expiring sorted set accepts exactly what the naive rule accepts: fewer than
      `limit` ids accepted in the last window. The ids may repeat. */
  lemma SlidingWindowRefinement(reqs: seq<Request>, window: int, limit: int)
    requires Chronological(reqs)
    ensures ScriptVerdicts(None, reqs, window, limit) == NaiveVerdicts([], reqs, window, limit)
  {
    if |reqs| > 0 {
      assert [] + reqs == reqs;
      RefinesFrom(None, [], reqs[0].time - window, reqs, window, limit);
    }
  }

  /* ---- Quota and reset time ---- */

  /** A key the script could have left, with this limit. */
  ghost predicate Sane(key: Option<Key>, limit: int, window: int) {
    key.Some? ==>
      && 0 < |key.value.members| <= limit
      && (forall id :: id in key.value.members ==> key.value.members[id] <= key.value.expiresAt - window)
  }

  lemma CleanedSize(members: map<RequestId, int>, before: int)
    ensures |Cleaned(members, before)| <= |members|
  {
    var kept := Cleaned(members, before);
    Sets.SubsetSize(kept.Keys, members.Keys);
    assert |kept| == |kept.Keys| && |members| == |members.Keys|;
  }

  lemma KeptFacts(found: Option<Key>, now: int, window: int, limit: nat, id: RequestId)
    requires Sane(found, limit, window) && Past(found, now)
    ensures var kept := Cleaned(Members(found), now - window);
      && |kept| <= limit
      && |kept[id := now]| <= |kept| + 1 && 0 < |kept[id := now]|
      && (kept.Keys != {} ==> 0 < |kept|)
      && (forall x :: x in kept ==> found.Some? && x in found.value.members && kept[x] == found.value.members[x])
      && (forall x :: x in kept ==> kept[x] <= now)
  {
    var kept := Cleaned(Members(found), now - window);
    CleanedSize(Members(found), now - window);
    var longer := kept[id := now];
    assert longer.Keys == kept.Keys + {id};
    assert |longer| == |longer.Keys| && |kept| == |kept.Keys|;
  }

  /** The advertised quota is a number of requests: between 0 and the limit. */
  lemma QuotaInRange(key: Option<Key>, now: int, window: int, limit: nat, id: RequestId)
    requires Sane(key, limit, window) && Past(key, now)
    ensures var run := Script(key, now, window, limit, id);
      && 0 <= run.decision.remaining <= limit
      && (run.decision.allowed ==> run.decision.remaining < limit)
      && Sane(run.key, limit, window) && Past(run.key, now)
  {
    var found := Live(key, now);
    assert Sane(found, limit, window) && Past(found, now);
    KeptFacts(found, now, window, limit, id);
    hide Cleaned, IsOldest;
  }

  /** Members never carry a time that is still to come. */
  ghost predicate Past(key: Option<Key>, now: int) {
    key.Some? ==> forall x :: x in key.value.members ==> key.value.members[x] <= now
  }

  /** Every key a run of requests leaves is one the statements below speak of. */
  lemma {:induction false} SaneAlways(key: Option<Key>, reqs: seq<Request>, window: int, limit: nat)
    requires Sane(key, limit, window) && Chronological(reqs) && (|reqs| > 0 ==> Past(key, reqs[0].time))
    ensures Sane(ScriptKey(key, reqs, window, limit), limit, window)
    decreases |reqs|
  {
    if |reqs| > 0 {
      hide Sane;
      QuotaInRange(key, reqs[0].time, window, limit, reqs[0].id);
      SaneAlways(Script(key, reqs[0].time, window, limit, reqs[0].id).key, reqs[1..], window, limit);
    }
  }

  /** Refused, at a full key, with the reset time returned. */
  ghost predicate RefusedWith(key: Option<Key>, req: Request, window: int, limit: int, reset: int) {
    var run := Script(key, req.time, window, limit, req.id);
    !run.decision.allowed && run.decision.resetTime == reset
  }

  /** The state a refusal leaves: full, and its oldest member leaves the window at the reset time. */
  ghost predicate FullUntil(key: Option<Key>, window: int, limit: int, reset: int) {
    && key.Some? && |key.value.members| == limit
    && IsOldest(key.value.members, reset - window)
    && (forall id :: id in key.value.members ==> key.value.members[id] <= key.value.expiresAt - window)
  }

  lemma OldestUnique(members: map<RequestId, int>, a: int, b: int)
    requires IsOldest(members, a) && IsOldest(members, b)
    ensures a == b
  {
  }

  lemma RefusalFills(key: Option<Key>, req: Request, window: int, limit: int, reset: int)
    requires Sane(key, limit, window) && limit > 0 && RefusedWith(key, req, window, limit, reset)
    ensures FullUntil(Script(key, req.time, window, limit, req.id).key, window, limit, reset)
    ensures req.time < reset
  {
    var found := Live(key, req.time);
    var kept := Cleaned(Members(found), req.time - window);
    CleanedSize(Members(found), req.time - window);
    assert kept.Keys != {};
  }

  /** Before the reset time a full key refuses and is left as it was. */
  lemma StillRefused(key: Option<Key>, req: Request, window: int, limit: int, reset: int)
    requires FullUntil(key, window, limit, reset) && limit > 0 && req.time < reset
    ensures RefusedWith(key, req, window, limit, reset)
    ensures Script(key, req.time, window, limit, req.id).key == key
  {
    var members := key.value.members;
    var id :| id in members && members[id] == reset - window;
    assert req.time <= key.value.expiresAt;
    var kept := Cleaned(members, req.time - window);
    assert kept == members;
    OldestUnique(members, Oldest(members), reset - window);
  }

  /** At the reset time or later it accepts. */
  lemma AcceptedAtReset(key: Option<Key>, req: Request, window: int, limit: int, reset: int)
    requires FullUntil(key, window, limit, reset) && limit > 0 && reset <= req.time
    ensures Script(key, req.time, window, limit, req.id).decision.allowed
  {
    var found := Live(key, req.time);
    var kept := Cleaned(Members(found), req.time - window);
    if found.Some? {
      var members := key.value.members;
      var id :| id in members && members[id] == reset - window;
      assert id !in kept;
      Sets.SubsetSize(kept.Keys, members.Keys - {id});
      assert |kept| == |kept.Keys| && |members| == |members.Keys|;
    } else {
      assert kept.Keys == {};
      assert |kept| == |kept.Keys|;
    }
  }

  lemma {:induction false} AllRefused(key: Option<Key>, waiting: seq<Request>, window: int, limit: int, reset: int)
    requires FullUntil(key, window, limit, reset) && limit > 0
    requires forall i :: 0 <= i < |waiting| ==> waiting[i].time < reset
    ensures ScriptKey(key, waiting, window, limit) == key
    ensures ScriptVerdicts(key, waiting, window, limit) == seq(|waiting|, _ => false)
    decreases |waiting|
  {
    if |waiting| > 0 {
      StillRefused(key, waiting[0], window, limit, reset);
      AllRefused(key, waiting[1..], window, limit, reset);
    }
  }

  /** The reset time is exact: after a refusal that returns it, every request of that merchant before it
      is refused, and the first one at it or later is accepted. */
  lemma ResetTimeIsTight(key: Option<Key>, refused: Request, waiting: seq<Request>, next: Request,
                         window: int, limit: int, reset: int)
    requires Sane(key, limit, window) && limit > 0 && RefusedWith(key, refused, window, limit, reset)
    requires forall i :: 0 <= i < |waiting| ==> waiting[i].time < reset
    requires reset <= next.time
    ensures var after := Script(key, refused.time, window, limit, refused.id).key;
      && ScriptVerdicts(after, waiting, window, limit) == seq(|waiting|, _ => false)
      && Script(ScriptKey(after, waiting, window, limit), next.time, window, limit, next.id).decision.allowed
  {
    RefusalFills(key, refused, window, limit, reset);
    var after := Script(key, refused.time, window, limit, refused.id).key;
    AllRefused(after, waiting, window, limit, reset);
    AcceptedAtReset(after, next, window, limit, reset);
  }

  /** Until the oldest member leaves the window nothing is cleaned away. */
  lemma CleanedFrom(members: map<RequestId, int>, oldest: int, window: int, t: int)
    requires IsOldest(members, oldest)
    ensures Cleaned(members, t - window) == members <==> t < oldest + window
  {
    var id :| id in members && members[id] == oldest;
    if t >= oldest + window {
      assert id !in Cleaned(members, t - window);
    } else {
      assert Cleaned(members, t - window) == members;
    }
  }

  /** What an acceptance leaves and tells: the request stands in the set with its time, the key lives on
      for one window, and the reset time, at most a window ahead, is when the first of those counted stops
      counting. */
  lemma AcceptanceResets(key: Option<Key>, now: int, window: int, limit: int, id: RequestId, later: int)
    requires window > 0 && Past(key, now) && Script(key, now, window, limit, id).decision.allowed
    ensures var run := Script(key, now, window, limit, id);
      && run.key.Some? && run.key.value.expiresAt == now + window
      && id in run.key.value.members && run.key.value.members[id] == now
      && now < run.decision.resetTime <= now + window
      && (Cleaned(run.key.value.members, later - window) == run.key.value.members <==> later < run.decision.resetTime)
  {
    var run := Script(key, now, window, limit, id);
    var kept := Cleaned(Members(Live(key, now)), now - window);
    var members := kept[id := now];
    assert id in members;
    assert run.key == Some(Key(members, now + window)) && run.decision.resetTime == Oldest(members) + window;
    assert forall x :: x in members ==> now - window < members[x] <= now;
    CleanedFrom(members, Oldest(members), window, later);
  }

  /* ---- The middleware ---- */

  function FloorSeconds(ms: int): int {
    ms / 1000
  }

  function CeilSeconds(ms: int): int {
    -((-ms) / 1000)
  }

  function RetryAfter(resetTime: int, now: int): int {
    var wait := CeilSeconds(resetTime) - FloorSeconds(now);
    if wait < 1 then 1 else wait
  }

  /** Waiting Retry-After seconds always reaches the reset time, and wastes less than two seconds while
      the reset time is still ahead. */
  lemma RetryAfterSuffices(resetTime: int, now: int)
    ensures now + 1000 * RetryAfter(resetTime, now) >= resetTime
    ensures now < resetTime ==> now + 1000 * RetryAfter(resetTime, now) < resetTime + 2000
    ensures RetryAfter(resetTime, now) >= 1
  {
  }

  /** A client that honours Retry-After, and is the first of its merchant at or after the reset time, is
      let through. */
  lemma HonouredRetryIsAccepted(key: Option<Key>, refused: Request, waiting: seq<Request>, retry: Request,
                                window: int, limit: int, answeredAt: int)
    requires Sane(key, limit, window) && limit > 0
    requires !Script(key, refused.time, window, limit, refused.id).decision.allowed
    requires var reset := Script(key, refused.time, window, limit, refused.id).decision.resetTime;
      && retry.time >= answeredAt + 1000 * RetryAfter(reset, answeredAt)
      && forall i :: 0 <= i < |waiting| ==> waiting[i].time < reset
    ensures var after := Script(key, refused.time, window, limit, refused.id).key;
      Script(ScriptKey(after, waiting, window, limit), retry.time, window, limit, retry.id).decision.allowed
  {
    var reset := Script(key, refused.time, window, limit, refused.id).decision.resetTime;
    RetryAfterSuffices(reset, answeredAt);
    ResetTimeIsTight(key, refused, waiting, retry, window, limit, reset);
  }

  /** `use`, once the limit has been checked: the headers it sets, and whether the request goes on
      (429 otherwise, section 4 of RFC 6585; Retry-After, section 10.2.3 of RFC 9110). */
  method Use(result: Decision, limit: int, now: int) returns (headers: map<string, int>, passed: bool)
    ensures passed == result.allowed
    ensures "Retry-After" in headers <==> !passed
    ensures !passed ==> now + 1000 * headers["Retry-After"] >= result.resetTime && headers["Retry-After"] >= 1
    ensures "X-RateLimit-Limit" in headers && headers["X-RateLimit-Limit"] == limit
    ensures "X-RateLimit-Remaining" in headers && headers["X-RateLimit-Remaining"] == result.remaining
    ensures "X-RateLimit-Reset" in headers &&
      1000 * (headers["X-RateLimit-Reset"] - 1) < result.resetTime <= 1000 * headers["X-RateLimit-Reset"]
  {
    headers := map["X-RateLimit-Limit" := limit];
    headers := headers["X-RateLimit-Remaining" := result.remaining];
    var resetTimeSec := CeilSeconds(result.resetTime);
    headers := headers["X-RateLimit-Reset" := resetTimeSec];
    assert headers.Keys == {"X-RateLimit-Limit", "X-RateLimit-Remaining", "X-RateLimit-Reset"};
    if !result.allowed {
      var nowSec := FloorSeconds(now);
      var retryAfter := if resetTimeSec - nowSec < 1 then 1 else resetTimeSec - nowSec;
      RetryAfterSuffices(result.resetTime, now);
      headers := headers["Retry-After" := retryAfter];
      return headers, false;
    }
    return headers, true;
  }
}
