/** What the limiter's window means in numbers of requests: the sorted set counts request ids, so the
    results on acceptances say when ids and acceptances are the same number. */
module RateLimiterCounting {
  import opened RateLimiter
  import opened Wrappers
  import Sets

  /** The requests that got the verdict true. */
  ghost function Accepted(reqs: seq<Request>, verdicts: seq<bool>): seq<Request>
    requires |verdicts| == |reqs|
  {
    if |reqs| == 0 then []
    else (if verdicts[0] then [reqs[0]] else []) + Accepted(reqs[1..], verdicts[1..])
  }

  /** How many requests were accepted after `cutoff`. */
  ghost function CountSince(history: seq<Request>, cutoff: int): nat {
    if |history| == 0 then 0
    else CountSince(history[..|history| - 1], cutoff) + (if history[|history| - 1].time > cutoff then 1 else 0)
  }

  lemma {:induction false} VerdictEach(key: Option<Key>, reqs: seq<Request>, window: int, limit: int)
    ensures |ScriptVerdicts(key, reqs, window, limit)| == |reqs|
    decreases |reqs|
  {
    if |reqs| > 0 {
      VerdictEach(Script(key, reqs[0].time, window, limit, reqs[0].id).key, reqs[1..], window, limit);
    }
  }

  /** The history of the naive rule is what it accepted. */
  lemma {:induction false} HistoryIsAccepted(history: seq<Request>, reqs: seq<Request>, window: int, limit: int)
    ensures |NaiveVerdicts(history, reqs, window, limit)| == |reqs|
    ensures NaiveHistory(history, reqs, window, limit)
         == history + Accepted(reqs, NaiveVerdicts(history, reqs, window, limit))
    decreases |reqs|
  {
    if |reqs| > 0 {
      hide NaiveAllows;
      var allows := NaiveAllows(history, reqs[0], window, limit);
      var next := if allows then history + [reqs[0]] else history;
      var rest := NaiveVerdicts(next, reqs[1..], window, limit);
      HistoryIsAccepted(next, reqs[1..], window, limit);
      assert NaiveVerdicts(history, reqs, window, limit) == [allows] + rest;
      assert ([allows] + rest)[1..] == rest;
    }
  }

  /** What the script accepts of a sequence of requests. */
  ghost function AcceptedBy(reqs: seq<Request>, window: int, limit: int): seq<Request> {
    VerdictEach(None, reqs, window, limit);
    Accepted(reqs, ScriptVerdicts(None, reqs, window, limit))
  }

  lemma ScriptHistory(reqs: seq<Request>, window: int, limit: int)
    requires Chronological(reqs)
    ensures AcceptedBy(reqs, window, limit) == NaiveHistory([], reqs, window, limit)
  {
    SlidingWindowRefinement(reqs, window, limit);
    HistoryIsAccepted([], reqs, window, limit);
  }

  /* ---- Ids and acceptances ---- */

  /** No id was accepted twice after `cutoff`. */
  ghost predicate NoRepeatSince(history: seq<Request>, cutoff: int) {
    forall i, j :: 0 <= i < j < |history| && history[i].time > cutoff && history[j].time > cutoff ==>
      history[i].id != history[j].id
  }

  lemma NoRepeatAppend(front: seq<Request>, last: Request, cutoff: int)
    ensures NoRepeatSince(front + [last], cutoff) <==>
      NoRepeatSince(front, cutoff) && (last.time > cutoff ==> last.id !in AcceptedSince(front, cutoff))
  {
    var all := front + [last];
    assert all[|front|] == last && forall i :: 0 <= i < |front| ==> all[i] == front[i];
  }

  /** There are at most as many ids as acceptances, and as many exactly when no id was accepted twice. */
  lemma {:induction false} IdsCountAcceptances(history: seq<Request>, cutoff: int)
    ensures |AcceptedSince(history, cutoff)| <= CountSince(history, cutoff)
    ensures |AcceptedSince(history, cutoff)| == CountSince(history, cutoff) <==> NoRepeatSince(history, cutoff)
  {
    if |history| > 0 {
      var front, last := history[..|history| - 1], history[|history| - 1];
      IdsCountAcceptances(front, cutoff);
      assert history == front + [last];
      SinceAppend(front, last, cutoff);
      NoRepeatAppend(front, last, cutoff);
      hide AcceptedSince, NoRepeatSince;
    }
  }

  lemma LastTime(reqs: seq<Request>, req: Request)
    requires Chronological(reqs + [req])
    ensures Chronological(reqs) && forall i :: 0 <= i < |reqs| ==> reqs[i].time <= req.time
  {
    var all := reqs + [req];
    assert all[|reqs|] == req && forall i :: 0 <= i < |reqs| ==> all[i] == reqs[i];
  }

  /** The key that any requests leave represents what was accepted of them. */
  lemma KeyRepresents(reqs: seq<Request>, now: int, window: int, limit: int) returns (cleaned: int)
    requires Chronological(reqs) && forall i :: 0 <= i < |reqs| ==> reqs[i].time <= now
    ensures cleaned <= now - window
    ensures Represents(ScriptKey(None, reqs, window, limit), AcceptedBy(reqs, window, limit), cleaned, window)
  {
    ScriptHistory(reqs, window, limit);
    var start := (if |reqs| > 0 then reqs[0].time else now) - window;
    assert Represents(None, [], start, window);
    assert [] + reqs == reqs;
    RefinesFrom(None, [], start, reqs, window, limit);
    cleaned := if |reqs| == 0 then start else reqs[|reqs| - 1].time - window;
    hide Represents, ScriptKey, NaiveHistory, AcceptedBy;
  }

  /** The set the script finds for the next request holds one member for each id in its window. */
  lemma SetHoldsTheIds(reqs: seq<Request>, now: int, window: int, limit: int)
    requires Chronological(reqs) && forall i :: 0 <= i < |reqs| ==> reqs[i].time <= now
    ensures |Cleaned(Members(Live(ScriptKey(None, reqs, window, limit), now)), now - window)|
         == |AcceptedSince(AcceptedBy(reqs, window, limit), now - window)|
  {
    hide *;
    var cleaned := KeyRepresents(reqs, now, window, limit);
    var key := ScriptKey(None, reqs, window, limit);
    KeptIsAccepted(key, AcceptedBy(reqs, window, limit), cleaned, window, now);
    SameSize(Cleaned(Members(Live(key, now)), now - window));
  }

  /** The advertised quota is the limit less the acceptances in the window, after any requests
      whatsoever, exactly when no id was accepted twice in the window. */
  lemma RemainingCountsAcceptances(reqs: seq<Request>, req: Request, window: int, limit: int)
    requires Chronological(reqs + [req])
    ensures
      var history := AcceptedBy(reqs, window, limit);
      var decision := Script(ScriptKey(None, reqs, window, limit), req.time, window, limit, req.id).decision;
      var accepted := CountSince(history, req.time - window) + if decision.allowed then 1 else 0;
      && decision.remaining >= limit - accepted
      && (decision.remaining == limit - accepted <==> NoRepeatSince(history, req.time - window))
  {
    LastTime(reqs, req);
    SetHoldsTheIds(reqs, req.time, window, limit);
    IdsCountAcceptances(AcceptedBy(reqs, window, limit), req.time - window);
    hide ScriptKey, AcceptedBy, Cleaned, Live, NoRepeatSince, CountSince, AcceptedSince, Chronological;
  }

  /* ---- The textbook rule ---- */

  /** The textbook rule: fewer than `limit` requests accepted in the last window. */
  ghost function CountingVerdicts(history: seq<Request>, reqs: seq<Request>, window: int, limit: int): seq<bool>
    decreases |reqs|
  {
    if |reqs| == 0 then []
    else
      var allows := CountSince(history, reqs[0].time - window) < limit;
      [allows] + CountingVerdicts(if allows then history + [reqs[0]] else history, reqs[1..], window, limit)
  }

  /** No two requests less than a window apart share an id. */
  ghost predicate Spaced(reqs: seq<Request>, window: int) {
    forall i, j :: 0 <= i < j < |reqs| && reqs[j].time - reqs[i].time < window ==> reqs[i].id != reqs[j].id
  }

  lemma SpacedHistory(history: seq<Request>, reqs: seq<Request>, window: int)
    requires |reqs| > 0 && Chronological(history + reqs) && Spaced(history + reqs, window)
    ensures NoRepeatSince(history, reqs[0].time - window)
    ensures Spaced(history + [reqs[0]] + reqs[1..], window) && Spaced(history + reqs[1..], window)
  {
    var all, skipped := history + reqs, history + reqs[1..];
    assert all[|history|] == reqs[0];
    forall i | 0 <= i < |history| ensures all[i] == history[i] && history[i].time <= reqs[0].time {
    }
    assert history + [reqs[0]] + reqs[1..] == all;
    forall i, j | 0 <= i < j < |skipped| && skipped[j].time - skipped[i].time < window
      ensures skipped[i].id != skipped[j].id
    {
      var i' := if i < |history| then i else i + 1;
      var j' := if j < |history| then j else j + 1;
      assert skipped[i] == all[i'] && skipped[j] == all[j'];
    }
  }

  lemma {:induction false} CountingFrom(history: seq<Request>, reqs: seq<Request>, window: int, limit: int)
    requires Chronological(history + reqs) && Spaced(history + reqs, window)
    ensures NaiveVerdicts(history, reqs, window, limit) == CountingVerdicts(history, reqs, window, limit)
    decreases |reqs|
  {
    if |reqs| > 0 {
      IdsCountAcceptances(history, reqs[0].time - window);
      SpacedHistory(history, reqs, window);
      StillChronological(history, reqs);
      hide Chronological, Spaced;
      CountingFrom(if NaiveAllows(history, reqs[0], window, limit) then history + [reqs[0]] else history,
                   reqs[1..], window, limit);
    }
  }

  /** When no two requests less than a window apart share an id, the script is the textbook sliding
      window: accept when fewer than `limit` requests were accepted in the last window. */
  lemma CountingRefinement(reqs: seq<Request>, window: int, limit: int)
    requires Chronological(reqs) && Spaced(reqs, window)
    ensures ScriptVerdicts(None, reqs, window, limit) == CountingVerdicts([], reqs, window, limit)
  {
    SlidingWindowRefinement(reqs, window, limit);
    assert [] + reqs == reqs;
    CountingFrom([], reqs, window, limit);
  }

  function Repeat(r: Request, n: nat): seq<Request> {
    seq(n, _ => r)
  }

  lemma RepeatSplits(r: Request, m: nat, n: nat)
    requires n > 0
    ensures Repeat(r, m) + [r] == Repeat(r, m + 1)
    ensures |Repeat(r, n)| == n && Repeat(r, n)[0] == r && Repeat(r, n)[1..] == Repeat(r, n - 1)
    ensures Repeat(r, n)[..n - 1] == Repeat(r, n - 1) && Repeat(r, n)[n - 1] == r
  {
  }

  lemma RepeatAllowed(r: Request, m: nat, window: int, limit: int)
    requires limit >= 2
    ensures NaiveAllows(Repeat(r, m), r, window, limit)
  {
    Sets.SubsetSize(AcceptedSince(Repeat(r, m), r.time - window), {r.id});
  }

  lemma {:induction false} RepeatsByIds(r: Request, m: nat, n: nat, window: int, limit: int)
    requires limit >= 2
    ensures NaiveVerdicts(Repeat(r, m), Repeat(r, n), window, limit) == seq(n, _ => true)
    decreases n
  {
    if n > 0 {
      RepeatSplits(r, m, n);
      RepeatAllowed(r, m, window, limit);
      hide Repeat, NaiveAllows;
      RepeatsByIds(r, m + 1, n - 1, window, limit);
    }
  }

  lemma {:induction false} RepeatsCounted(r: Request, m: nat, window: int)
    requires window > 0
    ensures CountSince(Repeat(r, m), r.time - window) == m
  {
    if m > 0 {
      RepeatSplits(r, m, m);
      hide Repeat;
      RepeatsCounted(r, m - 1, window);
    }
  }

  /** True for the first `limit` places, the first of which is the m-th. */
  function FirstOnly(m: nat, n: nat, limit: nat): seq<bool> {
    seq(n, i => m + i < limit)
  }

  lemma FirstOnlySplits(m: nat, n: nat, limit: nat)
    requires n > 0 && m <= limit
    ensures FirstOnly(m, n, limit) == [m < limit] + FirstOnly(if m < limit then m + 1 else m, n - 1, limit)
  {
  }

  lemma {:induction false} RepeatsByCount(r: Request, m: nat, n: nat, window: int, limit: nat)
    requires window > 0 && m <= limit
    ensures CountingVerdicts(Repeat(r, m), Repeat(r, n), window, limit) == FirstOnly(m, n, limit)
    decreases n
  {
    if n > 0 {
      RepeatsCounted(r, m, window);
      RepeatSplits(r, m, n);
      FirstOnlySplits(m, n, limit);
      hide Repeat, FirstOnly, CountSince;
      RepeatsByCount(r, if m < limit then m + 1 else m, n - 1, window, limit);
    }
  }

  /** Some spacing is needed for that: a request repeated under one id is accepted every time, for any
      limit above 1, where counting requests would accept it only the first `limit` times. */
  lemma RepeatedIdsCountOnce(r: Request, n: nat, window: int, limit: nat)
    requires window > 0 && limit >= 2
    ensures ScriptVerdicts(None, Repeat(r, n), window, limit) == seq(n, _ => true)
    ensures CountingVerdicts([], Repeat(r, n), window, limit) == FirstOnly(0, n, limit)
  {
    SlidingWindowRefinement(Repeat(r, n), window, limit);
    assert Repeat(r, 0) == [];
    RepeatsByIds(r, 0, n, window, limit);
    RepeatsByCount(r, 0, n, window, limit);
  }

  /* ---- How much any window holds ---- */

  /** Every acceptance found fewer than `limit` ids in its window. */
  ghost predicate Admitted(history: seq<Request>, window: int, limit: int) {
    forall k :: 0 <= k < |history| ==> |AcceptedSince(history[..k], history[k].time - window)| < limit
  }

  lemma {:induction false} NaiveAdmits(history: seq<Request>, reqs: seq<Request>, window: int, limit: int)
    requires Admitted(history, window, limit) && Chronological(history + reqs)
    ensures var all := NaiveHistory(history, reqs, window, limit);
      Admitted(all, window, limit) && Chronological(all)
    decreases |reqs|
  {
    if |reqs| > 0 {
      StillChronological(history, reqs);
      var longer := history + [reqs[0]];
      if NaiveAllows(history, reqs[0], window, limit) {
        forall k | 0 <= k < |longer|
          ensures |AcceptedSince(longer[..k], longer[k].time - window)| < limit
        {
          assert longer[..k] == history[..k];
          assert history[..|history|] == history;
        }
        NaiveAdmits(longer, reqs[1..], window, limit);
      } else {
        NaiveAdmits(history, reqs[1..], window, limit);
      }
    } else {
      assert history + reqs == history;
    }
  }

  /** The ids accepted in (from, to]. */
  ghost function AcceptedBetween(history: seq<Request>, from: int, to: int): set<RequestId> {
    set i | 0 <= i < |history| && from < history[i].time <= to :: history[i].id
  }

  /** Everything in an interval no longer than the window, up to the last acceptance, was in that
      acceptance's own window. */
  lemma LastInside(front: seq<Request>, last: Request, window: int, from: int, to: int)
    requires last.time <= to <= from + window
    ensures AcceptedBetween(front + [last], from, to) <= AcceptedSince(front, last.time - window) + {last.id}
  {
    var all := front + [last];
    var between, since := AcceptedBetween(all, from, to), AcceptedSince(front, last.time - window);
    forall id | id in between
      ensures id == last.id || id in since
    {
      var i :| 0 <= i < |all| && from < all[i].time <= to && all[i].id == id;
      assert i < |front| ==> front[i] == all[i];
    }
  }

  lemma AdmittedFront(front: seq<Request>, last: Request, window: int, limit: nat)
    requires Admitted(front + [last], window, limit) && Chronological(front + [last])
    ensures Admitted(front, window, limit) && Chronological(front)
    ensures |AcceptedSince(front, last.time - window)| < limit
  {
    hide AcceptedSince;
    var all := front + [last];
    assert all[..|front|] == front && all[|front|] == last;
    assert forall k :: 0 <= k < |front| ==> all[..k] == front[..k] && all[k] == front[k];
  }

  lemma {:induction false} WindowHolds(history: seq<Request>, window: int, limit: nat, from: int, to: int)
    requires Admitted(history, window, limit) && Chronological(history) && to <= from + window
    ensures |AcceptedBetween(history, from, to)| <= limit
    decreases |history|
  {
    if |history| == 0 {
      assert AcceptedBetween(history, from, to) == {};
      return;
    }
    hide AcceptedBetween, AcceptedSince;
    var front, last := history[..|history| - 1], history[|history| - 1];
    assert history == front + [last];
    AdmittedFront(front, last, window, limit);
    if last.time > to {
      WindowHolds(front, window, limit, from, to);
      LastOutside(front, last, from, to);
    } else {
      var before := AcceptedSince(front, last.time - window);
      LastInside(front, last, window, from, to);
      Sets.SubsetSize(AcceptedBetween(history, from, to), before + {last.id});
    }
  }

  lemma LastOutside(front: seq<Request>, last: Request, from: int, to: int)
    requires last.time > to
    ensures AcceptedBetween(front + [last], from, to) <= AcceptedBetween(front, from, to)
    ensures |AcceptedBetween(front + [last], from, to)| <= |AcceptedBetween(front, from, to)|
  {
    var all := front + [last];
    forall id | id in AcceptedBetween(all, from, to)
      ensures id in AcceptedBetween(front, from, to)
    {
      var i :| 0 <= i < |all| && from < all[i].time <= to && all[i].id == id;
      assert i < |front| && front[i] == all[i];
    }
    Sets.SubsetSize(AcceptedBetween(all, from, to), AcceptedBetween(front, from, to));
  }

  /** The requests accepted in (from, to], by their places. */
  ghost function PlacesBetween(reqs: seq<Request>, verdicts: seq<bool>, from: int, to: int): set<nat>
    requires |verdicts| == |reqs|
  {
    set i: nat | i < |reqs| && verdicts[i] && from < reqs[i].time <= to
  }

  ghost function ScriptPlaces(reqs: seq<Request>, window: int, limit: int, from: int, to: int): set<nat> {
    VerdictEach(None, reqs, window, limit);
    PlacesBetween(reqs, ScriptVerdicts(None, reqs, window, limit), from, to)
  }

  lemma {:induction false} AcceptedHas(reqs: seq<Request>, verdicts: seq<bool>, i: nat)
    requires |verdicts| == |reqs| && i < |reqs| && verdicts[i]
    ensures reqs[i] in Accepted(reqs, verdicts)
    decreases |reqs|
  {
    if i > 0 {
      AcceptedHas(reqs[1..], verdicts[1..], i - 1);
    }
  }

  lemma PlaceIsAccepted(reqs: seq<Request>, window: int, limit: int, from: int, to: int, i: nat)
    requires i in ScriptPlaces(reqs, window, limit, from, to)
    ensures i < |reqs| && reqs[i].id in AcceptedBetween(AcceptedBy(reqs, window, limit), from, to)
  {
    VerdictEach(None, reqs, window, limit);
    AcceptedHas(reqs, ScriptVerdicts(None, reqs, window, limit), i);
    var history := AcceptedBy(reqs, window, limit);
    hide ScriptVerdicts, Accepted, AcceptedBy;
    var j :| 0 <= j < |history| && history[j] == reqs[i];
  }

  lemma ScriptAdmits(reqs: seq<Request>, window: int, limit: int)
    requires Chronological(reqs)
    ensures var all := NaiveHistory([], reqs, window, limit); Admitted(all, window, limit) && Chronological(all)
  {
    hide AcceptedSince, NaiveHistory;
    assert [] + reqs == reqs;
    NaiveAdmits([], reqs, window, limit);
  }

  lemma WindowHoldsIds(reqs: seq<Request>, window: int, limit: nat, from: int)
    requires Chronological(reqs)
    ensures |AcceptedBetween(AcceptedBy(reqs, window, limit), from, from + window)| <= limit
  {
    hide *;
    ScriptHistory(reqs, window, limit);
    ScriptAdmits(reqs, window, limit);
    WindowHolds(AcceptedBy(reqs, window, limit), window, limit, from, from + window);
  }

  /** Distinct ids: no interval of window length holds acceptances under more than `limit` ids,
      whatever ids the requests carry. */
  lemma WindowBoundIds(reqs: seq<Request>, window: int, limit: nat, from: int) returns (ids: set<RequestId>)
    requires Chronological(reqs)
    ensures |ids| <= limit
    ensures forall i :: i in ScriptPlaces(reqs, window, limit, from, from + window) ==> i < |reqs| && reqs[i].id in ids
  {
    WindowHoldsIds(reqs, window, limit, from);
    hide *;
    ids := AcceptedBetween(AcceptedBy(reqs, window, limit), from, from + window);
    forall i | i in ScriptPlaces(reqs, window, limit, from, from + window) ensures i < |reqs| && reqs[i].id in ids {
      PlaceIsAccepted(reqs, window, limit, from, from + window, i);
    }
  }

  /** Places whose ids differ are no more than the ids. */
  lemma {:induction false} PlacesPerId(reqs: seq<Request>, places: set<nat>, ids: set<RequestId>)
    requires forall i :: i in places ==> i < |reqs| && reqs[i].id in ids
    requires forall i, j :: i in places && j in places && i < j ==> reqs[i].id != reqs[j].id
    ensures |places| <= |ids|
    decreases |places|
  {
    if places != {} {
      var i :| i in places;
      PlacesPerId(reqs, places - {i}, ids - {reqs[i].id});
    }
  }

  /** The promise of the limiter, in requests: when no two requests less than a window apart share an
      id, no interval of window length holds more than `limit` acceptances. */
  lemma WindowBound(reqs: seq<Request>, window: int, limit: nat, from: int)
    requires Chronological(reqs) && Spaced(reqs, window)
    ensures |ScriptPlaces(reqs, window, limit, from, from + window)| <= limit
  {
    var ids := WindowBoundIds(reqs, window, limit, from);
    PlacesPerId(reqs, ScriptPlaces(reqs, window, limit, from, from + window), ids);
  }
}
