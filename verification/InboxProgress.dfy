/** What a consumer achieves when nothing gets in its way (packages/common/src/messaging/consumer.ts).

    The other inbox modules say what no run can do. Here are runs that do what the consumer is for: a
    delivery that handles its event, marks it and commits, and a worker that works off its partition. */
module InboxProgress {
  import opened Awaits
  import opened Events
  import opened InboxConsumer
  import opened InboxProtocol
  import opened InboxRepository
  import opened Wrappers

  /** Of the table only the row of `e` may have changed, and of the logs nothing. */
  ghost predicate OnlyOn(s: State, t: State, e: EventId) {
    t.logs == s.logs && forall x :: x != e ==> RowOf(t, x) == RowOf(s, x)
  }

  lemma OnlyOnBoth(s: State, t: State, u: State, e: EventId)
    requires OnlyOn(s, t, e) && OnlyOn(t, u, e)
    ensures OnlyOn(s, u, e)
  {
    forall x | x != e ensures RowOf(u, x) == RowOf(s, x) {
      assert RowOf(t, x) == RowOf(s, x);
    }
  }

  /** One more await of a delivery, which returns. */
  lemma OneMore(limit: nat, start: State, acts: seq<Action>, s: State, w: WorkerId, e: EventId, pc: Pc)
    returns (acts': seq<Action>, s': State)
    requires Legal(limit, start, acts) && s == Exec(limit, start, acts)
    requires w in s.workers && s.workers[w].task == Some(Task(e, pc))
    ensures Legal(limit, start, acts') && s' == Exec(limit, start, acts') && OnlyOn(s, s', e)
    ensures RowOf(s', e) == Step(limit, pc, RowOf(s, e), Returns).row
    ensures w in s'.workers && s'.workers[w] == Resumed(s.workers[w], Step(limit, pc, RowOf(s, e), Returns).pc)
    ensures HistoryOf(s', e).successes == HistoryOf(s, e).successes + if pc == Handle then 1 else 0
    ensures var p := s.workers[w].partition;
      CommittedOf(s', p) == if CommitsAt(pc) then s.workers[w].pos + 1 else CommittedOf(s, p)
  {
    hide Step, Legal, Exec;
    ExecExtend(limit, start, acts, Advance(w, Returns));
    acts' := acts + [Advance(w, Returns)];
    s' := Advanced(limit, s, w, Returns);
  }

  /** From the look-up to the handler. */
  lemma Climbs(limit: nat, start: State, before: seq<Action>, was: State, w: WorkerId, e: EventId)
    returns (acts: seq<Action>, t: State)
    requires Legal(limit, start, before) && was == Exec(limit, start, before)
    requires w in was.workers && was.workers[w].task == Some(Task(e, Look))
    requires RowOf(was, e).None? || Claimable(RowOf(was, e).value.status)
    ensures Legal(limit, start, acts) && t == Exec(limit, start, acts) && OnlyOn(was, t, e)
    ensures RowOf(t, e).Some? && w in t.workers && t.workers[w] == was.workers[w].(task := Some(Task(e, Handle)))
    ensures HistoryOf(t, e).successes == HistoryOf(was, e).successes
  {
    hide Legal, Exec, CommittedOf, HistoryOf, OnlyOn, RowOf;
    var s1, s2, s3;
    acts, s1 := OneMore(limit, start, before, was, w, e, Look);
    s2 := s1;
    if RowOf(was, e).None? {
      acts, s2 := OneMore(limit, start, acts, s1, w, e, Insert);
      OnlyOnBoth(was, s1, s2, e);
    }
    acts, s3 := OneMore(limit, start, acts, s2, w, e, Claim);
    OnlyOnBoth(was, s2, s3, e);
    acts, t := OneMore(limit, start, acts, s3, w, e, ClaimRead);
    OnlyOnBoth(was, s3, t, e);
  }

  /** From a handler that returns to the end. */
  lemma Finishes(limit: nat, start: State, before: seq<Action>, was: State, w: WorkerId, e: EventId)
    returns (acts: seq<Action>, t: State)
    requires Legal(limit, start, before) && was == Exec(limit, start, before) && RowOf(was, e).Some?
    requires w in was.workers && was.workers[w].task == Some(Task(e, Handle))
    ensures Legal(limit, start, acts) && t == Exec(limit, start, acts) && OnlyOn(was, t, e)
    ensures RowOf(t, e).Some? && RowOf(t, e).value.status == Processed
    ensures HistoryOf(t, e).successes == HistoryOf(was, e).successes + 1
    ensures w in t.workers && t.workers[w] == was.workers[w].(pos := was.workers[w].pos + 1, task := None)
    ensures CommittedOf(t, was.workers[w].partition) == was.workers[w].pos + 1
  {
    hide Legal, Exec, CommittedOf, HistoryOf, OnlyOn, RowOf;
    var s1, s2;
    acts, s1 := OneMore(limit, start, before, was, w, e, Handle);
    assert s1.workers[w].task == Some(Task(e, MarkDone)) && RowOf(s1, e) == RowOf(was, e);
    acts, s2 := OneMore(limit, start, acts, s1, w, e, MarkDone);
    OnlyOnBoth(was, s1, s2, e);
    assert s2.workers[w].task == Some(Task(e, CommitDone)) && RowOf(s2, e).value.status == Processed;
    acts, t := OneMore(limit, start, acts, s2, w, e, CommitDone);
    OnlyOnBoth(was, s2, t, e);
  }

  /** A delivery that nothing disturbs, of an event not handled yet, handles it, marks it, commits the
      offset and moves on. */
  lemma HandlesAndCommits(limit: nat, start: State, before: seq<Action>, was: State, w: WorkerId, e: EventId)
    returns (acts: seq<Action>, t: State)
    requires Legal(limit, start, before) && was == Exec(limit, start, before)
    requires w in was.workers && was.workers[w].task == Some(Task(e, Look))
    requires RowOf(was, e).None? || RowOf(was, e).value.status in {Received, Retrying, Failed}
    ensures Legal(limit, start, acts) && t == Exec(limit, start, acts) && OnlyOn(was, t, e)
    ensures RowOf(t, e).Some? && RowOf(t, e).value.status == Processed
    ensures HistoryOf(t, e).successes == HistoryOf(was, e).successes + 1
    ensures w in t.workers && t.workers[w] == was.workers[w].(pos := was.workers[w].pos + 1, task := None)
    ensures CommittedOf(t, was.workers[w].partition) == was.workers[w].pos + 1
  {
    var s;
    acts, s := Climbs(limit, start, before, was, w, e);
    hide *;
    acts, t := Finishes(limit, start, acts, s, w, e);
    OnlyOnBoth(was, s, t, e);
  }

  /** One of an event that is settled commits the offset and moves on, and changes nothing else. */
  lemma SkipsAndCommits(limit: nat, start: State, before: seq<Action>, was: State, w: WorkerId, e: EventId)
    returns (acts: seq<Action>, t: State)
    requires Legal(limit, start, before) && was == Exec(limit, start, before)
    requires w in was.workers && was.workers[w].task == Some(Task(e, Look)) && Settled(RowOf(was, e))
    ensures Legal(limit, start, acts) && t == Exec(limit, start, acts) && OnlyOn(was, t, e)
    ensures RowOf(t, e) == RowOf(was, e) && HistoryOf(t, e).successes == HistoryOf(was, e).successes
    ensures w in t.workers && t.workers[w] == was.workers[w].(pos := was.workers[w].pos + 1, task := None)
    ensures CommittedOf(t, was.workers[w].partition) == was.workers[w].pos + 1
  {
    hide Legal, Exec, CommittedOf, HistoryOf, OnlyOn, RowOf;
    var s;
    acts, s := OneMore(limit, start, before, was, w, e, Look);
    acts, t := OneMore(limit, start, acts, s, w, e, CommitSkip);
    OnlyOnBoth(was, s, t, e);
  }

  /* ---- A whole partition ---- */

  /** Nothing about the message keeps a delivery from going through: it can be decoded, and its record does
      not say that another worker is on it. */
  ghost predicate Deliverable(s: State, m: Message) {
    !m.Poison? && (m.Event? && RowOf(s, m.id).Some? ==> RowOf(s, m.id).value.status != Processing)
  }

  ghost predicate DealtWith(s: State, m: Message) {
    m.Event? ==> Settled(RowOf(s, m.id))
  }

  /** No row has changed but from unsettled to settled, and the logs are the same. */
  ghost predicate OnlySettles(s: State, t: State) {
    t.logs == s.logs && forall e :: RowOf(t, e) == RowOf(s, e) || (!Settled(RowOf(s, e)) && Settled(RowOf(t, e)))
  }

  lemma OnlyOnSettles(s: State, t: State, e: EventId)
    requires OnlyOn(s, t, e) && Settled(RowOf(t, e)) && (Settled(RowOf(s, e)) ==> RowOf(t, e) == RowOf(s, e))
    ensures OnlySettles(s, t)
  {
  }

  lemma SettlesBoth(s: State, t: State, u: State)
    requires OnlySettles(s, t) && OnlySettles(t, u)
    ensures OnlySettles(s, u)
  {
    forall e ensures RowOf(u, e) == RowOf(s, e) || (!Settled(RowOf(s, e)) && Settled(RowOf(u, e))) {
      assert RowOf(t, e) == RowOf(s, e) || (!Settled(RowOf(s, e)) && Settled(RowOf(t, e)));
    }
  }

  /** The worker stands between deliveries at `pos` of partition `p`. */
  ghost predicate Stands(s: State, w: WorkerId, p: Partition, pos: nat) {
    w in s.workers && s.workers[w] == Worker(p, pos, None)
  }

  lemma Meets(limit: nat, start: State, before: seq<Action>, was: State, w: WorkerId, p: Partition, pos: nat)
    returns (acts: seq<Action>, t: State)
    requires Legal(limit, start, before) && was == Exec(limit, start, before)
    requires Stands(was, w, p, pos) && pos < |LogOf(was, p)| && !LogOf(was, p)[pos].Poison?
    ensures Legal(limit, start, acts) && t == Exec(limit, start, acts)
    ensures t.logs == was.logs && t.rows == was.rows && t.committed == was.committed && w in t.workers
    ensures match LogOf(was, p)[pos]
      case Event(e) => t.workers[w] == Worker(p, pos, Some(Task(e, Look)))
      case _ => t.workers[w] == Worker(p, pos + 1, None)
  {
    hide Legal, Exec;
    ExecExtend(limit, start, before, Deliver(w));
    acts, t := before + [Deliver(w)], Delivered(was, w);
  }

  lemma SameRows(s: State, t: State)
    requires t.rows == s.rows && t.logs == s.logs
    ensures OnlySettles(s, t) && forall e :: OnlyOn(t, s, e) && OnlyOn(s, t, e)
  {
  }

  /** One message. */
  lemma GetsPast(limit: nat, start: State, before: seq<Action>, was: State, w: WorkerId, p: Partition, pos: nat)
    returns (acts: seq<Action>, t: State)
    requires Legal(limit, start, before) && was == Exec(limit, start, before)
    requires Stands(was, w, p, pos) && pos < |LogOf(was, p)| && Deliverable(was, LogOf(was, p)[pos])
    ensures Legal(limit, start, acts) && t == Exec(limit, start, acts)
    ensures Stands(t, w, p, pos + 1) && OnlySettles(was, t) && DealtWith(t, LogOf(was, p)[pos])
    ensures CommittedOf(t, p) == if LogOf(was, p)[pos].Event? then pos + 1 else CommittedOf(was, p)
  {
    var s;
    acts, s := Meets(limit, start, before, was, w, p, pos);
    SameRows(was, s);
    match LogOf(was, p)[pos]
    case Event(e) =>
      assert RowOf(s, e) == RowOf(was, e);
      hide Legal, Exec, OnlySettles, OnlyOn, RowOf, HistoryOf, CommittedOf, LogOf;
      if Settled(RowOf(s, e)) {
        acts, t := SkipsAndCommits(limit, start, acts, s, w, e);
      } else {
        acts, t := HandlesAndCommits(limit, start, acts, s, w, e);
      }
      OnlyOnSettles(s, t, e);
      SettlesBoth(was, s, t);
    case _ =>
      t := s;
  }

  lemma StaysDealtWith(s: State, t: State, m: Message)
    requires OnlySettles(s, t)
    ensures DealtWith(s, m) ==> DealtWith(t, m)
    ensures Deliverable(s, m) ==> Deliverable(t, m)
  {
    if m.Event? {
      assert RowOf(t, m.id) == RowOf(s, m.id) || (!Settled(RowOf(s, m.id)) && Settled(RowOf(t, m.id)));
    }
  }

  /** A worker left to itself, whose calls return, gets to the end of its partition: every event on the way
      ends settled, with the offset committed past the last of them. */
  lemma {:induction false} WorksOffPartition(limit: nat, start: State, before: seq<Action>, was: State,
                                             w: WorkerId, p: Partition, pos: nat)
    returns (acts: seq<Action>, t: State)
    requires Legal(limit, start, before) && was == Exec(limit, start, before)
    requires Stands(was, w, p, pos) && pos <= |LogOf(was, p)|
    requires forall i :: pos <= i < |LogOf(was, p)| ==> Deliverable(was, LogOf(was, p)[i])
    ensures Legal(limit, start, acts) && t == Exec(limit, start, acts)
    ensures Stands(t, w, p, |LogOf(was, p)|) && OnlySettles(was, t)
    ensures forall i :: pos <= i < |LogOf(was, p)| ==> DealtWith(t, LogOf(was, p)[i])
    ensures forall i :: pos <= i < |LogOf(was, p)| && LogOf(was, p)[i].Event? ==> CommittedOf(t, p) > i
    ensures CommittedOf(t, p) == CommittedOf(was, p) || pos < CommittedOf(t, p) <= |LogOf(was, p)|
    decreases |LogOf(was, p)| - pos
  {
    var messages := LogOf(was, p);
    if pos == |messages| {
      acts, t := before, was;
      SameRows(was, was);
    } else {
      var s;
      acts, s := GetsPast(limit, start, before, was, w, p, pos);
      assert LogOf(s, p) == messages;
      forall i | pos < i < |messages| ensures Deliverable(s, messages[i]) {
        StaysDealtWith(was, s, messages[i]);
      }
      hide Legal, Exec, OnlySettles, Deliverable, DealtWith, CommittedOf, Stands;
      acts, t := WorksOffPartition(limit, start, acts, s, w, p, pos + 1);
      StaysDealtWith(s, t, messages[pos]);
      SettlesBoth(was, s, t);
    }
  }
}
