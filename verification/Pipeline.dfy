/** The outbox relay and a consumer group, joined by the broker.

    A relay append puts the row's event into some partition of the topic. Other producers (a replay, a
    foreign message) append as they like. Everything interleaves. */
module Pipeline {
  import opened Events
  import B = BatchPublisher
  import C = InboxConsumer
  import D = DeadLetter
  import I = InboxProtocol
  import O = OutboxProtocol
  import S = Serializer
  import X = InboxExclusion
  import opened Wrappers

  datatype State = State(outbox: O.State, inbox: I.State)

  datatype Action =
    | Relay(act: O.Action, partition: I.Partition)
    | Consume(step: I.Action)

  /** The configured limits: `retryLimit` bounds the relay's attempts, `consumerRetryLimit` the consumer's
      retries. */
  datatype Limits = Limits(retryLimit: int, consumerRetryLimit: int) {
    function Consumer(): nat {
      C.RetryLimit(consumerRetryLimit)
    }
  }

  const Initial := State(O.Initial, I.Initial)

  ghost predicate Enabled(s: State, a: Action) {
    match a
    case Relay(act, _) => O.Enabled(s.outbox, act)
    case Consume(step) => I.Enabled(s.inbox, step)
  }

  ghost function Apply(limits: Limits, s: State, a: Action): State
    requires Enabled(s, a)
  {
    match a
    case Relay(act, p) =>
      State(O.Apply(limits.retryLimit, s.outbox, act),
            if act.Append? then I.Apply(limits.Consumer(), s.inbox, I.Append(p, I.Event(act.id))) else s.inbox)
    case Consume(step) => State(s.outbox, I.Apply(limits.Consumer(), s.inbox, step))
  }

  ghost predicate Legal(limits: Limits, s: State, acts: seq<Action>)
    decreases |acts|
  {
    |acts| == 0 || (Enabled(s, acts[0]) && Legal(limits, Apply(limits, s, acts[0]), acts[1..]))
  }

  ghost function Exec(limits: Limits, s: State, acts: seq<Action>): State
    requires Legal(limits, s, acts)
    decreases |acts|
  {
    if |acts| == 0 then s else Exec(limits, Apply(limits, s, acts[0]), acts[1..])
  }

  ghost predicate Reachable(limits: Limits, s: State) {
    exists acts :: Legal(limits, Initial, acts) && s == Exec(limits, Initial, acts)
  }

  ghost predicate InPartition(s: I.State, e: EventId, p: I.Partition) {
    I.Event(e) in I.LogOf(s, p)
  }

  /** Every event the relay appended lies in some partition of the topic. */
  ghost predicate Carried(s: State) {
    forall e :: O.Copies(s.outbox, e) > 0 ==> exists p :: InPartition(s.inbox, e, p)
  }

  lemma LogsGrow(limit: nat, s: I.State, a: I.Action, p: I.Partition)
    requires I.Enabled(s, a)
    ensures I.LogOf(s, p) <= I.LogOf(I.Apply(limit, s, a), p)
  {
  }

  lemma StaysInPartition(limit: nat, s: I.State, a: I.Action, e: EventId, p: I.Partition)
    requires I.Enabled(s, a) && InPartition(s, e, p)
    ensures InPartition(I.Apply(limit, s, a), e, p)
  {
    LogsGrow(limit, s, a, p);
  }

  lemma CarriedStep(limits: Limits, s: State, a: Action)
    requires Carried(s) && O.Reachable(limits.retryLimit, s.outbox) && Enabled(s, a)
    ensures Carried(Apply(limits, s, a))
  {
    var s' := Apply(limits, s, a);
    forall e | O.Copies(s'.outbox, e) > 0
      ensures exists p :: InPartition(s'.inbox, e, p)
    {
      if a.Relay? && a.act.Append? && a.act.id == e {
        assert I.LogOf(s'.inbox, a.partition) == I.LogOf(s.inbox, a.partition) + [I.Event(e)];
        assert InPartition(s'.inbox, e, a.partition);
      } else {
        if a.Relay? && !a.act.Append? {
          O.ReachableInv(limits.retryLimit, s.outbox);
          O.OnlyAppendsCopy(limits.retryLimit, s.outbox, a.act);
        }
        assert O.Copies(s.outbox, e) > 0;
        var p :| InPartition(s.inbox, e, p);
        if a.Consume? {
          StaysInPartition(limits.Consumer(), s.inbox, a.step, e, p);
        } else if a.act.Append? {
          StaysInPartition(limits.Consumer(), s.inbox, I.Append(a.partition, I.Event(a.act.id)), e, p);
        }
        assert InPartition(s'.inbox, e, p);
      }
    }
  }

  ghost predicate Inv(limits: Limits, s: State) {
    O.Reachable(limits.retryLimit, s.outbox) && I.Reachable(limits.Consumer(), s.inbox) && Carried(s)
  }

  lemma InvStep(limits: Limits, s: State, a: Action)
    requires Inv(limits, s) && Enabled(s, a)
    ensures Inv(limits, Apply(limits, s, a))
  {
    CarriedStep(limits, s, a);
    hide Carried, I.Reachable, O.Reachable, I.Apply, O.Apply;
    match a
    case Relay(act, p) =>
      O.ReachableStep(limits.retryLimit, s.outbox, act);
      if act.Append? {
        I.ReachableStep(limits.Consumer(), s.inbox, I.Append(p, I.Event(act.id)));
      }
    case Consume(step) => I.ReachableStep(limits.Consumer(), s.inbox, step);
  }

  lemma {:induction false} InvRun(limits: Limits, s: State, acts: seq<Action>)
    requires Inv(limits, s) && Legal(limits, s, acts)
    ensures Inv(limits, Exec(limits, s, acts))
    decreases |acts|
  {
    hide Inv, Apply;
    if |acts| > 0 {
      InvStep(limits, s, acts[0]);
      InvRun(limits, Apply(limits, s, acts[0]), acts[1..]);
    }
  }

  lemma ReachableInv(limits: Limits, s: State)
    requires Reachable(limits, s)
    ensures Inv(limits, s)
  {
    var acts :| Legal(limits, Initial, acts) && s == Exec(limits, Initial, acts);
    assert O.Legal(limits.retryLimit, O.Initial, []) && I.Legal(limits.Consumer(), I.Initial, []);
    assert O.Exec(limits.retryLimit, O.Initial, []) == O.Initial;
    assert I.Exec(limits.Consumer(), I.Initial, []) == I.Initial;
    assert Inv(limits, Initial);
    InvRun(limits, Initial, acts);
  }

  /** A consumer of partition `p` has moved past some copy of the event. */
  ghost predicate Passed(s: I.State, e: EventId, p: I.Partition) {
    p in s.committed && exists i :: 0 <= i < s.committed[p] && i < |I.LogOf(s, p)| && I.LogOf(s, p)[i] == I.Event(e)
  }

  /** What an append stands for: the bytes the publisher sends for a row as it was created are, to every
      consumer, the event with that row's id; all but a payload JSON cannot carry, which a column of
      JSON never holds. */
  lemma WireIsTheEvent(events: seq<B.OutboxEvent>, i: nat, parses: string -> bool, upgrades: S.Upgrades, fuel: nat)
    requires B.Wire(events, parses).Some? && B.Faithful(events) && i < |events|
    ensures |B.Wire(events, parses).value| == |events| && events[i].payload.EnvelopeObject?
    ensures D.Classify(Some(B.Wire(events, parses).value[i].message.value), parses, upgrades, fuel)
         == if events[i].payload.env.payload.Opaque? then I.Poison else I.Event(events[i].id)
  {
    B.WireAt(events, parses, i);
    S.RoundTrip(events[i].payload.env, parses, upgrades, fuel);
    hide S.Serialize, S.Deserialize, B.Wire;
    assert EventId(events[i].id.text) == events[i].id;
  }

  /** End to end: the relay may publish an event several times, and its consumers may meet it many
      more, yet its handler succeeds at most once, plus once per exception after a success, plus once per
      early reset; and once any partition's offset is past a copy, the event was handled or dead-lettered. */
  lemma EffectivelyOnce(limits: Limits, s: State, e: EventId)
    requires Reachable(limits, s) && e in s.outbox.rows && s.outbox.rows[e].status.Published?
    ensures 1 <= O.Copies(s.outbox, e) <= O.Limit(limits.retryLimit)
    ensures exists p :: InPartition(s.inbox, e, p)
    ensures var h := I.HistoryOf(s.inbox, e); h.successes <= h.late + 1 + h.early
    ensures forall p :: Passed(s.inbox, e, p) ==> I.Accounted(I.HistoryOf(s.inbox, e))
  {
    ReachableInv(limits, s);
    O.PublishedIsInLog(limits.retryLimit, s.outbox, e);
    X.SuccessesBounded(limits.Consumer(), s.inbox, e);
    forall p | Passed(s.inbox, e, p)
      ensures I.Accounted(I.HistoryOf(s.inbox, e))
    {
      var i :| 0 <= i < s.inbox.committed[p] && i < |I.LogOf(s.inbox, p)| && I.LogOf(s.inbox, p)[i] == I.Event(e);
      I.NoSilentLoss(limits.Consumer(), s.inbox, p, i);
    }
  }

  /** Exactly once: where nothing threw after a success and nothing was dead-lettered, an event that
      some partition's offset has passed was handled successfully exactly once, however operators reset. */
  lemma ExactlyOnce(limits: Limits, s: State, e: EventId, p: I.Partition)
    requires Reachable(limits, s) && Passed(s.inbox, e, p)
    requires I.HistoryOf(s.inbox, e).late == 0 && I.HistoryOf(s.inbox, e).records == 0
    ensures I.HistoryOf(s.inbox, e).successes == 1
  {
    ReachableInv(limits, s);
    X.SuccessesBounded(limits.Consumer(), s.inbox, e);
    if I.HistoryOf(s.inbox, e).early > 0 {
      I.ResetMeansRecorded(limits.Consumer(), s.inbox, e);
    }
    var i :| 0 <= i < s.inbox.committed[p] && i < |I.LogOf(s.inbox, p)| && I.LogOf(s.inbox, p)[i] == I.Event(e);
    I.NoSilentLoss(limits.Consumer(), s.inbox, p, i);
  }
}
