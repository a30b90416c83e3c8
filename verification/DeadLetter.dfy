/** Dead letters: the record the consumer publishes when it gives an event up
    (packages/common/src/messaging/consumer.ts, lines 402 to 424), and its replay
    (packages/common/src/messaging/dead-letter.replayer.ts). */
module DeadLetter {
  import opened Awaits
  import opened Events
  import opened Serializer
  import opened Topics
  import opened Wrappers
  import C = InboxConsumer
  import I = InboxProtocol
  import IR = InboxRepository
  import InboxRetries
  import X = InboxReplay

  const DEAD_LETTER_EVENT_TYPE := "DeadLetterRecord"

  datatype Message = Message(topic: string, key: Value, value: Buffer)

  /** `producer.publish`, up to the send. */
  function Publish(topic: string, key: Value, e: Envelope, parses: string -> bool): Result<Message, Error> {
    var value :- Serialize(e, parses);
    Ok(Message(topic, key, value))
  }

  /* ---- The consumer's record ---- */

  function DeadLetterRecord(e: Envelope, reason: string, retryCount: nat, consumer: string, failedAt: string): Value {
    Object([
      Member("originalEvent", EnvelopeObject(e)),
      Member("failureReason", Text(reason)),
      Member("retryCount", Number(Finite(retryCount as real))),
      Member("consumer", Text(consumer)),
      Member("failedAt", Text(failedAt)),
      Member("dlqTopic", Text(DLQ_TOPIC))])
  }

  function DlqEnvelope(e: Envelope, reason: string, retryCount: nat, consumer: string, failedAt: string, now: string)
    : Envelope
  {
    Envelope(
      e.eventId, Text(DEAD_LETTER_EVENT_TYPE), e.correlationId, e.eventId, e.sagaId, Text(now), Number(Finite(1.0)),
      DeadLetterRecord(e, reason, retryCount, consumer, failedAt), [])
  }

  /** Every event a consumer can have in hand can be dead-lettered: the record's envelope always passes
      `serialize`, reads back as itself, and holds the event. `now` is a Date's ISO string. */
  lemma AlwaysDeadLetters(wire: Buffer, reason: string, retryCount: nat, consumer: string, failedAt: string,
                          now: string, parses: string -> bool, upgrades: Upgrades, fuel: nat)
    requires Deserialize(wire, parses, upgrades, fuel).Ok? && IsJson(wire.value)
    requires IsTimestamp(Text(now), parses)
    ensures
      var e := Deserialize(wire, parses, upgrades, fuel).value;
      var dlq := DlqEnvelope(e, reason, retryCount, consumer, failedAt, now);
      var sent := Publish(DLQ_TOPIC, e.eventId, dlq, parses);
      && sent.Ok? && sent.value.topic == DLQ_TOPIC && sent.value.key == e.eventId
      && Deserialize(sent.value.value, parses, upgrades, fuel) == Ok(dlq)
      && dlq.eventId == e.eventId && dlq.causationId == e.eventId
      && OriginalEvent(dlq.payload) == Some(EnvelopeObject(e))
  {
    DeserializeIsExact(wire, parses, upgrades, fuel);
    var e := Deserialize(wire, parses, upgrades, fuel).value;
    var dlq := DlqEnvelope(e, reason, retryCount, consumer, failedAt, now);
    assert !Blank(DEAD_LETTER_EVENT_TYPE) by {
      assert !IsSpace(DEAD_LETTER_EVENT_TYPE[0]);
    }
    assert WellFormed(dlq, parses);
    SerializeAccepts(dlq, parses);
    var members := dlq.payload.members;
    assert forall i :: 0 <= i < |members| ==> IsJson(members[i].value);
    assert IsJson(dlq.payload);
    RoundTrip(dlq, parses, upgrades, fuel);
    assert Canonical(dlq) == dlq;
    assert FirstProperty(members, "originalEvent") == Some(EnvelopeObject(e));
  }

  /* ---- The replayer ---- */

  function FirstProperty(members: seq<Member>, key: string): Option<Value> {
    if |members| == 0 then None
    else if members[0].key == key then Some(members[0].value)
    else FirstProperty(members[1..], key)
  }

  predicate Falsy(v: Value) {
    match v
    case Undefined => true
    case Null => true
    case Bool(b) => !b
    case Number(n) => n.NaN? || (n.Finite? && n.r == 0.0)
    case Text(s) => s == ""
    case _ => false
  }

  /** `record.originalEvent`, when there is a record and it is truthy. */
  function OriginalEvent(record: Value): Option<Value> {
    if record.Object? then
      var found := FirstProperty(record.members, "originalEvent");
      if found.Some? && Falsy(found.value) then None else found
    else None
  }

  datatype ReplayError = MissingOriginal | InvalidOriginal | UnknownTopic | PublishFailed

  /** `replay`, up to the send: the message it republishes, or why it refuses. */
  function Replay(record: Value, parses: string -> bool, upgrades: Upgrades, fuel: nat): Result<Message, ReplayError> {
    match OriginalEvent(record)
    case None => Err(MissingOriginal)
    case Some(envelope) =>
      match SerializeValue(envelope, parses)
      case Err(_) => Err(InvalidOriginal)
      case Ok(serialized) =>
        match Deserialize(serialized, parses, upgrades, fuel)
        case Err(_) => Err(InvalidOriginal)
        case Ok(validated) =>
          match if validated.eventType.Text? then TopicFor(validated.eventType.s) else None
          case None => Err(UnknownTopic)
          case Some(topic) =>
            match Publish(topic, validated.eventId, validated, parses)
            case Err(_) => Err(PublishFailed)
            case Ok(message) => Ok(message)
  }

  /** The round trip: replaying the record of an event republishes that event, under its own eventId,
      exactly when its type has a topic. What goes out is the message that came in, less any property
      that is not an envelope's; the same JSON value when it had none, as no producer of ours adds any. */
  lemma ReplayRepublishes(wire: Buffer, reason: string, retryCount: nat, consumer: string, failedAt: string,
                          parses: string -> bool, upgrades: Upgrades, fuel: nat)
    requires Deserialize(wire, parses, upgrades, fuel).Ok? && IsJson(wire.value)
    ensures
      var e := Deserialize(wire, parses, upgrades, fuel).value;
      var replayed := Replay(DeadLetterRecord(e, reason, retryCount, consumer, failedAt), parses, upgrades, fuel);
      match TopicFor(e.eventType.s)
      case None => replayed == Err(UnknownTopic)
      case Some(topic) =>
        && replayed.Ok? && replayed.value.topic == topic && replayed.value.key == e.eventId
        && Deserialize(replayed.value.value, parses, upgrades, fuel) == Ok(Canonical(e))
        && (|e.extra| == 0 ==> replayed.value.value == wire)
  {
    hide Deserialize, Serialize, ThroughJson;
    DeserializeIsExact(wire, parses, upgrades, fuel);
    var e := Deserialize(wire, parses, upgrades, fuel).value;
    var c := Canonical(e);
    Reserialize(wire, parses, upgrades, fuel);
    var again := Json(EnvelopeObject(c));
    assert WellFormed(c, parses) == WellFormed(e, parses);
    DeserializeIsExact(again, parses, upgrades, fuel);
    assert Deserialize(again, parses, upgrades, fuel) == Ok(c);
    assert IsJson(again.value);
    Reserialize(again, parses, upgrades, fuel);
    var record := DeadLetterRecord(e, reason, retryCount, consumer, failedAt);
    assert FirstProperty(record.members, "originalEvent") == Some(EnvelopeObject(e));
  }

  /** Of records in general: a replay fails exactly when the original is missing, is no envelope that
      survives the wire, or has a type without a topic; otherwise what it publishes is that envelope. */
  lemma ReplaysExactly(record: Value, parses: string -> bool, upgrades: Upgrades, fuel: nat)
    ensures
      var replayed := Replay(record, parses, upgrades, fuel);
      match OriginalEvent(record)
      case None => replayed == Err(MissingOriginal)
      case Some(original) =>
        if !original.EnvelopeObject? || !WellFormed(original.env, parses) || original.env.version != AtVersion(1)
           || original.env.payload == Opaque
        then replayed == Err(InvalidOriginal)
        else
          var e := original.env;
          match TopicFor(e.eventType.s)
          case None => replayed == Err(UnknownTopic)
          case Some(topic) =>
            && replayed.Ok? && replayed.value.topic == topic && replayed.value.key == e.eventId
            && Deserialize(replayed.value.value, parses, upgrades, fuel)
                 == Ok(Canonical(e).(payload := ThroughJson(e.payload)))
  {
    var original := OriginalEvent(record);
    if original.Some? && original.value.EnvelopeObject? {
      var e := original.value.env;
      SerializeAccepts(e, parses);
      if Serialize(e, parses).Ok? {
        RoundTrip(e, parses, upgrades, fuel);
        OnlyJsonComesBack(e.payload);
        var validated := Canonical(e).(payload := ThroughJson(e.payload));
        SerializeAccepts(validated, parses);
        hide Serialize, Deserialize, ThroughJson, IsJson, TopicFor;
        if e.payload != Opaque {
          assert Serialize(validated, parses).Ok?;
          RoundTrip(validated, parses, upgrades, fuel);
        }
      }
    }
  }

  /** A dead letter of a dead letter cannot be replayed: its type has no topic. */
  lemma NestedDeadLetter(e: Envelope)
    requires e.eventType == Text(DEAD_LETTER_EVENT_TYPE)
    ensures TopicFor(e.eventType.s).None?
  {
    assert DEAD_LETTER_EVENT_TYPE[0] != PAYMENT_INITIATED[0] && DEAD_LETTER_EVENT_TYPE[0] != DLQ_TOPIC[0];
  }

  /* ---- What a consumer makes of a message ---- */

  function EventIdOf(e: Envelope): EventId {
    EventId(if e.eventId.Text? then e.eventId.s else "")
  }

  /** The first lines of eachMessage: nothing to read, unreadable, or an event. */
  function Classify(value: Option<Buffer>, parses: string -> bool, upgrades: Upgrades, fuel: nat): I.Message {
    match value
    case None => I.Tombstone
    case Some(buffer) =>
      match Deserialize(buffer, parses, upgrades, fuel)
      case Err(_) => I.Poison
      case Ok(e) => I.Event(EventIdOf(e))
  }

  /** A replayed event meets the inbox row of the original. */
  lemma ReplayHitsTheSameRow(wire: Buffer, reason: string, retryCount: nat, consumer: string, failedAt: string,
                             parses: string -> bool, upgrades: Upgrades, fuel: nat)
    requires Deserialize(wire, parses, upgrades, fuel).Ok? && IsJson(wire.value)
    ensures
      var e := Deserialize(wire, parses, upgrades, fuel).value;
      var replayed := Replay(DeadLetterRecord(e, reason, retryCount, consumer, failedAt), parses, upgrades, fuel);
      && Classify(Some(wire), parses, upgrades, fuel) == I.Event(EventIdOf(e))
      && (replayed.Ok? ==>
            Classify(Some(replayed.value.value), parses, upgrades, fuel)
              == Classify(Some(wire), parses, upgrades, fuel))
  {
    ReplayRepublishes(wire, reason, retryCount, consumer, failedAt, parses, upgrades, fuel);
  }

  /** Until a reset, no delivery of a replayed event reaches its handler, whatever else happens; the
      operator's reset is the only way back. */
  lemma NotHandledUntilReset(limit: nat, s: I.State, acts: seq<I.Action>, e: EventId)
    requires I.Reachable(limit, s) && I.Unheld(s, e) && e in s.rows && s.rows[e].status.DlqSent?
    requires I.Legal(limit, s, acts) && forall i :: 0 <= i < |acts| ==> !I.Resets(acts[i], e)
    ensures var s' := I.Exec(limit, s, acts);
      && I.RowOf(s', e) == I.RowOf(s, e) && I.HistoryOf(s', e) == I.HistoryOf(s, e)
      && forall w :: w in s'.workers ==> !X.Running(s'.workers[w], e)
  {
    I.ReachableInv(limit, s);
    I.SettledIsFinal(limit, s, acts, e);
    assert forall w: I.Worker :: X.Running(w, e) ==> I.Holding(w, e);
  }

  /** Its delivery can always go through: it reads DLQ_SENT and commits past the message. */
  lemma SkippedUnlessReset(limit: nat, s: I.State, e: EventId, w: I.WorkerId) returns (acts: seq<I.Action>)
    requires w in s.workers && s.workers[w].task == Some(I.Task(e, C.Look))
    requires e in s.rows && s.rows[e].status.DlqSent?
    ensures I.Legal(limit, s, acts)
    ensures var s' := I.Exec(limit, s, acts);
      && I.RowOf(s', e) == I.RowOf(s, e)
      && w in s'.workers && s'.workers[w] == s.workers[w].(pos := s.workers[w].pos + 1, task := None)
  {
    acts := X.Nothing(limit, s);
    hide I.Legal, I.Exec;
    var t := s;
    acts, t := X.OneMore(limit, s, acts, t, w, e, C.Look, Returns);
    acts, t := X.OneMore(limit, s, acts, t, w, e, C.CommitSkip, Returns);
  }

  /** After a reset the row claims again with count 0, and its handler can be reached. */
  lemma HandledAfterReset(limit: nat, s: I.State, e: EventId)
    requires e in s.rows && s.rows[e].status.DlqSent?
    ensures var s' := I.Apply(limit, s, I.PrepareForReplay(e));
      && I.RowOf(s', e) == Some(IR.Row(IR.Retrying, 0))
      && exists acts, v :: I.Legal(limit, s', acts) && v in I.Exec(limit, s', acts).workers
           && X.Running(I.Exec(limit, s', acts).workers[v], e)
  {
    var s' := I.Apply(limit, s, I.PrepareForReplay(e));
    hide I.Reachable, I.Legal, I.Exec;
    var acts, v := X.EnterHandler(limit, s', e);
  }

  /* ---- The budget a reset gives ---- */

  /** What the next await of a delivery of `e` leads to, if that is what the action is. */
  function NextPc(limit: nat, s: I.State, a: I.Action, e: EventId): Option<C.Pc> {
    if a.Advance? && a.worker in s.workers then
      var task := s.workers[a.worker].task;
      if task.Some? && task.value.event == e then Some(C.Step(limit, task.value.pc, I.RowOf(s, e), a.await).pc)
      else None
    else None
  }

  /** How often a run starts the handler of `e`. */
  ghost function Starts(limit: nat, s: I.State, acts: seq<I.Action>, e: EventId): nat
    requires I.Legal(limit, s, acts)
    decreases |acts|
  {
    if |acts| == 0 then 0
    else
      var next := NextPc(limit, s, acts[0], e);
      (if next.Some? && next.value.Handle? then 1 else 0) + Starts(limit, I.Apply(limit, s, acts[0]), acts[1..], e)
  }

  /** How often it fails to forward `e` to the dead-letter topic. */
  ghost function FailedForwards(limit: nat, s: I.State, acts: seq<I.Action>, e: EventId): nat
    requires I.Legal(limit, s, acts)
    decreases |acts|
  {
    if |acts| == 0 then 0
    else
      var next := NextPc(limit, s, acts[0], e);
      (if next.Some? && next.value.WriteFailed? then 1 else 0)
        + FailedForwards(limit, I.Apply(limit, s, acts[0]), acts[1..], e)
  }

  lemma StepCounts(limit: nat, s: I.State, a: I.Action, e: EventId)
    requires I.Enabled(s, a) && !I.Resets(a, e)
    ensures var h, h' := I.HistoryOf(s, e), I.HistoryOf(I.Apply(limit, s, a), e);
      var next := NextPc(limit, s, a, e);
      && h'.early == h.early
      && h'.runs == h.runs + (if next.Some? && next.value.Handle? then 1 else 0)
      && h'.forwards == h.forwards + (if next.Some? && next.value.WriteFailed? then 1 else 0)
  {
    hide C.Step;
  }

  lemma {:induction false} RunCounts(limit: nat, s: I.State, acts: seq<I.Action>, e: EventId)
    requires I.Reachable(limit, s) && I.Legal(limit, s, acts)
    requires forall i :: 0 <= i < |acts| ==> !I.Resets(acts[i], e)
    ensures I.Reachable(limit, I.Exec(limit, s, acts))
    ensures var h, h' := I.HistoryOf(s, e), I.HistoryOf(I.Exec(limit, s, acts), e);
      && h'.early == h.early
      && h'.runs == h.runs + Starts(limit, s, acts, e)
      && h'.forwards == h.forwards + FailedForwards(limit, s, acts, e)
    decreases |acts|
  {
    if |acts| > 0 {
      StepCounts(limit, s, acts[0], e);
      I.ReachableStep(limit, s, acts[0]);
      hide I.Reachable, I.Apply, NextPc;
      RunCounts(limit, I.Apply(limit, s, acts[0]), acts[1..], e);
    }
  }

  /** The fresh budget: in every run after a reset in time, up to the next one, the handler is started at most
      limit + 1 times, plus once for each forward that failed, whatever happened before the reset. */
  lemma FreshBudgetAfterReset(limit: nat, s: I.State, e: EventId, acts: seq<I.Action>)
    requires I.Reachable(limit, s) && e in s.rows && s.rows[e].status.DlqSent?
    requires I.HistoryOf(s, e).early == 0 && !I.AnyExposed(s, e)
    requires I.Legal(limit, I.Apply(limit, s, I.PrepareForReplay(e)), acts)
    requires forall i :: 0 <= i < |acts| ==> !I.Resets(acts[i], e)
    ensures var s' := I.Apply(limit, s, I.PrepareForReplay(e));
      Starts(limit, s', acts, e) <= limit + 1 + FailedForwards(limit, s', acts, e)
  {
    var s' := I.Apply(limit, s, I.PrepareForReplay(e));
    I.ReachableStep(limit, s, I.PrepareForReplay(e));
    assert I.HistoryOf(s', e).runs == 0 && I.HistoryOf(s', e).forwards == 0 && I.HistoryOf(s', e).early == 0;
    hide I.Reachable, I.Apply, I.Legal, I.Exec;
    RunCounts(limit, s', acts, e);
    InboxRetries.RetryAccounting(limit, I.Exec(limit, s', acts), e);
  }
}
