/** From claimed rows to topic batches and back to row ids (apps/outbox-relay/src/publisher.ts,
    packages/common/src/messaging/producer.ts). */
module BatchPublisher {
  import opened Events
  import opened Serializer
  import opened Topics
  import opened Wrappers
  import R = OutboxRepository

  datatype Failure = EnvelopeMismatch | NoTopic | Unserializable | BrokerFailed

  datatype Item = Item(topic: string, key: string, event: Value)

  datatype Message = Message(key: string, value: Buffer)

  datatype Prepared = Prepared(topic: string, message: Message)

  datatype TopicMessages = TopicMessages(topic: string, messages: seq<Message>)

  /** One entry of what the broker returns. */
  datatype Ack = Ack(topicName: string, partition: int, offset: Option<string>)

  datatype Metadata = Metadata(eventId: Value, topicName: string, partition: int, offset: string)

  /** A claimed row, with its payload column. */
  datatype OutboxEvent = OutboxEvent(
    id: EventId,
    eventType: string,
    aggregateId: string,
    createdAt: int,
    payload: Value)

  /* ---- The producer ---- */

  predicate Serializable(item: Item, parses: string -> bool) {
    SerializeValue(item.event, parses).Ok?
  }

  function Prepare(item: Item, parses: string -> bool): Prepared
    requires Serializable(item, parses)
  {
    Prepared(item.topic, Message(item.key, SerializeValue(item.event, parses).value))
  }

  /** The positions of the messages for one topic, in order. */
  function Positions(prepared: seq<Prepared>, topic: string): (p: seq<nat>)
    ensures forall k :: 0 <= k < |p| ==> p[k] < |prepared| && prepared[p[k]].topic == topic
    ensures forall j, k :: 0 <= j < k < |p| ==> p[j] < p[k]
  {
    if |prepared| == 0 then []
    else
      var last := |prepared| - 1;
      var before := Positions(prepared[..last], topic);
      assert forall k :: 0 <= k < |before| ==> prepared[..last][before[k]] == prepared[before[k]];
      before + if prepared[last].topic == topic then [last] else []
  }

  /** Every position with that topic is among them. */
  lemma {:induction false} PositionOf(prepared: seq<Prepared>, topic: string, i: nat) returns (k: nat)
    requires i < |prepared| && prepared[i].topic == topic
    ensures k < |Positions(prepared, topic)| && Positions(prepared, topic)[k] == i
  {
    var last := |prepared| - 1;
    if i < last {
      k := PositionOf(prepared[..last], topic, i);
    } else {
      k := |Positions(prepared[..last], topic)|;
    }
  }

  /** The messages at some positions. */
  function At(prepared: seq<Prepared>, positions: seq<nat>): seq<Message>
    requires forall k :: 0 <= k < |positions| ==> positions[k] < |prepared|
  {
    seq(|positions|, k requires 0 <= k < |positions| => prepared[positions[k]].message)
  }

  /** `sent` is the input split by topic: each topic of the input once, with exactly its messages, in
      their order. */
  ghost predicate IsGrouping(prepared: seq<Prepared>, sent: seq<TopicMessages>) {
    && (forall g, h :: 0 <= g < h < |sent| ==> sent[g].topic != sent[h].topic)
    && (forall i :: 0 <= i < |prepared| ==> HasTopic(sent, prepared[i].topic))
    && (forall g :: 0 <= g < |sent| ==> |sent[g].messages| > 0 && HasExactly(prepared, sent[g]))
  }

  ghost predicate HasTopic(sent: seq<TopicMessages>, topic: string) {
    exists g :: 0 <= g < |sent| && sent[g].topic == topic
  }

  ghost predicate HasExactly(prepared: seq<Prepared>, group: TopicMessages) {
    group.messages == At(prepared, Positions(prepared, group.topic))
  }

  /** `messagesByTopic`, an object whose properties keep the order of their first assignment. */
  ghost predicate GroupedSoFar(prepared: seq<Prepared>, order: seq<string>, byTopic: map<string, seq<Message>>) {
    && (forall g, h :: 0 <= g < h < |order| ==> order[g] != order[h])
    && (forall g :: 0 <= g < |order| ==> order[g] in byTopic)
    && (forall t :: t in byTopic ==> exists g :: 0 <= g < |order| && order[g] == t)
    && (forall i :: 0 <= i < |prepared| ==> prepared[i].topic in byTopic)
    && (forall t :: t in byTopic ==> |byTopic[t]| > 0 && HasExactly(prepared, TopicMessages(t, byTopic[t])))
  }

  /** What one more message does to the group of each topic. */
  lemma OneMoreMessage(prepared: seq<Prepared>, msg: Prepared, topic: string)
    ensures At(prepared + [msg], Positions(prepared + [msg], topic))
         == At(prepared, Positions(prepared, topic)) + if msg.topic == topic then [msg.message] else []
  {
    var longer := prepared + [msg];
    assert longer[..|prepared|] == prepared && longer[|prepared|] == msg;
    var p, p' := Positions(prepared, topic), Positions(longer, topic);
    assert p' == p + if msg.topic == topic then [|prepared|] else [];
    hide Positions;
    assert forall k :: 0 <= k < |p| ==> At(longer, p')[k] == At(prepared, p)[k];
  }

  lemma {:induction false} NoneYet(prepared: seq<Prepared>, topic: string)
    requires forall i :: 0 <= i < |prepared| ==> prepared[i].topic != topic
    ensures Positions(prepared, topic) == []
  {
    if |prepared| > 0 {
      NoneYet(prepared[..|prepared| - 1], topic);
    }
  }

  lemma GroupOneMore(prepared: seq<Prepared>, order: seq<string>, byTopic: map<string, seq<Message>>, msg: Prepared)
    requires GroupedSoFar(prepared, order, byTopic)
    ensures
      if msg.topic in byTopic
      then GroupedSoFar(prepared + [msg], order, byTopic[msg.topic := byTopic[msg.topic] + [msg.message]])
      else GroupedSoFar(prepared + [msg], order + [msg.topic], byTopic[msg.topic := [msg.message]])
  {
    var known := msg.topic in byTopic;
    var order' := if known then order else order + [msg.topic];
    var byTopic' := byTopic[msg.topic := (if known then byTopic[msg.topic] else []) + [msg.message]];
    assert [] + [msg.message] == [msg.message];
    forall t | t in byTopic'
      ensures exists g :: 0 <= g < |order'| && order'[g] == t
      ensures |byTopic'[t]| > 0 && HasExactly(prepared + [msg], TopicMessages(t, byTopic'[t]))
    {
      OneMoreMessage(prepared, msg, t);
      if t in byTopic {
        var g :| 0 <= g < |order| && order[g] == t;
        assert order'[g] == t;
        assert HasExactly(prepared, TopicMessages(t, byTopic[t]));
      } else {
        assert order'[|order|] == t;
        NoneYet(prepared, t);
      }
    }
  }

  /** Object.entries. */
  function Entries(order: seq<string>, byTopic: map<string, seq<Message>>): seq<TopicMessages>
    requires forall g :: 0 <= g < |order| ==> order[g] in byTopic
  {
    seq(|order|, g requires 0 <= g < |order| => TopicMessages(order[g], byTopic[order[g]]))
  }

  lemma EntriesGroup(prepared: seq<Prepared>, order: seq<string>, byTopic: map<string, seq<Message>>)
    requires GroupedSoFar(prepared, order, byTopic)
    ensures IsGrouping(prepared, Entries(order, byTopic))
  {
    hide HasExactly;
    var sent := Entries(order, byTopic);
    forall i | 0 <= i < |prepared| ensures HasTopic(sent, prepared[i].topic) {
      var g :| 0 <= g < |order| && order[g] == prepared[i].topic;
      assert sent[g].topic == prepared[i].topic;
    }
    assert forall g, h :: 0 <= g < h < |sent| ==> sent[g].topic == order[g] && sent[h].topic == order[h];
    forall g | 0 <= g < |sent| ensures |sent[g].messages| > 0 && HasExactly(prepared, sent[g]) {
      assert order[g] in byTopic && sent[g] == TopicMessages(order[g], byTopic[order[g]]);
    }
  }

  lemma NoGroupsYet()
    ensures GroupedSoFar([], [], map[])
  {
  }

  method GroupByTopic(prepared: seq<Prepared>) returns (topicMessages: seq<TopicMessages>)
    ensures IsGrouping(prepared, topicMessages)
  {
    hide HasExactly, IsGrouping, Entries, GroupedSoFar;
    NoGroupsYet();
    var order: seq<string> := [];
    var messagesByTopic: map<string, seq<Message>> := map[];
    var i := 0;
    while i < |prepared|
      invariant 0 <= i <= |prepared|
      invariant GroupedSoFar(prepared[..i], order, messagesByTopic)
    {
      var msg := prepared[i];
      GroupOneMore(prepared[..i], order, messagesByTopic, msg);
      assert prepared[..i + 1] == prepared[..i] + [msg];
      if msg.topic !in messagesByTopic {
        order := order + [msg.topic];
        assert messagesByTopic[msg.topic := []][msg.topic := [msg.message]]
            == messagesByTopic[msg.topic := [msg.message]];
        messagesByTopic := messagesByTopic[msg.topic := []];
        assert messagesByTopic[msg.topic] + [msg.message] == [msg.message];
      }
      messagesByTopic := messagesByTopic[msg.topic := messagesByTopic[msg.topic] + [msg.message]];
      i := i + 1;
    }
    assert prepared[..|prepared|] == prepared;
    OrderKnown(prepared, order, messagesByTopic);
    EntriesGroup(prepared, order, messagesByTopic);
    topicMessages := Entries(order, messagesByTopic);
  }

  lemma OrderKnown(prepared: seq<Prepared>, order: seq<string>, byTopic: map<string, seq<Message>>)
    requires GroupedSoFar(prepared, order, byTopic)
    ensures forall g :: 0 <= g < |order| ==> order[g] in byTopic
  {
  }

  /** The producer's `publishBatch`: everything is serialized before anything is sent. */
  method PublishBatch(items: seq<Item>, parses: string -> bool, broker: Result<seq<Ack>, ()>)
    returns (sent: Option<seq<TopicMessages>>, r: Result<seq<Metadata>, Failure>)
    ensures sent.None? <==> exists i :: 0 <= i < |items| && !Serializable(items[i], parses)
    ensures sent.None? ==> r == Err(Unserializable)
    ensures sent.Some? ==> IsGrouping(PrepareAll(items, parses), sent.value)
    ensures sent.Some? && broker.Err? ==> r == Err(BrokerFailed)
    ensures sent.Some? && broker.Ok? ==> r.Ok? && Acknowledges(items, r.value)
  {
    hide IsGrouping, SerializeValue, Prepare, FirstAck;
    var preparedMessages: seq<Prepared> := [];
    for i := 0 to |items|
      invariant forall j :: 0 <= j < i ==> Serializable(items[j], parses)
      invariant preparedMessages == PrepareAll(items[..i], parses)
    {
      if !Serializable(items[i], parses) {
        return None, Err(Unserializable);
      }
      preparedMessages := preparedMessages + [Prepare(items[i], parses)];
      assert items[..i + 1][..i] == items[..i] && items[..i + 1][i] == items[i];
    }
    assert items[..|items|] == items;
    var topicMessages := GroupByTopic(preparedMessages);
    sent := Some(topicMessages);
    match broker {
      case Err(_) => r := Err(BrokerFailed);
      case Ok(metadata) => r := Ok(Acknowledged(items, metadata));
    }
  }

  function PrepareAll(items: seq<Item>, parses: string -> bool): seq<Prepared>
    requires forall i :: 0 <= i < |items| ==> Serializable(items[i], parses)
  {
    if |items| == 0 then []
    else PrepareAll(items[..|items| - 1], parses) + [Prepare(items[|items| - 1], parses)]
  }

  function FirstAck(metadata: seq<Ack>, topic: string): Option<Ack> {
    if |metadata| == 0 then None
    else if metadata[0].topicName == topic then Some(metadata[0])
    else FirstAck(metadata[1..], topic)
  }

  function Acknowledged(items: seq<Item>, metadata: seq<Ack>): seq<Metadata> {
    seq(|items|, i requires 0 <= i < |items| =>
      var ack := FirstAck(metadata, items[i].topic);
      Metadata(EventIdOf(items[i].event), items[i].topic,
               if ack.Some? then ack.value.partition else 0,
               if ack.Some? && ack.value.offset.Some? then ack.value.offset.value else "0"))
  }

  function EventIdOf(v: Value): Value {
    if v.EnvelopeObject? then v.env.eventId else Undefined
  }

  /** The i-th result is for the i-th item. */
  ghost predicate Acknowledges(items: seq<Item>, results: seq<Metadata>) {
    && |results| == |items|
    && forall i :: 0 <= i < |items| ==>
         results[i].eventId == EventIdOf(items[i].event) && results[i].topicName == items[i].topic
  }

  /** Conservation: every prepared message stands at exactly one place of what is sent. */
  lemma SentExactlyOnce(prepared: seq<Prepared>, sent: seq<TopicMessages>, i: nat) returns (g: nat, k: nat)
    requires IsGrouping(prepared, sent) && i < |prepared|
    ensures StandsAt(prepared, sent, i, g, k) && sent[g].messages[k] == prepared[i].message
    ensures forall h, m :: StandsAt(prepared, sent, i, h, m) ==> h == g && m == k
  {
    assert HasTopic(sent, prepared[i].topic);
    g :| 0 <= g < |sent| && sent[g].topic == prepared[i].topic;
    assert HasExactly(prepared, sent[g]);
    k := PositionOf(prepared, sent[g].topic, i);
    forall h: nat, m: nat | StandsAt(prepared, sent, i, h, m) ensures h == g && m == k {
      assert prepared[Positions(prepared, sent[h].topic)[m]].topic == sent[h].topic;
    }
  }

  /** The k-th message of the g-th topic is input message i. */
  ghost predicate StandsAt(prepared: seq<Prepared>, sent: seq<TopicMessages>, i: nat, g: nat, k: nat) {
    && g < |sent| && k < |sent[g].messages|
    && k < |Positions(prepared, sent[g].topic)| && Positions(prepared, sent[g].topic)[k] == i
  }

  /** Nothing else is sent, and each topic keeps the input's order: so a batch claimed oldest first
      reaches each topic oldest first. */
  lemma TopicOrder(prepared: seq<Prepared>, sent: seq<TopicMessages>, createdAt: seq<int>, g: nat)
    requires IsGrouping(prepared, sent) && |createdAt| == |prepared| && g < |sent|
    requires forall i, j :: 0 <= i < j < |createdAt| ==> createdAt[i] <= createdAt[j]
    ensures var p := Positions(prepared, sent[g].topic);
      && |p| == |sent[g].messages|
      && (forall k :: 0 <= k < |p| ==> sent[g].messages[k] == prepared[p[k]].message)
      && (forall j, k :: 0 <= j < k < |p| ==> createdAt[p[j]] <= createdAt[p[k]])
  {
    assert HasExactly(prepared, sent[g]);
  }

  /* ---- The outbox publisher ---- */

  /** What typeof calls an object, null excluded. */
  predicate IsObject(v: Value) {
    v.Array? || v.Object? || v.EnvelopeObject?
  }

  function ToItem(e: OutboxEvent): Result<Item, Failure> {
    if !IsObject(e.payload) then Err(EnvelopeMismatch)
    else
      match TopicFor(e.eventType)
      case None => Err(NoTopic)
      case Some(topic) => Ok(Item(topic, e.aggregateId, e.payload))
  }

  /** The rows as items; the first row that cannot be one decides the error. */
  function ToItems(events: seq<OutboxEvent>): Result<seq<Item>, Failure> {
    if |events| == 0 then Ok([])
    else
      var first :- ToItem(events[0]);
      var rest :- ToItems(events[1..]);
      Ok([first] + rest)
  }

  lemma {:induction false} ItemsAlign(events: seq<OutboxEvent>)
    requires ToItems(events).Ok?
    ensures |ToItems(events).value| == |events|
    ensures forall i :: 0 <= i < |events| ==> ToItem(events[i]) == Ok(ToItems(events).value[i])
  {
    if |events| > 0 {
      ItemsAlign(events[1..]);
    }
  }

  /** The first row without an object or a topic decides the error. */
  lemma {:induction false} FirstUnfitDecides(events: seq<OutboxEvent>) returns (i: nat)
    requires ToItems(events).Err?
    ensures i < |events|
    ensures forall j :: 0 <= j < i ==> IsObject(events[j].payload) && TopicFor(events[j].eventType).Some?
    ensures if IsObject(events[i].payload) then TopicFor(events[i].eventType).None? && ToItems(events) == Err(NoTopic)
            else ToItems(events) == Err(EnvelopeMismatch)
  {
    if ToItem(events[0]).Err? {
      i := 0;
    } else {
      var k := FirstUnfitDecides(events[1..]);
      i := k + 1;
      assert forall j :: 0 < j <= i ==> events[j] == events[1..][j - 1];
    }
  }

  /** Everything a batch puts on the wire; None when it puts nothing there, one row being unfit. */
  ghost function Wire(events: seq<OutboxEvent>, parses: string -> bool): Option<seq<Prepared>> {
    var items := ToItems(events);
    if items.Ok? && forall i :: 0 <= i < |items.value| ==> Serializable(items.value[i], parses)
    then Some(PrepareAll(items.value, parses))
    else None
  }

  lemma {:induction false} PreparedAt(items: seq<Item>, parses: string -> bool)
    requires forall i :: 0 <= i < |items| ==> Serializable(items[i], parses)
    ensures |PrepareAll(items, parses)| == |items|
    ensures forall i :: 0 <= i < |items| ==> PrepareAll(items, parses)[i] == Prepare(items[i], parses)
  {
    if |items| > 0 {
      PreparedAt(items[..|items| - 1], parses);
    }
  }

  /** The i-th message is the i-th row's: its event's topic, its aggregate id as key, its serialized
      envelope. */
  lemma WireAt(events: seq<OutboxEvent>, parses: string -> bool, i: nat)
    requires Wire(events, parses).Some? && i < |events|
    ensures |Wire(events, parses).value| == |events|
    ensures var row, message := events[i], Wire(events, parses).value[i];
      && TopicFor(row.eventType) == Some(message.topic)
      && message.message.key == row.aggregateId
      && SerializeValue(row.payload, parses) == Ok(message.message.value)
  {
    ItemsAlign(events);
    PreparedAt(ToItems(events).value, parses);
  }

  /** A row that can be sent: its type has a topic, and its payload is an envelope `serialize` accepts. */
  predicate Fit(e: OutboxEvent, parses: string -> bool) {
    && TopicFor(e.eventType).Some? && e.payload.EnvelopeObject?
    && WellFormed(e.payload.env, parses) && e.payload.env.version == AtVersion(1)
  }

  ghost predicate AllFit(events: seq<OutboxEvent>, parses: string -> bool) {
    forall i :: 0 <= i < |events| ==> Fit(events[i], parses)
  }

  lemma {:induction false} ItemsOk(events: seq<OutboxEvent>)
    ensures ToItems(events).Ok? <==> forall i :: 0 <= i < |events| ==> ToItem(events[i]).Ok?
  {
    if |events| > 0 {
      ItemsOk(events[1..]);
      assert forall i :: 0 < i < |events| ==> events[i] == events[1..][i - 1];
    }
  }

  /** A batch is sent exactly when every row of it is fit. */
  lemma SentIffFit(events: seq<OutboxEvent>, parses: string -> bool)
    ensures Wire(events, parses).Some? <==> AllFit(events, parses)
  {
    hide WellFormed, Serialize, TopicFor;
    ItemsOk(events);
    if ToItems(events).Ok? {
      ItemsAlign(events);
      var items := ToItems(events).value;
      forall i | 0 <= i < |events|
        ensures Serializable(items[i], parses) <==> Fit(events[i], parses)
      {
        assert ToItem(events[i]) == Ok(items[i]);
        if events[i].payload.EnvelopeObject? {
          SerializeAccepts(events[i].payload.env, parses);
        }
      }
    } else {
      var i :| 0 <= i < |events| && ToItem(events[i]).Err?;
      assert !Fit(events[i], parses);
    }
  }

  /** A row as the payment service writes it, whatever else its envelope carries (its requestId, say). */
  predicate Created(e: OutboxEvent, parses: string -> bool) {
    && e.eventType == "PaymentInitiated" && e.payload.EnvelopeObject?
    && var env := e.payload.env;
       && env.eventId == Text(e.id.text) && !Blank(e.id.text)
       && env.eventType == Text("PaymentInitiated") && env.version == Number(Finite(1.0))
       && NonBlankText(env.correlationId) && NonBlankText(env.causationId) && env.sagaId == env.correlationId
       && IsTimestamp(env.timestamp, parses) && IsJson(env.payload)
  }

  /** A batch of such rows, each of them once. */
  ghost predicate AsCreated(events: seq<OutboxEvent>, parses: string -> bool) {
    && (forall i :: 0 <= i < |events| ==> Created(events[i], parses))
    && (forall i, j :: 0 <= i < j < |events| ==> events[i].id != events[j].id)
  }

  /** Rows as created are always sent, each to payments.initiated, with the row's aggregate id as key. */
  lemma CreatedRowsAreSent(events: seq<OutboxEvent>, parses: string -> bool)
    requires forall i :: 0 <= i < |events| ==> Created(events[i], parses)
    ensures Wire(events, parses).Some? && |Wire(events, parses).value| == |events|
    ensures forall i :: 0 <= i < |events| ==>
      && Created(events[i], parses) && Wire(events, parses).value[i].topic == "payments.initiated"
      && Wire(events, parses).value[i].message
           == Message(events[i].aggregateId, Json(EnvelopeObject(Canonical(events[i].payload.env))))
  {
    forall i | 0 <= i < |events| ensures Fit(events[i], parses) {
      assert !IsSpace("PaymentInitiated"[0]);
    }
    SentIffFit(events, parses);
    hide Wire;
    forall i | 0 <= i < |events|
      ensures |Wire(events, parses).value| == |events| && Created(events[i], parses)
      ensures Wire(events, parses).value[i].topic == "payments.initiated"
      ensures Wire(events, parses).value[i].message
           == Message(events[i].aggregateId, Json(EnvelopeObject(Canonical(events[i].payload.env))))
    {
      WireAt(events, parses, i);
      SerializesCanonically(events[i].payload.env, parses);
    }
    if |events| == 0 {
      assert Wire(events, parses) == Some([]);
    }
  }

  lemma SerializesCanonically(e: Envelope, parses: string -> bool)
    requires WellFormed(e, parses) && e.version == AtVersion(1) && IsJson(e.payload)
    ensures Serialize(e, parses) == Ok(Json(EnvelopeObject(Canonical(e))))
  {
    SerializeAccepts(e, parses);
    JsonEnvelopeFixed(Canonical(e));
  }

  predicate Carries(e: OutboxEvent, eventId: Value) {
    EventIdOf(e.payload) == eventId
  }

  /** `events.find`, from index `i` on. */
  function FindCarrier(events: seq<OutboxEvent>, eventId: Value, i: nat): (j: nat)
    requires i <= |events|
    ensures i <= j <= |events|
    ensures forall k :: i <= k < j ==> !Carries(events[k], eventId)
    ensures j < |events| ==> Carries(events[j], eventId)
    decreases |events| - i
  {
    if i == |events| || Carries(events[i], eventId) then i else FindCarrier(events, eventId, i + 1)
  }

  /** `originalEvent ? originalEvent.id : meta.eventId`. */
  function RowId(events: seq<OutboxEvent>, eventId: Value): EventId {
    var j := FindCarrier(events, eventId, 0);
    if j < |events| then events[j].id else EventId(if eventId.Text? then eventId.s else "")
  }

  /** The publisher's `publishBatch`: what it puts on the wire, and the row ids it answers with. */
  method PublishRows(events: seq<OutboxEvent>, parses: string -> bool, broker: Result<seq<Ack>, ()>)
    returns (sent: Option<seq<TopicMessages>>, r: Result<seq<EventId>, Failure>)
    ensures sent.Some? <==> Wire(events, parses).Some?
    ensures sent.Some? ==> IsGrouping(Wire(events, parses).value, sent.value)
    ensures r.Ok? <==> sent.Some? && broker.Ok?
    ensures r.Ok? ==> Answers(events, r.value)
    ensures ToItems(events).Err? ==> r == Err(ToItems(events).error)
    ensures sent.Some? <==> AllFit(events, parses)
    ensures AsCreated(events, parses) && broker.Ok? ==> r == Ok(RowIds(events))
  {
    SentIffFit(events, parses);
    AsCreatedMapsBack(events, parses);
    hide AllFit, AsCreated;
    hide IsGrouping, SerializeValue, Acknowledged, FindCarrier, TopicFor;
    var items := ToItems(events);
    if items.Err? {
      return None, Err(items.error);
    }
    ItemsAlign(events);
    assert forall i :: 0 <= i < |events| ==> items.value[i].event == events[i].payload;
    var batch, metadataList := PublishBatch(items.value, parses, broker);
    sent := batch;
    if metadataList.Err? {
      return sent, Err(metadataList.error);
    }
    var list := metadataList.value;
    r := Ok(seq(|list|, i requires 0 <= i < |list| => RowId(events, list[i].eventId)));
  }

  /** The i-th id answered is that of the first row carrying the i-th row's envelope eventId. */
  ghost predicate Answers(events: seq<OutboxEvent>, ids: seq<EventId>) {
    && |ids| == |events|
    && forall i :: 0 <= i < |events| ==> ids[i] == RowId(events, EventIdOf(events[i].payload))
  }

  ghost predicate DistinctEnvelopes(events: seq<OutboxEvent>) {
    forall i, j :: 0 <= i < j < |events| ==> EventIdOf(events[i].payload) != EventIdOf(events[j].payload)
  }

  function RowIds(events: seq<OutboxEvent>): seq<EventId> {
    seq(|events|, i requires 0 <= i < |events| => events[i].id)
  }

  /** The ids handed to `markPublishedBatch` are those of the claimed rows, in order, exactly when no
      two of them carry the same envelope eventId; otherwise some claimed row is never marked. */
  lemma MapsBackExactly(events: seq<OutboxEvent>, ids: seq<EventId>)
    requires Answers(events, ids)
    requires forall i, j :: 0 <= i < j < |events| ==> events[i].id != events[j].id
    ensures DistinctEnvelopes(events) <==> ids == RowIds(events)
    ensures DistinctEnvelopes(events) <==> R.Ids(ids) == R.Ids(RowIds(events))
  {
    hide FindCarrier;
    if DistinctEnvelopes(events) {
      forall i | 0 <= i < |events| ensures ids[i] == events[i].id {
        var j := FindCarrier(events, EventIdOf(events[i].payload), 0);
        assert Carries(events[i], EventIdOf(events[i].payload));
        assert j == i;
      }
      assert ids == RowIds(events);
    } else {
      var i, j :| 0 <= i < j < |events| && EventIdOf(events[i].payload) == EventIdOf(events[j].payload);
      Unmarked(events, ids, i, j);
      assert RowIds(events)[j] == events[j].id;
      assert events[j].id in R.Ids(RowIds(events)) && events[j].id !in R.Ids(ids);
    }
  }

  /** The later of two rows that share an envelope eventId is not among the ids answered. */
  lemma Unmarked(events: seq<OutboxEvent>, ids: seq<EventId>, i: nat, j: nat)
    requires Answers(events, ids) && i < j < |events|
    requires forall i, j :: 0 <= i < j < |events| ==> events[i].id != events[j].id
    requires EventIdOf(events[i].payload) == EventIdOf(events[j].payload)
    ensures events[j].id !in ids
  {
    if events[j].id in ids {
      var k :| 0 <= k < |ids| && ids[k] == events[j].id;
      var eventId := EventIdOf(events[k].payload);
      var f := FindCarrier(events, eventId, 0);
      assert Carries(events[k], eventId);
      assert f <= k && events[f].id == events[j].id;
      assert f == j;
      assert Carries(events[i], eventId);
      assert false;
    }
  }

  lemma AsCreatedMapsBack(events: seq<OutboxEvent>, parses: string -> bool)
    ensures AsCreated(events, parses) ==>
      Wire(events, parses).Some? && forall ids :: Answers(events, ids) ==> ids == RowIds(events)
  {
    if AsCreated(events, parses) {
      CreatedRowsAreSent(events, parses);
      hide Wire, Answers;
      forall ids | Answers(events, ids) ensures ids == RowIds(events) {
        MapsBackExactly(events, ids);
      }
    }
  }

  /** What the outbox writes: a row's id is its envelope's eventId. */
  ghost predicate Faithful(events: seq<OutboxEvent>) {
    forall i :: 0 <= i < |events| ==> EventIdOf(events[i].payload) == Text(events[i].id.text)
  }

  /** So for rows as they are created, every claimed row of a batch that was sent is marked, and no
      other row. */
  lemma ClaimedRowsAreMarked(t: R.Table, events: seq<OutboxEvent>, ids: seq<EventId>)
    requires Answers(events, ids) && Faithful(events)
    requires forall i, j :: 0 <= i < j < |events| ==> events[i].id != events[j].id
    ensures R.PublishRows(t, R.Ids(ids)) == R.PublishRows(t, R.Ids(RowIds(events)))
    ensures forall i :: 0 <= i < |events| && events[i].id in t && t[events[i].id].status.Publishing? ==>
      R.PublishRows(t, R.Ids(ids))[events[i].id].status.Published?
  {
    MapsBackExactly(events, ids);
    forall i, j | 0 <= i < j < |events|
      ensures EventIdOf(events[i].payload) != EventIdOf(events[j].payload)
    {
      assert events[i].id != events[j].id;
    }
    forall i | 0 <= i < |events| ensures events[i].id in R.Ids(ids) {
      assert RowIds(events)[i] == events[i].id;
    }
  }
}
