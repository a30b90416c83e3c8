/** Event envelopes and their wire form (packages/common/src/messaging/serializer.ts).

    A buffer is modelled by the value its JSON text denotes; JSON's grammar itself is not modelled. */
module Serializer {
  import opened Wrappers

  datatype Num = NaN | Infinite | Finite(r: real)

  /** A JavaScript value. `Opaque` is a function or a symbol; `EnvelopeObject` is an object, seen as
      the eight envelope properties (Undefined when absent) and the rest. */
  datatype Value =
    | Undefined
    | Opaque
    | Null
    | Bool(b: bool)
    | Number(n: Num)
    | Text(s: string)
    | Array(items: seq<Value>)
    | Object(members: seq<Member>)
    | EnvelopeObject(env: Envelope)

  datatype Member = Member(key: string, value: Value)

  datatype Envelope = Envelope(
    eventId: Value,
    eventType: Value,
    correlationId: Value,
    causationId: Value,
    sagaId: Value,
    timestamp: Value,
    version: Value,
    payload: Value,
    extra: seq<Member>)

  datatype Buffer = Garbage | Json(value: Value)

  datatype Error =
    | MalformedEnvelope
    | UnsupportedVersion
    | DeserializationFailed
    | MissingUpgradePath
    | NeverReturns

  const CURRENT_EVENT_VERSION: int := 1

  /* ---- JSON.stringify followed by JSON.parse ---- */

  /** What is left of a value after a trip through JSON text; Undefined when the trip drops it. */
  function ThroughJson(v: Value): Value {
    match v
    case Opaque => Undefined
    case Number(n) => if n.Finite? then v else Null
    case Array(items) => Array(ItemsThroughJson(items))
    case Object(members) => Object(MembersThroughJson(members))
    case EnvelopeObject(e) => EnvelopeObject(EnvelopeThroughJson(e))
    case _ => v
  }

  function ItemsThroughJson(items: seq<Value>): seq<Value> {
    if |items| == 0 then []
    else
      var v := ThroughJson(items[0]);
      [if v.Undefined? then Null else v] + ItemsThroughJson(items[1..])
  }

  function MembersThroughJson(members: seq<Member>): seq<Member> {
    if |members| == 0 then []
    else
      var v := ThroughJson(members[0].value);
      (if v.Undefined? then [] else [Member(members[0].key, v)]) + MembersThroughJson(members[1..])
  }

  function EnvelopeThroughJson(e: Envelope): Envelope {
    Envelope(ThroughJson(e.eventId), ThroughJson(e.eventType), ThroughJson(e.correlationId),
             ThroughJson(e.causationId), ThroughJson(e.sagaId), ThroughJson(e.timestamp),
             ThroughJson(e.version), ThroughJson(e.payload), MembersThroughJson(e.extra))
  }

  /** Values JSON text can denote. */
  predicate IsJson(v: Value)
    decreases v, 0
  {
    match v
    case Undefined => false
    case Opaque => false
    case Number(n) => n.Finite?
    case Array(items) => forall i :: 0 <= i < |items| ==> IsJson(items[i])
    case Object(members) => forall i :: 0 <= i < |members| ==> IsJson(members[i].value)
    case EnvelopeObject(e) => IsJsonEnvelope(e)
    case _ => true
  }

  predicate IsJsonOrAbsent(v: Value)
    decreases v, 1
  {
    v.Undefined? || IsJson(v)
  }

  predicate IsJsonEnvelope(e: Envelope)
    decreases e, 0
  {
    && IsJsonOrAbsent(e.eventId) && IsJsonOrAbsent(e.eventType) && IsJsonOrAbsent(e.correlationId)
    && IsJsonOrAbsent(e.causationId) && IsJsonOrAbsent(e.sagaId) && IsJsonOrAbsent(e.timestamp)
    && IsJsonOrAbsent(e.version) && IsJsonOrAbsent(e.payload)
    && (forall i :: 0 <= i < |e.extra| ==> IsJson(e.extra[i].value))
  }

  /** JSON values survive the trip unchanged. */
  lemma {:induction false} JsonIsFixed(v: Value)
    requires IsJsonOrAbsent(v)
    ensures ThroughJson(v) == v
    decreases v, 0
  {
    match v
    case Array(items) => JsonItemsFixed(items);
    case Object(members) => JsonMembersFixed(members);
    case EnvelopeObject(e) => JsonEnvelopeFixed(e);
    case _ =>
  }

  lemma {:induction false} JsonItemsFixed(items: seq<Value>)
    requires forall i :: 0 <= i < |items| ==> IsJson(items[i])
    ensures ItemsThroughJson(items) == items
    decreases items, 0
  {
    if |items| > 0 {
      JsonIsFixed(items[0]);
      JsonItemsFixed(items[1..]);
    }
  }

  lemma {:induction false} JsonMembersFixed(members: seq<Member>)
    requires forall i :: 0 <= i < |members| ==> IsJson(members[i].value)
    ensures MembersThroughJson(members) == members
    decreases members, 0
  {
    if |members| > 0 {
      JsonIsFixed(members[0].value);
      JsonMembersFixed(members[1..]);
    }
  }

  lemma {:induction false} JsonEnvelopeFixed(e: Envelope)
    requires IsJsonEnvelope(e)
    ensures EnvelopeThroughJson(e) == e
    decreases e, 0
  {
    JsonIsFixed(e.eventId);
    JsonIsFixed(e.eventType);
    JsonIsFixed(e.correlationId);
    JsonIsFixed(e.causationId);
    JsonIsFixed(e.sagaId);
    JsonIsFixed(e.timestamp);
    JsonIsFixed(e.version);
    JsonIsFixed(e.payload);
    JsonMembersFixed(e.extra);
  }

  /** Whatever goes in, a JSON value comes out, or nothing, and nothing exactly of undefined, functions and
      symbols; arrays keep their length, and numbers JSON cannot write become null. */
  lemma {:induction false} OnlyJsonComesBack(v: Value)
    ensures IsJsonOrAbsent(ThroughJson(v))
    ensures ThroughJson(v) == Undefined <==> v == Undefined || v == Opaque
    ensures v.Array? ==> ThroughJson(v).Array? && |ThroughJson(v).items| == |v.items|
    ensures v.Number? && !v.n.Finite? ==> ThroughJson(v) == Null
    decreases v, 0
  {
    match v
    case Array(items) => OnlyJsonItems(items);
    case Object(members) => OnlyJsonMembers(members);
    case EnvelopeObject(e) => OnlyJsonEnvelope(e);
    case _ =>
  }

  lemma {:induction false} OnlyJsonEnvelope(e: Envelope)
    ensures IsJsonEnvelope(EnvelopeThroughJson(e))
    decreases e, 0
  {
    OnlyJsonComesBack(e.eventId);
    OnlyJsonComesBack(e.eventType);
    OnlyJsonComesBack(e.correlationId);
    OnlyJsonComesBack(e.causationId);
    OnlyJsonComesBack(e.sagaId);
    OnlyJsonComesBack(e.timestamp);
    OnlyJsonComesBack(e.version);
    OnlyJsonComesBack(e.payload);
    OnlyJsonMembers(e.extra);
    hide ThroughJson, IsJson, IsJsonOrAbsent, MembersThroughJson;
  }

  lemma {:induction false} OnlyJsonItems(items: seq<Value>)
    ensures |ItemsThroughJson(items)| == |items|
    ensures forall i :: 0 <= i < |items| ==> IsJson(ItemsThroughJson(items)[i])
    decreases items, 0
  {
    if |items| > 0 {
      OnlyJsonComesBack(items[0]);
      OnlyJsonItems(items[1..]);
    }
  }

  lemma {:induction false} OnlyJsonMembers(members: seq<Member>)
    ensures forall i :: 0 <= i < |MembersThroughJson(members)| ==> IsJson(MembersThroughJson(members)[i].value)
    decreases members, 0
  {
    if |members| > 0 {
      OnlyJsonComesBack(members[0].value);
      OnlyJsonMembers(members[1..]);
    }
  }

  /* ---- Validation ---- */

  /** What String.prototype.trim removes. */
  predicate IsSpace(c: char) {
    || '\U{0009}' <= c <= '\U{000d}' || c == ' ' || c == '\U{00a0}' || c == '\U{1680}'
    || '\U{2000}' <= c <= '\U{200a}' || c == '\U{2028}' || c == '\U{2029}' || c == '\U{202f}'
    || c == '\U{205f}' || c == '\U{3000}' || c == '\U{feff}'
  }

  predicate Blank(s: string) {
    forall i :: 0 <= i < |s| ==> IsSpace(s[i])
  }

  predicate NonBlankText(v: Value) {
    v.Text? && !Blank(v.s)
  }

  /** `parses` is Date.parse's verdict, which the language leaves to the implementation. */
  predicate IsTimestamp(v: Value, parses: string -> bool) {
    NonBlankText(v) && parses(v.s)
  }

  function ValidateEnvelope(e: Envelope, parses: string -> bool): Result<(), Error> {
    if !NonBlankText(e.eventId) then Err(MalformedEnvelope)
    else if !NonBlankText(e.eventType) then Err(MalformedEnvelope)
    else if !NonBlankText(e.correlationId) then Err(MalformedEnvelope)
    else if !NonBlankText(e.causationId) then Err(MalformedEnvelope)
    else if !NonBlankText(e.sagaId) then Err(MalformedEnvelope)
    else if !IsTimestamp(e.timestamp, parses) then Err(MalformedEnvelope)
    else if !e.version.Number? || e.version.n.NaN? then Err(UnsupportedVersion)
    else if e.payload.Undefined? then Err(MalformedEnvelope)
    else Ok(())
  }

  predicate IsPositiveInteger(v: Value) {
    v.Number? && v.n.Finite? && v.n.r.Floor as real == v.n.r && v.n.r > 0.0
  }

  function Version(e: Envelope): int {
    if IsPositiveInteger(e.version) then e.version.n.r.Floor else 0
  }

  /* ---- Serialization ---- */

  function Canonical(e: Envelope): Envelope {
    e.(extra := [])
  }

  function Serialize(e: Envelope, parses: string -> bool): Result<Buffer, Error> {
    var _ :- ValidateEnvelope(e, parses);
    if !IsPositiveInteger(e.version) then Err(UnsupportedVersion)
    else if Version(e) != CURRENT_EVENT_VERSION then Err(UnsupportedVersion)
    else Ok(Json(ThroughJson(EnvelopeObject(Canonical(e)))))
  }

  /** `serialize` of a value that need not be an envelope. */
  function SerializeValue(v: Value, parses: string -> bool): Result<Buffer, Error> {
    if v.EnvelopeObject? then Serialize(v.env, parses) else Err(MalformedEnvelope)
  }

  /** The registered upgrade functions, by event type and source version. */
  type Upgrades = map<(Value, Value), Envelope -> Envelope>

  predicate Below(version: Value, target: int) {
    version.Number? && version.n.Finite? && version.n.r < target as real
  }

  /** The upgrade loop, for at most `fuel` rounds. */
  function UpgradeLoop(upgrades: Upgrades, current: Envelope, target: int, fuel: nat): Result<Envelope, Error>
    decreases fuel
  {
    if !Below(current.version, target) then Ok(current)
    else if (current.eventType, current.version) !in upgrades then Err(MissingUpgradePath)
    else if fuel == 0 then Err(NeverReturns)
    else UpgradeLoop(upgrades, upgrades[(current.eventType, current.version)](current), target, fuel - 1)
  }

  function UpgradeVersion(upgrades: Upgrades, e: Envelope, target: int, fuel: nat): Result<Envelope, Error> {
    if !IsPositiveInteger(e.version) then Err(UnsupportedVersion)
    else if Version(e) > CURRENT_EVENT_VERSION then Err(UnsupportedVersion)
    else if Version(e) == target then Ok(e)
    else UpgradeLoop(upgrades, e, target, fuel)
  }

  /** A call that changes the registry. */
  datatype RegistryCall =
    | Registered(eventType: Value, fromVersion: Value, upgradeFn: Envelope -> Envelope)
    | Cleared

  predicate Defines(call: RegistryCall, eventType: Value, fromVersion: Value) {
    call.Registered? && call.eventType == eventType && call.fromVersion == fromVersion
  }

  /** Call `i` is the one that counts for this type and version: it registered a function for them, and
      no later call registered another or cleared the registry. */
  ghost predicate LastFor(calls: seq<RegistryCall>, i: nat, eventType: Value, fromVersion: Value) {
    && i < |calls| && Defines(calls[i], eventType, fromVersion)
    && forall j :: i < j < |calls| ==> calls[j].Registered? && !Defines(calls[j], eventType, fromVersion)
  }

  /** What the calls leave in the map. */
  ghost function After(calls: seq<RegistryCall>): Upgrades {
    if |calls| == 0 then map[]
    else
      match calls[|calls| - 1]
      case Cleared => map[]
      case Registered(t, v, f) => After(calls[..|calls| - 1])[(t, v) := f]
  }

  lemma LastForEarlier(calls: seq<RegistryCall>, call: RegistryCall, i: nat, t: Value, v: Value)
    requires i < |calls|
    ensures LastFor(calls + [call], i, t, v) <==>
      LastFor(calls, i, t, v) && call.Registered? && !Defines(call, t, v)
  {
    hide Defines;
    var all := calls + [call];
    assert all[|calls|] == call && forall j :: 0 <= j < |calls| ==> all[j] == calls[j];
  }

  lemma LastForLatest(calls: seq<RegistryCall>, call: RegistryCall, t: Value, v: Value)
    ensures LastFor(calls + [call], |calls|, t, v) <==> Defines(call, t, v)
  {
    hide Defines;
  }

  /** The map holds, for each type and version, the function registered last since it was cleared. */
  lemma {:induction false} LastRegistrationWins(calls: seq<RegistryCall>, t: Value, v: Value)
    ensures (t, v) in After(calls) <==> exists i: nat :: LastFor(calls, i, t, v)
    ensures forall i: nat :: LastFor(calls, i, t, v) ==>
      i < |calls| && calls[i].Registered? && (t, v) in After(calls) && calls[i].upgradeFn == After(calls)[(t, v)]
  {
    if |calls| > 0 {
      var n := |calls| - 1;
      var front, call := calls[..n], calls[n];
      assert calls == front + [call];
      LastRegistrationWins(front, t, v);
      forall i: nat | i < n ensures LastFor(calls, i, t, v) <==>
        LastFor(front, i, t, v) && call.Registered? && !Defines(call, t, v)
      {
        LastForEarlier(front, call, i, t, v);
      }
      LastForLatest(front, call, t, v);
      InRange(calls, t, v);
      InRange(front, t, v);
      hide LastFor;
      if call.Registered? && !Defines(call, t, v) && (t, v) in After(front) {
        var i: nat :| LastFor(front, i, t, v);
        assert LastFor(calls, i, t, v);
      }
    }
  }

  lemma InRange(calls: seq<RegistryCall>, t: Value, v: Value)
    ensures forall i: nat :: LastFor(calls, i, t, v) ==> i < |calls| && calls[i].Registered?
  {
  }

  /** VersionUpgradeRegistry: the static map, and the calls that made it. */
  class VersionUpgradeRegistry {
    var upgrades: Upgrades
    ghost var calls: seq<RegistryCall>

    ghost predicate Valid()
      reads this
    {
      upgrades == After(calls)
    }

    constructor ()
      ensures Valid() && calls == []
    {
      upgrades, calls := map[], [];
    }

    method Register(eventType: Value, fromVersion: Value, upgradeFn: Envelope -> Envelope)
      requires Valid()
      modifies this
      ensures Valid() && calls == old(calls) + [Registered(eventType, fromVersion, upgradeFn)]
    {
      upgrades := upgrades[(eventType, fromVersion) := upgradeFn];
      calls := calls + [Registered(eventType, fromVersion, upgradeFn)];
      assert calls[..|calls| - 1] == old(calls);
    }

    /** The function registered last for this type and version, unless the registry was cleared since. */
    method GetUpgrade(eventType: Value, fromVersion: Value) returns (upgradeFn: Option<Envelope -> Envelope>)
      requires Valid()
      ensures upgradeFn.None? ==> forall i: nat :: !LastFor(calls, i, eventType, fromVersion)
      ensures upgradeFn.Some? ==>
        exists i: nat :: LastFor(calls, i, eventType, fromVersion) && calls[i].upgradeFn == upgradeFn.value
    {
      LastRegistrationWins(calls, eventType, fromVersion);
      if (eventType, fromVersion) in upgrades {
        upgradeFn := Some(upgrades[(eventType, fromVersion)]);
      } else {
        upgradeFn := None;
      }
    }

    method Clear()
      requires Valid()
      modifies this
      ensures Valid() && calls == old(calls) + [Cleared]
    {
      upgrades, calls := map[], calls + [Cleared];
    }

    /** `upgradeVersion`. An upgrade function is free to return any envelope, so the loop is cut after
        `fuel` rounds; `FuelIsEnough` and `UpgradeReaches` say what that leaves open. */
    method Upgrade(envelope: Envelope, targetVersion: int, fuel: nat) returns (r: Result<Envelope, Error>)
      requires Valid()
      ensures r == UpgradeVersion(upgrades, envelope, targetVersion, fuel)
    {
      if !IsPositiveInteger(envelope.version) {
        return Err(UnsupportedVersion);
      }
      if Version(envelope) > CURRENT_EVENT_VERSION {
        return Err(UnsupportedVersion);
      }
      if Version(envelope) == targetVersion {
        return Ok(envelope);
      }
      var current, left := envelope, fuel;
      while Below(current.version, targetVersion)
        invariant UpgradeLoop(upgrades, current, targetVersion, left)
               == UpgradeLoop(upgrades, envelope, targetVersion, fuel)
        decreases left
      {
        LastRegistrationWins(calls, current.eventType, current.version);
        var upgradeFn := GetUpgrade(current.eventType, current.version);
        if upgradeFn.None? {
          return Err(MissingUpgradePath);
        }
        if left == 0 {
          return Err(NeverReturns);
        }
        current, left := upgradeFn.value(current), left - 1;
      }
      return Ok(current);
    }
  }

  /** The cut is no part of a result: a loop that ends within some number of rounds has the same result
      for every larger one, so that NeverReturns at every `fuel` is a loop that never ends. */
  lemma {:induction false} FuelIsEnough(upgrades: Upgrades, e: Envelope, target: int, fuel: nat, more: nat)
    requires UpgradeLoop(upgrades, e, target, fuel) != Err(NeverReturns) && fuel <= more
    ensures UpgradeLoop(upgrades, e, target, more) == UpgradeLoop(upgrades, e, target, fuel)
    decreases fuel
  {
    if fuel > 0 && Below(e.version, target) && (e.eventType, e.version) in upgrades {
      FuelIsEnough(upgrades, upgrades[(e.eventType, e.version)](e), target, fuel - 1, more - 1);
    }
  }

  function AtVersion(v: int): Value {
    Number(Finite(v as real))
  }

  /** Each upgrade leads to the next version of the same type of event, as the registry intends. */
  ghost predicate StepsUp(upgrades: Upgrades) {
    forall e: Envelope, v: int {:trigger upgrades[(e.eventType, AtVersion(v))](e)} ::
      e.version == AtVersion(v) && (e.eventType, e.version) in upgrades ==>
        var next := upgrades[(e.eventType, AtVersion(v))](e);
        next.eventType == e.eventType && next.version == AtVersion(v + 1)
  }

  /** Stepwise upgrades, for any target: the loop ends within one round per version, and reaches the
      target exactly when every version on the way has an upgrade. */
  lemma {:induction false} UpgradeReaches(upgrades: Upgrades, e: Envelope, v: int, target: int, fuel: nat)
    requires StepsUp(upgrades) && e.version == AtVersion(v) && v <= target && fuel >= target - v
    ensures var r := UpgradeLoop(upgrades, e, target, fuel);
      && (r.Ok? <==> forall w :: v <= w < target ==> (e.eventType, AtVersion(w)) in upgrades)
      && (r.Ok? ==> r.value.eventType == e.eventType && r.value.version == AtVersion(target))
      && (r.Err? ==> r.error == MissingUpgradePath)
    decreases fuel
  {
    if v < target {
      assert Below(e.version, target);
      if (e.eventType, AtVersion(v)) in upgrades {
        var next := upgrades[(e.eventType, AtVersion(v))](e);
        UpgradeReaches(upgrades, next, v + 1, target, fuel - 1);
      }
    }
  }

  function Deserialize(buffer: Buffer, parses: string -> bool, upgrades: Upgrades, fuel: nat): Result<Envelope, Error> {
    match buffer
    case Garbage => Err(DeserializationFailed)
    case Json(v) =>
      if !v.EnvelopeObject? then Err(MalformedEnvelope)
      else
        var _ :- ValidateEnvelope(v.env, parses);
        UpgradeVersion(upgrades, v.env, CURRENT_EVENT_VERSION, fuel)
  }

  /** Five non-blank ids, a timestamp that parses, and a payload. Nothing is asked of other properties. */
  predicate WellFormed(e: Envelope, parses: string -> bool) {
    && NonBlankText(e.eventId) && NonBlankText(e.eventType) && NonBlankText(e.correlationId)
    && NonBlankText(e.causationId) && NonBlankText(e.sagaId)
    && IsTimestamp(e.timestamp, parses) && e.payload != Undefined
  }

  lemma ValidMeansWellFormed(e: Envelope, parses: string -> bool)
    ensures ValidateEnvelope(e, parses).Ok? <==> WellFormed(e, parses) && e.version.Number? && !e.version.n.NaN?
  {
  }

  lemma VersionOne(v: Value)
    ensures IsPositiveInteger(v) ==> (v.n.r.Floor == 1 <==> v == AtVersion(1)) && v.n.r.Floor >= 1
    ensures IsPositiveInteger(AtVersion(1)) && AtVersion(1) == Number(Finite(1.0))
  {
  }

  /** With version 1 current, no upgrade function ever runs: exactly the well-formed envelopes of version 1
      are accepted, whatever is registered and whatever other properties they have, and the envelope is the
      one that was on the wire. */
  lemma DeserializeIsExact(buffer: Buffer, parses: string -> bool, upgrades: Upgrades, fuel: nat)
    ensures Deserialize(buffer, parses, upgrades, fuel).Ok? <==>
      (&& buffer.Json? && buffer.value.EnvelopeObject?
       && WellFormed(buffer.value.env, parses) && buffer.value.env.version == AtVersion(1))
    ensures Deserialize(buffer, parses, upgrades, fuel).Ok? ==>
      buffer == Json(EnvelopeObject(Deserialize(buffer, parses, upgrades, fuel).value))
    ensures Deserialize(buffer, parses, upgrades, fuel) == Deserialize(buffer, parses, map[], 0)
  {
    if buffer.Json? && buffer.value.EnvelopeObject? {
      ValidMeansWellFormed(buffer.value.env, parses);
      VersionOne(buffer.value.env.version);
    }
  }

  /** What serialize accepts, and that properties outside the envelope's make no difference to it. */
  lemma SerializeAccepts(e: Envelope, parses: string -> bool)
    ensures Serialize(e, parses).Ok? <==> WellFormed(e, parses) && e.version == AtVersion(1)
    ensures Serialize(e, parses) == Serialize(Canonical(e), parses)
  {
    ValidMeansWellFormed(e, parses);
    VersionOne(e.version);
    assert ValidateEnvelope(Canonical(e), parses) == ValidateEnvelope(e, parses);
    hide ValidateEnvelope, ThroughJson;
  }

  /** Why it refuses: a version that is no number, or is not 1, is named only where nothing else is wrong with
      the ids and the timestamp; a missing payload only where the version is a number. */
  lemma SerializeRefuses(e: Envelope, parses: string -> bool)
    requires Serialize(e, parses).Err?
    ensures Serialize(e, parses).error in {MalformedEnvelope, UnsupportedVersion}
    ensures Serialize(e, parses).error == UnsupportedVersion <==>
      && WellFormed(e.(payload := Null), parses)
      && (e.payload != Undefined || !e.version.Number? || e.version.n == NaN)
  {
    ValidMeansWellFormed(e.(payload := Null), parses);
    ValidMeansWellFormed(e.(payload := Null, version := AtVersion(1)), parses);
    assert WellFormed(e.(payload := Null, version := AtVersion(1)), parses) == WellFormed(e.(payload := Null), parses);
  }

  /** Both ends refuse the same envelopes for the same reasons; what is no envelope at all is malformed, what
      is no JSON fails to parse. */
  lemma BothEndsAgree(buffer: Buffer, parses: string -> bool, upgrades: Upgrades, fuel: nat)
    ensures Deserialize(buffer, parses, upgrades, fuel) ==
      if buffer == Garbage then Err(DeserializationFailed)
      else if !buffer.value.EnvelopeObject? then Err(MalformedEnvelope)
      else if Serialize(buffer.value.env, parses).Ok? then Ok(buffer.value.env)
      else Err(Serialize(buffer.value.env, parses).error)
  {
    if buffer.Json? && buffer.value.EnvelopeObject? {
      VersionOne(buffer.value.env.version);
      hide ValidateEnvelope, ThroughJson;
    }
  }

  /** The round trip: a serialized envelope comes back as its canonical form exactly when its payload
      is something JSON can carry at all. A function or symbol passes `serialize`, which sees a
      payload, and then fails `deserialize`, which does not. */
  lemma RoundTrip(e: Envelope, parses: string -> bool, upgrades: Upgrades, fuel: nat)
    requires Serialize(e, parses).Ok?
    ensures var back := Deserialize(Serialize(e, parses).value, parses, upgrades, fuel);
      if e.payload.Opaque? then back == Err(MalformedEnvelope)
      else back == Ok(Canonical(e).(payload := ThroughJson(e.payload)))
    ensures IsJson(e.payload) ==>
      Deserialize(Serialize(e, parses).value, parses, upgrades, fuel) == Ok(Canonical(e))
  {
    SerializeAccepts(e, parses);
    var wire := EnvelopeThroughJson(Canonical(e));
    assert Serialize(e, parses).value == Json(EnvelopeObject(wire));
    JsonEnvelopeFixed(Canonical(e).(payload := Null));
    assert wire == Canonical(e).(payload := ThroughJson(e.payload));
    DeserializeIsExact(Json(EnvelopeObject(wire)), parses, upgrades, fuel);
    if IsJson(e.payload) {
      JsonIsFixed(e.payload);
    }
  }

  /** Serializing what came off the wire puts the same JSON value back, less anything that is not part of
      an envelope. */
  lemma Reserialize(buffer: Buffer, parses: string -> bool, upgrades: Upgrades, fuel: nat)
    requires Deserialize(buffer, parses, upgrades, fuel).Ok? && IsJson(buffer.value)
    ensures var e := Deserialize(buffer, parses, upgrades, fuel).value;
      && Serialize(e, parses) == Ok(Json(EnvelopeObject(Canonical(e))))
      && (|e.extra| == 0 ==> Serialize(e, parses) == Ok(buffer))
  {
    DeserializeIsExact(buffer, parses, upgrades, fuel);
    var e := Deserialize(buffer, parses, upgrades, fuel).value;
    SerializeAccepts(e, parses);
    JsonEnvelopeFixed(Canonical(e));
  }
}
