/** The threshold evaluator run as a cloud function: it checks one sensor
    event against fixed inclusive ranges and publishes one command message per
    reading that is out of range. */
module Evaluator {
  import opened Values

  const CommandTopic: string := "sensor/command"

  /** Inclusive (min, max) ranges. */
  const WaterLevelRange: (real, real) := (33000.0, 36000.0)
  const TempRange: (real, real) := (23.0, 24.0)
  const HumidityRange: (real, real) := (60.0, 61.0)

  /** A command code as it goes on the wire: the water command is the integer
      1, the other three are strings. */
  datatype Command = IntCode(n: int) | StrCode(s: string)

  const WaterCmd: Command := IntCode(1)
  const LowTempCmd: Command := StrCode("21")
  const HighTempCmd: Command := StrCode("22")
  const HumidityCmd: Command := StrCode("3")

  /** The three readings, once each has been found comparable with a number. */
  datatype Reading = Reading(waterLevel: real, temp: real, humidity: real)

  predicate Within(x: real, range: (real, real)) {
    range.0 <= x <= range.1
  }

  /** The commands collected in `messages_to_publish`, in collection order. */
  function Commands(r: Reading): (cs: seq<Command>)
    ensures WaterCmd in cs <==> r.waterLevel < 33000.0 || r.waterLevel > 36000.0
    ensures LowTempCmd in cs <==> r.temp < 23.0
    ensures HighTempCmd in cs <==> r.temp > 24.0
    ensures HumidityCmd in cs <==> r.humidity < 60.0 || r.humidity > 61.0
    ensures forall c :: c in cs ==> c in {WaterCmd, LowTempCmd, HighTempCmd, HumidityCmd}
  {
    (if !Within(r.waterLevel, WaterLevelRange) then [WaterCmd] else [])
    + (if r.temp < TempRange.0 then [LowTempCmd]
       else if r.temp > TempRange.1 then [HighTempCmd]
       else [])
    + (if !Within(r.humidity, HumidityRange) then [HumidityCmd] else [])
  }

  /** Position of a command's metric in the fixed check order: water level,
      then temperature, then humidity. */
  function Rank(c: Command): nat
  {
    if c == WaterCmd then 0 else if c == HumidityCmd then 2 else 1
  }

  /** Commands come out in metric order, one per metric at most, so there are
      at most three and none repeats; the two temperature commands exclude
      each other. */
  lemma CommandsOrdered(r: Reading)
    ensures var cs := Commands(r);
      |cs| <= 3 &&
      (forall i, j :: 0 <= i < j < |cs| ==> Rank(cs[i]) < Rank(cs[j])) &&
      (forall i, j :: 0 <= i < j < |cs| ==> cs[i] != cs[j]) &&
      !(LowTempCmd in cs && HighTempCmd in cs)
  {
    var cs := Commands(r);
    forall i, j | 0 <= i < j < |cs| ensures Rank(cs[i]) < Rank(cs[j]) {
      assert cs[i] in cs && cs[j] in cs;
    }
  }

  /** A reading inside all three ranges produces no command, and only such a
      reading does. */
  lemma QuietIffInRange(r: Reading)
    ensures Commands(r) == [] <==>
      33000.0 <= r.waterLevel <= 36000.0 && 23.0 <= r.temp <= 24.0 && 60.0 <= r.humidity <= 61.0
  {
    if Commands(r) != [] {
      assert Commands(r)[0] in Commands(r);
    }
  }

  /** The JSON value a command becomes inside `{"command": c}`. */
  function CommandJson(c: Command): Json
  {
    match c
    case IntCode(n) => JInt(n)
    case StrCode(s) => JStr(s)
  }

  /** One `iot_client.publish` call. */
  datatype Publish = Publish(topic: string, qos: nat, payload: Json)

  function CommandMessage(c: Command): (p: Publish)
    ensures p.topic == CommandTopic && p.qos == 1
    ensures p.payload.JObject? && p.payload.fields.Keys == {"command"}
  {
    Publish(CommandTopic, 1, JObject(map["command" := CommandJson(c)]))
  }

  /** The water command travels as a JSON number and the others as JSON
      strings, so a receiver sees two different encodings. */
  lemma WireEncodings()
    ensures CommandMessage(WaterCmd).payload.fields["command"] == JInt(1)
    ensures CommandMessage(LowTempCmd).payload.fields["command"] == JStr("21")
    ensures CommandMessage(HighTempCmd).payload.fields["command"] == JStr("22")
    ensures CommandMessage(HumidityCmd).payload.fields["command"] == JStr("3")
  {
  }

  datatype Fault = TypeError

  /** `event.get(key)` compared with a number: an absent key gives None and a
      string, null, list or object is not comparable, and either raises
      TypeError. */
  function Field(event: map<string, Json>, key: string): Option<real>
  {
    if key in event then AsNumber(event[key]) else None
  }

  predicate Comparable(event: map<string, Json>, key: string) {
    key in event && (event[key].JInt? || event[key].JNum? || event[key].JBool?)
  }

  datatype Result<T> = Ok(value: T) | Raised(fault: Fault)

  /** The three checks of the handler. They all run before anything is
      published, so a field that cannot be compared aborts the call with
      nothing collected for publication. */
  function Evaluate(event: map<string, Json>): (r: Result<seq<Command>>)
    ensures r.Raised? <==>
      !(Comparable(event, "water_level") && Comparable(event, "temp") && Comparable(event, "humidity"))
    ensures r.Ok? ==>
      var w := AsNumber(event["water_level"]).value;
      var t := AsNumber(event["temp"]).value;
      var h := AsNumber(event["humidity"]).value;
      (WaterCmd in r.value <==> w < 33000.0 || w > 36000.0) &&
      (LowTempCmd in r.value <==> t < 23.0) &&
      (HighTempCmd in r.value <==> t > 24.0) &&
      (HumidityCmd in r.value <==> h < 60.0 || h > 61.0) &&
      (forall c :: c in r.value ==> c in {WaterCmd, LowTempCmd, HighTempCmd, HumidityCmd})
    ensures r.Ok? ==> |r.value| <= 3
    ensures r.Ok? ==> forall i, j :: 0 <= i < j < |r.value| ==> Rank(r.value[i]) < Rank(r.value[j])
  {
    var w, t, h := Field(event, "water_level"), Field(event, "temp"), Field(event, "humidity");
    if w.None? || t.None? || h.None? then Raised(TypeError)
    else
      CommandsOrdered(Reading(w.value, t.value, h.value));
      Ok(Commands(Reading(w.value, t.value, h.value)))
  }

  /** The publish loop: one message per command, in list order. */
  method PublishCommands(cs: seq<Command>) returns (trace: seq<Publish>)
    ensures |trace| == |cs|
    ensures forall i :: 0 <= i < |cs| ==> trace[i] == CommandMessage(cs[i])
  {
    trace := [];
    var k := 0;
    while k < |cs|
      invariant 0 <= k <= |cs|
      invariant |trace| == k
      invariant forall i :: 0 <= i < k ==> trace[i] == CommandMessage(cs[i])
    {
      trace := trace + [CommandMessage(cs[k])];
      k := k + 1;
    }
  }

  datatype Response = Response(statusCode: int, body: string)

  /** What one invocation publishes and how it ends. */
  datatype Outcome = Outcome(published: seq<Publish>, result: Result<Response>)

  /** `lambda_handler(event, context)`. */
  method Handler(event: map<string, Json>) returns (o: Outcome)
    ensures o.result.Raised? <==> Evaluate(event).Raised?
    ensures o.result.Raised? ==> o.published == []
    ensures o.result.Ok? ==> o.result.value.statusCode == 200
    ensures Evaluate(event).Ok? ==>
      var cs := Evaluate(event).value;
      |o.published| == |cs| &&
      forall i :: 0 <= i < |cs| ==> o.published[i] == CommandMessage(cs[i])
  {
    var checked := Evaluate(event);
    if checked.Raised? {
      return Outcome([], Raised(checked.fault));
    }
    var trace := PublishCommands(checked.value);
    o := Outcome(trace, Ok(Response(200, "\"Processed sensor data successfully.\"")));
  }

  /** An event whose three readings are numbers (int, float or bool) within
      their ranges yields no command, whatever other keys it carries. */
  lemma InRangeEventQuiet(event: map<string, Json>)
    requires Comparable(event, "water_level") && Comparable(event, "temp") && Comparable(event, "humidity")
    requires 33000.0 <= AsNumber(event["water_level"]).value <= 36000.0
    requires 23.0 <= AsNumber(event["temp"]).value <= 24.0
    requires 60.0 <= AsNumber(event["humidity"]).value <= 61.0
    ensures Evaluate(event) == Ok([])
  {
    QuietIffInRange(Reading(
      AsNumber(event["water_level"]).value, AsNumber(event["temp"]).value, AsNumber(event["humidity"]).value));
  }

  /** An event missing any of the three keys raises before publishing. */
  lemma MissingFieldRaises(event: map<string, Json>, key: string)
    requires key in {"water_level", "temp", "humidity"} && key !in event
    ensures Evaluate(event) == Raised(TypeError)
  {
  }
}
