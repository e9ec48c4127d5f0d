/** The sensor simulator: it names N plants, publishes one synthetic reading
    per plant per tick to two brokers, and reacts to command messages. */
module Simulator {
  import opened Values
  import opened Decimal

  const DataTopic: string := "sensor/data"

  /** Configured (min, max) ranges of the synthetic readings. */
  const TemperatureRange: (real, real) := (23.0, 24.0)
  const HumidityRange: (real, real) := (60.0, 61.0)
  const WaterLevelRange: (real, real) := (33000.0, 36000.0)

  const Prefix: string := "plant_"

  function PlantId(i: nat): string
  {
    Prefix + Show(i)
  }

  /** The numeric part of a generated id reads back as its number. */
  lemma PlantIdNumber(i: nat)
    ensures |PlantId(i)| > |Prefix| && PlantId(i)[..|Prefix|] == Prefix
    ensures IsDigitString(PlantId(i)[|Prefix|..]) && Value(PlantId(i)[|Prefix|..]) == i
  {
    assert PlantId(i)[|Prefix|..] == Show(i);
    ValueOfShow(i);
  }

  /** Different numbers give different ids. */
  lemma PlantIdInjective(i: nat, j: nat)
    ensures PlantId(i) == PlantId(j) ==> i == j
  {
    if PlantId(i) == PlantId(j) {
      assert Show(i) == PlantId(i)[|Prefix|..] == PlantId(j)[|Prefix|..] == Show(j);
      ShowInjective(i, j);
    }
  }

  /** `generate_sensor_ids(number_of_sensors)`: `plant_1` .. `plant_n`; a
      negative count gives no ids, as `range` does. */
  method GenerateSensorIds(n: int) returns (ids: seq<string>)
    ensures |ids| == if n < 0 then 0 else n
    ensures forall k :: 0 <= k < |ids| ==> ids[k] == Prefix + Show(k + 1)
    ensures forall i, j :: 0 <= i < j < |ids| ==> ids[i] != ids[j]
    ensures forall k :: 0 <= k < |ids| ==>
      IsDigitString(ids[k][|Prefix|..]) && Value(ids[k][|Prefix|..]) == k + 1
  {
    ids := [];
    var i := 0;
    while i < n
      invariant 0 <= i && (n >= 0 ==> i <= n) && (n < 0 ==> i == 0)
      invariant |ids| == i
      invariant forall k :: 0 <= k < i ==> ids[k] == PlantId(k + 1)
    {
      ids := ids + [PlantId(i + 1)];
      i := i + 1;
    }
    forall i, j | 0 <= i < j < |ids| ensures ids[i] != ids[j] {
      PlantIdInjective(i + 1, j + 1);
    }
    forall k | 0 <= k < |ids|
      ensures IsDigitString(ids[k][|Prefix|..]) && Value(ids[k][|Prefix|..]) == k + 1
    {
      PlantIdNumber(k + 1);
    }
  }

  /** What `on_message` does with a command text. */
  datatype Effect =
    | TurnPumpOn
    | ReportLowTemp
    | ReportHighTemp
    | ChangeHumidity
    | ReportUnknown(code: nat)
    | ReportNonNumeric(text: string)
    | RaiseValueError

  /** CPython's default `sys.int_max_str_digits`: `int` of a decimal text
      with more digits than this, leading zeros included, raises ValueError. */
  const MaxIntDigits: nat := 4300

  /** The four effects that act; the two reports only log. */
  predicate Acts(e: Effect) {
    e.TurnPumpOn? || e.ReportLowTemp? || e.ReportHighTemp? || e.ChangeHumidity?
  }

  /** The code dispatch of `on_message` for a parsed number. */
  function Dispatch(code: nat): (e: Effect)
    ensures Acts(e) <==> code in {1, 21, 22, 3}
    ensures e == TurnPumpOn <==> code == 1
    ensures e == ReportLowTemp <==> code == 21
    ensures e == ReportHighTemp <==> code == 22
    ensures e == ChangeHumidity <==> code == 3
    ensures !Acts(e) ==> e == ReportUnknown(code)
  {
    if code == 1 then TurnPumpOn
    else if code == 21 then ReportLowTemp
    else if code == 22 then ReportHighTemp
    else if code == 3 then ChangeHumidity
    else ReportUnknown(code)
  }

  /** `on_message(client, userdata, msg)` on the decoded payload text: only an
      all-digit text is converted with `int` and dispatched, and `int` raises
      on a text longer than the digit limit. */
  function OnMessage(text: string): (e: Effect)
    ensures e.ReportNonNumeric? <==> !IsDigitString(text)
    ensures e == RaiseValueError <==> IsDigitString(text) && |text| > MaxIntDigits
    ensures Acts(e) ==> IsDigitString(text) && |text| <= MaxIntDigits && Value(text) in {1, 21, 22, 3}
  {
    if !IsDigitString(text) then ReportNonNumeric(text)
    else if |text| > MaxIntDigits then RaiseValueError
    else Dispatch(Value(text))
  }

  /** Leading zeros do not change the command: "01" pumps like "1", as long
      as the padded text stays within the digit limit. */
  lemma LeadingZerosIgnored(k: nat, text: string)
    requires IsDigitString(text)
    ensures k + |text| <= MaxIntDigits ==> OnMessage(Zeros(k) + text) == OnMessage(text)
    ensures k + |text| > MaxIntDigits ==> OnMessage(Zeros(k) + text) == RaiseValueError
  {
    LeadingZeros(k, text);
  }

  /** The four code texts select their effects. */
  lemma CodesSelectEffects()
    ensures OnMessage("1") == TurnPumpOn
    ensures OnMessage("21") == ReportLowTemp
    ensures OnMessage("22") == ReportHighTemp
    ensures OnMessage("3") == ChangeHumidity
  {
    assert "1" == Show(1) && "21" == Show(21) && "22" == Show(22) && "3" == Show(3);
    ValueOfShow(1);
    ValueOfShow(21);
    ValueOfShow(22);
    ValueOfShow(3);
  }

  /** An empty text, a signed number and a JSON object are all non-numeric. */
  lemma NonDigitTextsIgnored()
    ensures OnMessage("") == ReportNonNumeric("")
    ensures OnMessage("-1") == ReportNonNumeric("-1")
    ensures OnMessage("{\"command\": 1}") == ReportNonNumeric("{\"command\": 1}")
  {
    assert !IsDigit("-1"[0]);
    assert !IsDigit("{\"command\": 1}"[0]);
  }

  /** Corrected `on_message`: the payload is first read as the JSON object
      `{"command": code}` that the threshold evaluator publishes, with the code
      an integer or a digit string; any other payload is treated as before. */
  function OnCommand(text: string, decoded: Decoded): (e: Effect)
    ensures !(decoded.Doc? && decoded.value.JObject? && "command" in decoded.value.fields) ==>
      e == OnMessage(text)
    ensures decoded == Doc(JObject(map["command" := JInt(1)])) ==> e == TurnPumpOn
  {
    match decoded
    case Doc(JObject(f)) =>
      if "command" !in f then OnMessage(text)
      else
        (match f["command"]
         case JInt(n) => if n < 0 then ReportNonNumeric(text) else Dispatch(n)
         case JStr(s) => OnMessage(s)
         case _ => ReportNonNumeric(text))
    case _ => OnMessage(text)
  }

  /** `random.uniform(a, b)`, which computes a + (b - a) * random() with
      random() in [0, 1). */
  function Uniform(range: (real, real), unit: real): (x: real)
    requires range.0 <= range.1 && 0.0 <= unit < 1.0
    ensures range.0 <= x <= range.1
  {
    var width := range.1 - range.0;
    assert 0.0 <= width * unit <= width by {
      assert width * (1.0 - unit) == width - width * unit;
      MulNonNegative(width, 1.0 - unit);
      MulNonNegative(width, unit);
    }
    range.0 + width * unit
  }

  lemma MulNonNegative(a: real, b: real)
    requires 0.0 <= a && 0.0 <= b
    ensures 0.0 <= a * b
  {
  }

  /** The random draws and the `time.ctime()` text of one reading. */
  datatype Draw = Draw(temperature: real, humidity: real, waterLevel: real, time: string)

  predicate ValidDraw(d: Draw) {
    0.0 <= d.temperature < 1.0 && 0.0 <= d.humidity < 1.0 && 0.0 <= d.waterLevel < 1.0
  }

  /** The object serialised as `sensor_data` for one plant. */
  function SensorData(plantId: string, d: Draw): (m: Json)
    requires ValidDraw(d)
    ensures m.JObject?
    ensures m.fields.Keys == {"plant_id", "temperature", "humidity", "water_level", "time"}
    ensures m.fields["plant_id"] == JStr(plantId) && m.fields["time"] == JStr(d.time)
    ensures m.fields["temperature"].JNum? && 23.0 <= m.fields["temperature"].x <= 24.0
    ensures m.fields["humidity"].JNum? && 60.0 <= m.fields["humidity"].x <= 61.0
    ensures m.fields["water_level"].JNum? && 33000.0 <= m.fields["water_level"].x <= 36000.0
  {
    JObject(map[
      "plant_id" := JStr(plantId),
      "temperature" := JNum(Uniform(TemperatureRange, d.temperature)),
      "humidity" := JNum(Uniform(HumidityRange, d.humidity)),
      "water_level" := JNum(Uniform(WaterLevelRange, d.waterLevel)),
      "time" := JStr(d.time)])
  }

  datatype Client = Aws | Dashboard

  /** One `client.publish(topic, payload)` call. */
  datatype Publish = Publish(client: Client, topic: string, payload: Json)

  /** One pass of the `for plant_id in plant_ids` loop: each plant's reading
      goes to AWS first and then, identical, to the dashboard broker. */
  method PublishTick(ids: seq<string>, draws: seq<Draw>) returns (trace: seq<Publish>)
    requires |draws| == |ids|
    requires forall k :: 0 <= k < |draws| ==> ValidDraw(draws[k])
    ensures |trace| == 2 * |ids|
    ensures forall k :: 0 <= k < |ids| ==>
      trace[2 * k] == Publish(Aws, DataTopic, SensorData(ids[k], draws[k])) &&
      trace[2 * k + 1] == Publish(Dashboard, DataTopic, SensorData(ids[k], draws[k]))
    ensures forall i :: 0 <= i < |trace| ==> trace[i].topic == "sensor/data"
  {
    trace := [];
    var k := 0;
    while k < |ids|
      invariant 0 <= k <= |ids|
      invariant |trace| == 2 * k
      invariant forall j :: 0 <= j < k ==>
        trace[2 * j] == Publish(Aws, DataTopic, SensorData(ids[j], draws[j])) &&
        trace[2 * j + 1] == Publish(Dashboard, DataTopic, SensorData(ids[j], draws[j]))
      invariant forall i :: 0 <= i < |trace| ==> trace[i].topic == DataTopic
    {
      var data := SensorData(ids[k], draws[k]);
      trace := trace + [Publish(Aws, DataTopic, data), Publish(Dashboard, DataTopic, data)];
      k := k + 1;
    }
  }
}
