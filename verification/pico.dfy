/** The pure logic of the Pico W controller that talks to AWS IoT Core: the
    pump-command callback, the PEM framing used to load its TLS key and
    certificate, and the telemetry message it publishes. */
module Pico {
  import opened Values
  import opened Decimal
  import opened Text
  import opened Pump

  datatype Fault =
    | ValueError      // ujson.loads rejected the message
    | AttributeError  // the document is not an object, so it has no keys()

  /** Pin levels after a callback, and the exception it raised, if any. */
  datatype Outcome = Outcome(pins: Pins, error: Option<Fault>)

  /** The `state` values that mean "on": exactly three spellings. */
  predicate SaysOn(v: Json) {
    v == JStr("on") || v == JStr("ON") || v == JStr("On")
  }

  /** `mqtt_subscribe_callback(topic, msg)`. The subscribe topic is built from
      a client id the script never defines, so it is a parameter here. */
  function SubscribeCallback(subTopic: Bytes, topic: Bytes, msg: Decoded, pins: Pins): (o: Outcome)
    ensures topic != subTopic ==> o == Outcome(pins, None)
    ensures topic == subTopic && msg.NotJson? ==> o == Outcome(pins, Some(ValueError))
    ensures topic == subTopic && msg.Doc? && !msg.value.JObject? ==> o == Outcome(pins, Some(AttributeError))
    ensures o.error.Some? || o.pins == pins || o.pins == Pumping("on") || o.pins == Pumping("off")
    ensures o.pins.motor2A == Low || o.pins == pins
  {
    if topic != subTopic then Outcome(pins, None)
    else match msg
      case NotJson => Outcome(pins, Some(ValueError))
      case Doc(JObject(fields)) =>
        if "state" in fields then
          if SaysOn(fields["state"]) then Outcome(Pumping("on"), None)
          else Outcome(Pumping("off"), None)
        else Outcome(pins, None)
      case Doc(_) => Outcome(pins, Some(AttributeError))
  }

  /** On the subscribed topic, an object carrying `state` decides the pump on
      its own: it runs afterwards exactly when `state` is one of the three
      accepted spellings of "on", whatever the pins were before. */
  lemma StateDecidesPump(subTopic: Bytes, fields: map<string, Json>, pins: Pins)
    requires "state" in fields
    ensures var o := SubscribeCallback(subTopic, subTopic, Doc(JObject(fields)), pins);
      o.error.None? && o.pins.motor2A == Low &&
      (Running(o.pins) <==> fields["state"] in {JStr("on"), JStr("ON"), JStr("On")})
  {
  }

  /** Examples: other spellings, a number and a boolean stop the pump. */
  lemma OtherStatesStop(subTopic: Bytes, pins: Pins)
    ensures forall v :: v in {JStr("oN"), JStr("off"), JStr("o n"), JInt(1), JBool(true)} ==>
      SubscribeCallback(subTopic, subTopic, Doc(JObject(map["state" := v])), pins).pins == Pins(Low, Low)
  {
  }

  /** An object without `state` changes nothing and raises nothing. */
  lemma NoStateNoChange(subTopic: Bytes, fields: map<string, Json>, pins: Pins)
    requires "state" !in fields
    ensures SubscribeCallback(subTopic, subTopic, Doc(JObject(fields)), pins) == Outcome(pins, None)
  {
  }

  /** The body lines of a PEM file, joined: the text is stripped, split on
      newlines, and the first and last lines (the encapsulation boundaries)
      are dropped. This is the text handed to the base64 decoder. */
  function PemBody(text: string): (body: string)
    ensures '\n' !in body
    ensures |Split(Strip(text), '\n')| <= 2 ==> body == ""
  {
    InnerLines(Split(Strip(text), '\n'))
  }

  /** `"".join(lines[1:-1])`: the lines between the first and the last. */
  function InnerLines(lines: seq<string>): (body: string)
    requires forall i :: 0 <= i < |lines| ==> '\n' !in lines[i]
    ensures '\n' !in body
    ensures |lines| <= 2 ==> body == ""
  {
    if |lines| <= 2 then ""
    else
      ConcatFree(lines[1..|lines| - 1], '\n');
      Concat(lines[1..|lines| - 1])
  }

  /** A PEM document laid out as in section 2 of RFC 7468 with '\n' line
      ends — a boundary line, the body, a boundary line, surrounded by any
      amount of whitespace — yields its body with every '\n' removed. */
  lemma {:induction false} PemBodyOfFramed(pre: string, begin: string, body: string, end: string, post: string)
    requires AllSpace(pre) && AllSpace(post)
    requires '\n' !in begin && '\n' !in end
    requires |begin| > 0 && !IsSpace(begin[0])
    requires |end| > 0 && !IsSpace(end[|end| - 1])
    ensures PemBody(pre + begin + "\n" + body + "\n" + end + post) == Remove(body, '\n')
  {
    var core := begin + "\n" + body + "\n" + end;
    assert core[0] == begin[0];
    assert core[|core| - 1] == end[|end| - 1];
    assert pre + begin + "\n" + body + "\n" + end + post == pre + core + post;
    StripCore(pre, core, post);
    var mid := Split(body, '\n');
    var parts := [begin] + mid + [end];
    JoinAppend([begin], mid, '\n');
    JoinAppend([begin] + mid, [end], '\n');
    assert Join([begin], '\n') == begin;
    assert Join([end], '\n') == end;
    assert Join(parts, '\n') == core;
    forall i | 0 <= i < |parts| ensures '\n' !in parts[i] {
      if 0 < i < |parts| - 1 { assert parts[i] == mid[i - 1]; }
    }
    SplitJoin(parts, '\n');
    assert parts[1..|parts| - 1] == mid;
    ConcatSplit(body, '\n');
  }

  /** The `date` field: year, month and day as unpadded decimals joined by
      hyphens. */
  function DateString(year: nat, month: nat, day: nat): string
  {
    Show(year) + "-" + Show(month) + "-" + Show(day)
  }

  /** The date text splits back into exactly three unpadded decimal fields
      that read back as the year, month and day. */
  lemma DateStringParses(year: nat, month: nat, day: nat)
    ensures var parts := Split(DateString(year, month, day), '-');
      |parts| == 3 &&
      (forall k :: 0 <= k < 3 ==> IsDigitString(parts[k]) && (parts[k][0] == '0' ==> |parts[k]| == 1)) &&
      Value(parts[0]) == year && Value(parts[1]) == month && Value(parts[2]) == day
  {
    ValueOfShow(year);
    ValueOfShow(month);
    ValueOfShow(day);
    FieldsParse(Show(year), Show(month), Show(day));
  }

  /** Three unpadded digit strings joined by hyphens split back into
      themselves. */
  lemma FieldsParse(a: string, b: string, c: string)
    requires IsDigitString(a) && (a[0] == '0' ==> |a| == 1)
    requires IsDigitString(b) && (b[0] == '0' ==> |b| == 1)
    requires IsDigitString(c) && (c[0] == '0' ==> |c| == 1)
    ensures var parts := Split(a + "-" + b + "-" + c, '-');
      parts == [a, b, c] &&
      (forall k :: 0 <= k < 3 ==> IsDigitString(parts[k]) && (parts[k][0] == '0' ==> |parts[k]| == 1))
  {
    NoHyphen(a);
    NoHyphen(b);
    NoHyphen(c);
    SplitThree(a, b, c, '-');
  }

  lemma SplitThree(a: string, b: string, c: string, sep: char)
    requires sep !in a && sep !in b && sep !in c
    ensures Split(a + [sep] + b + [sep] + c, sep) == [a, b, c]
  {
    var parts := [a, b, c];
    assert forall i :: 0 <= i < |parts| ==> sep !in parts[i] by {
      assert parts[0] == a && parts[1] == b && parts[2] == c;
    }
    JoinThree(a, b, c, sep);
    SplitJoin(parts, sep);
  }

  lemma NoHyphen(s: string)
    requires AllDigits(s)
    ensures '-' !in s
  {
    forall i | 0 <= i < |s| ensures s[i] != '-' {
      assert IsDigit(s[i]);
    }
  }

  lemma JoinThree(a: string, b: string, c: string, sep: char)
    ensures Join([a, b, c], sep) == a + [sep] + b + [sep] + c
  {
    assert [a, b, c][1..] == [b, c];
    assert [b, c][1..] == [c];
    assert Join([b, c], sep) == b + [sep] + c;
    assert a + [sep] + (b + [sep] + c) == a + [sep] + b + [sep] + c;
  }

  /** The telemetry message of one loop iteration. It carries no plant id. */
  function Telemetry(temperature: int, waterLevel: real, humidity: int, date: string): (m: Json)
    ensures m.JObject? && m.fields.Keys == {"temperature", "water_level", "humidity", "date"}
    ensures "plant_id" !in m.fields
    ensures m.fields["date"] == JStr(date)
    ensures m.fields["temperature"] == JInt(temperature) && m.fields["humidity"] == JInt(humidity)
    ensures m.fields["water_level"] == JNum(waterLevel)
  {
    JObject(map[
      "temperature" := JInt(temperature),
      "water_level" := JNum(waterLevel),
      "humidity" := JInt(humidity),
      "date" := JStr(date)])
  }
}
