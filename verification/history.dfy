/** The monitor's per-plant history: `data_store`, a dictionary from plant id
    to four parallel bounded buffers (timestamps, temperatures, humidities,
    water levels), filled by the MQTT callback and read by the plotting
    code. */
module History {
  import opened Values

  /** `collections.deque(maxlen=50)`. */
  const Capacity: nat := 50

  /** The newest Capacity elements of s, in order. */
  function Newest<T>(s: seq<T>): (r: seq<T>)
    ensures |r| <= |s| && |r| <= Capacity
    ensures |s| <= Capacity ==> r == s
  {
    if |s| <= Capacity then s else s[|s| - Capacity..]
  }

  /** What a bounded deque keeps is a suffix of what was appended, all of it
      until it is full. */
  lemma NewestIsSuffix<T>(s: seq<T>)
    ensures Newest(s) == s[|s| - |Newest(s)|..]
    ensures |Newest(s)| == Capacity || Newest(s) == s
  {
  }

  /** `deque.append(x)` on a bounded deque: x becomes the last element and, if
      the deque was full, its oldest element is discarded. */
  function Push<T>(buf: seq<T>, x: T): (r: seq<T>)
    ensures |r| == if |buf| < Capacity then |buf| + 1 else Capacity
    ensures |r| <= Capacity
    ensures r[|r| - 1] == x
  {
    Newest(buf + [x])
  }

  /** Apart from the new last element, an append keeps the buffer's newest
      elements in order, dropping the oldest exactly when it was full. */
  lemma PushKeepsRest<T>(buf: seq<T>, x: T)
    ensures var r := Push(buf, x);
      r[..|r| - 1] == buf[|buf| + 1 - |r|..]
  {
  }

  /** Appending to a buffer that holds the newest elements of s leaves the
      newest elements of s followed by x. */
  lemma PushNewest<T>(s: seq<T>, x: T)
    ensures Push(Newest(s), x) == Newest(s + [x])
  {
    var n := Newest(s);
    if |s| >= Capacity {
      assert n + [x] == s[|s| - Capacity..] + [x];
      assert (n + [x])[1..] == (s + [x])[|s| + 1 - Capacity..];
    }
  }

  /** Appending the elements of xs one by one. */
  function PushAll<T>(buf: seq<T>, xs: seq<T>): seq<T>
    decreases |xs|
  {
    if |xs| == 0 then buf else PushAll(Push(buf, xs[0]), xs[1..])
  }

  /** However many elements arrive, a buffer holds exactly the newest
      Capacity of everything appended to it, in arrival order. */
  lemma {:induction false} PushAllNewest<T>(s: seq<T>, xs: seq<T>)
    ensures PushAll(Newest(s), xs) == Newest(s + xs)
    decreases |xs|
  {
    if |xs| == 0 {
      assert s + xs == s;
    } else {
      PushNewest(s, xs[0]);
      PushAllNewest(s + [xs[0]], xs[1..]);
      MoveFirst(s, xs);
    }
  }

  lemma MoveFirst<T>(s: seq<T>, xs: seq<T>)
    requires |xs| > 0
    ensures (s + [xs[0]]) + xs[1..] == s + xs
  {
  }

  /** After Capacity + 1 appends to an empty buffer the first element is gone
      and the other Capacity remain in order. */
  lemma OverflowDropsOldest<T>(xs: seq<T>)
    requires |xs| == Capacity + 1
    ensures PushAll([], xs) == xs[1..]
  {
    assert Newest<T>([]) == [];
    PushAllNewest([], xs);
    assert [] + xs == xs;
  }

  /** A dictionary key. Python merges equal numbers of different types
      (`True == 1 == 1.0`), so all numbers are keyed by their value. */
  datatype Key = StrKey(s: string) | NumKey(x: real) | NullKey

  /** The key a JSON value becomes, or None for a list or object, which is
      unhashable. */
  function KeyOf(v: Json): (k: Option<Key>)
    ensures k.None? <==> v.JArray? || v.JObject?
    ensures v.JStr? ==> k == Some(StrKey(v.s))
  {
    match v
    case JStr(s) => Some(StrKey(s))
    case JNull => Some(NullKey)
    case JArray(_) => None
    case JObject(_) => None
    case _ => Some(NumKey(AsNumber(v).value))
  }

  /** A parsed timestamp; `datetime.strptime` itself is a parameter. */
  datatype Stamp = Stamp(seconds: int)

  /** A value of `data_store`: one of the four dictionaries seeded at start
      (empty, without buffers), or the buffers of one plant. */
  datatype Entry =
    | Seeded
    | Plant(timestamps: seq<Stamp>, temperatures: seq<Json>, humidities: seq<Json>, waterLevels: seq<Json>)

  type Store = map<Key, Entry>

  const EmptyPlant: Entry := Plant([], [], [], [])

  /** `data_store` when the monitor starts. */
  const InitialStore: Store := map[
    StrKey("timestamps") := Seeded,
    StrKey("temperatures") := Seeded,
    StrKey("humidities") := Seeded,
    StrKey("water_levels") := Seeded]

  /** Every plant's buffers hold at most Capacity elements. */
  predicate Bounded(store: Store) {
    forall k :: k in store ==> EntryBounded(store[k])
  }

  predicate EntryBounded(e: Entry) {
    e.Plant? ==>
      |e.timestamps| <= Capacity && |e.temperatures| <= Capacity &&
      |e.humidities| <= Capacity && |e.waterLevels| <= Capacity
  }

  /** A plant's four buffers have the same length. */
  predicate Aligned(e: Entry) {
    e.Plant? ==>
      |e.temperatures| == |e.timestamps| && |e.humidities| == |e.timestamps| &&
      |e.waterLevels| == |e.timestamps|
  }

  datatype Fault =
    | JsonDecodeError  // json.loads rejected the payload
    | TypeError        // payload not a dict, unhashable plant id, or non-string time
    | KeyError(key: string)
    | ValueError       // strptime rejected the time text

  /** The store after a callback, and the exception it ended with, if any.
      Appends made before an exception stay in the store. */
  datatype Outcome = Outcome(store: Store, error: Option<Fault>)

  /** The plant key a payload addresses, when it gets that far. */
  function Target(msg: Decoded): Option<Key>
  {
    if msg.Doc? && msg.value.JObject? && "plant_id" in msg.value.fields
    then KeyOf(msg.value.fields["plant_id"])
    else None
  }

  /** The field-by-field appends of lines 50-53 on one entry. Each line
      appends to one buffer, so a missing or bad field stops the sequence
      after the appends already made. */
  function Fill(e: Entry, f: map<string, Json>, parse: string -> Option<Stamp>): (r: (Entry, Option<Fault>))
    ensures r.0.Plant? == e.Plant?
    ensures e.Seeded? || "time" !in f || !f["time"].JStr? || parse(f["time"].s).None? ==> r.0 == e
  {
    if e.Seeded? then (e, Some(KeyError("timestamps")))
    else if "time" !in f then (e, Some(KeyError("time")))
    else if !f["time"].JStr? then (e, Some(TypeError))
    else if parse(f["time"].s).None? then (e, Some(ValueError))
    else
      var e1 := e.(timestamps := Push(e.timestamps, parse(f["time"].s).value));
      if "temperature" !in f then (e1, Some(KeyError("temperature")))
      else
        var e2 := e1.(temperatures := Push(e.temperatures, f["temperature"]));
        if "humidity" !in f then (e2, Some(KeyError("humidity")))
        else
          var e3 := e2.(humidities := Push(e.humidities, f["humidity"]));
          if "water_level" !in f then (e3, Some(KeyError("water_level")))
          else (e3.(waterLevels := Push(e.waterLevels, f["water_level"])), None)
  }

  /** `customCallback(client, userdata, message)`. */
  function Callback(store: Store, msg: Decoded, parse: string -> Option<Stamp>): (o: Outcome)
    ensures Target(msg).None? ==> o.store == store && o.error.Some?
    ensures Target(msg).Some? ==>
      var k := Target(msg).value;
      o.store.Keys == store.Keys + {k} &&
      (forall j :: j in store && j != k ==> o.store[j] == store[j]) &&
      (k !in store ==> o.store[k].Plant?)
  {
    match msg
    case NotJson => Outcome(store, Some(JsonDecodeError))
    case Doc(JObject(f)) =>
      if "plant_id" !in f then Outcome(store, Some(KeyError("plant_id")))
      else
        (match KeyOf(f["plant_id"])
         case None => Outcome(store, Some(TypeError))
         case Some(k) =>
           var r := Fill(if k in store then store[k] else EmptyPlant, f, parse);
           Outcome(store[k := r.0], r.1))
    case Doc(_) => Outcome(store, Some(TypeError))
  }

  /** Once the payload names a usable plant key, the callback is the appends
      on that plant's entry (a fresh one when the key is new). */
  lemma CallbackShape(store: Store, msg: Decoded, parse: string -> Option<Stamp>)
    requires Target(msg).Some?
    ensures var k := Target(msg).value;
      var r := Fill(if k in store then store[k] else EmptyPlant, msg.value.fields, parse);
      Callback(store, msg, parse) == Outcome(store[k := r.0], r.1)
  {
  }

  /** A payload that the callback accepts in full: an object whose plant id is
      a usable key and whose four readings are present, with a time text the
      parser accepts. */
  predicate Complete(msg: Decoded, parse: string -> Option<Stamp>) {
    && Target(msg).Some?
    && var f := msg.value.fields;
    && "time" in f && f["time"].JStr? && parse(f["time"].s).Some?
    && "temperature" in f && "humidity" in f && "water_level" in f
  }

  /** The appends complete exactly when the entry is a plant and the payload
      holds all four readings with a time text the parser accepts; each
      buffer then gains its reading. */
  lemma FillSucceeds(e: Entry, f: map<string, Json>, parse: string -> Option<Stamp>)
    ensures Fill(e, f, parse).1.None? <==>
      e.Plant? && "time" in f && f["time"].JStr? && parse(f["time"].s).Some? &&
      "temperature" in f && "humidity" in f && "water_level" in f
    ensures Fill(e, f, parse).1.None? ==>
      Fill(e, f, parse).0 == Plant(
        Push(e.timestamps, parse(f["time"].s).value),
        Push(e.temperatures, f["temperature"]),
        Push(e.humidities, f["humidity"]),
        Push(e.waterLevels, f["water_level"]))
  {
  }

  /** The callback ends without an exception exactly when the payload is
      complete and its plant id is not one of the seeded keys; it then appends
      the payload's readings, one to each of the plant's buffers. */
  lemma CallbackSucceeds(store: Store, msg: Decoded, parse: string -> Option<Stamp>)
    ensures var o := Callback(store, msg, parse);
      o.error.None? <==>
        Complete(msg, parse) && !(Target(msg).value in store && store[Target(msg).value].Seeded?)
    ensures var o := Callback(store, msg, parse);
      o.error.None? ==>
        var k, f := Target(msg).value, msg.value.fields;
        var e := if k in store then store[k] else EmptyPlant;
        o.store[k] == Plant(
          Push(e.timestamps, parse(f["time"].s).value),
          Push(e.temperatures, f["temperature"]),
          Push(e.humidities, f["humidity"]),
          Push(e.waterLevels, f["water_level"]))
  {
    if Target(msg).Some? {
      var k, f := Target(msg).value, msg.value.fields;
      CallbackShape(store, msg, parse);
      FillSucceeds(if k in store then store[k] else EmptyPlant, f, parse);
    }
  }

  /** No buffer ever grows past Capacity, whatever the payload and even when
      the callback stops part way. */
  lemma CallbackKeepsBound(store: Store, msg: Decoded, parse: string -> Option<Stamp>)
    requires Bounded(store)
    ensures Bounded(Callback(store, msg, parse).store)
  {
    if Target(msg).Some? {
      var k := Target(msg).value;
      CallbackShape(store, msg, parse);
      var e := if k in store then store[k] else EmptyPlant;
      FillKeepsBound(e, msg.value.fields, parse);
      UpdateKeepsBound(store, k, Fill(e, msg.value.fields, parse).0);
    }
  }

  lemma FillKeepsBound(e: Entry, f: map<string, Json>, parse: string -> Option<Stamp>)
    requires EntryBounded(e)
    ensures EntryBounded(Fill(e, f, parse).0)
  {
    if e.Plant? && "time" in f && f["time"].JStr? && parse(f["time"].s).Some? {
      var t := parse(f["time"].s).value;
      assert |Push(e.timestamps, t)| <= Capacity;
      if "temperature" in f {
        assert |Push(e.temperatures, f["temperature"])| <= Capacity;
        if "humidity" in f {
          assert |Push(e.humidities, f["humidity"])| <= Capacity;
          if "water_level" in f {
            assert |Push(e.waterLevels, f["water_level"])| <= Capacity;
          }
        }
      }
    }
  }

  lemma UpdateKeepsBound(store: Store, k: Key, e: Entry)
    requires Bounded(store) && EntryBounded(e)
    ensures Bounded(store[k := e])
  {
  }

  /** A complete payload keeps a plant's four buffers the same length. */
  lemma CallbackKeepsAligned(store: Store, msg: Decoded, parse: string -> Option<Stamp>)
    requires forall k :: k in store ==> Aligned(store[k])
    requires Complete(msg, parse)
    requires Target(msg).value !in store || store[Target(msg).value].Plant?
    ensures var o := Callback(store, msg, parse);
      forall k :: k in o.store ==> Aligned(o.store[k])
  {
    var k, f := Target(msg).value, msg.value.fields;
    var e := if k in store then store[k] else EmptyPlant;
    var o := Callback(store, msg, parse);
    assert o.store[k] == Plant(
      Push(e.timestamps, parse(f["time"].s).value), Push(e.temperatures, f["temperature"]),
      Push(e.humidities, f["humidity"]), Push(e.waterLevels, f["water_level"])) by {
      CallbackSucceeds(store, msg, parse);
    }
    PushKeepsAligned(e, parse(f["time"].s).value, f["temperature"], f["humidity"], f["water_level"]);
    forall j | j in o.store ensures Aligned(o.store[j]) {
      if j != k {
        assert j in store && o.store[j] == store[j];
      }
    }
  }

  lemma PushKeepsAligned(e: Entry, t: Stamp, temperature: Json, humidity: Json, waterLevel: Json)
    requires e.Plant? && Aligned(e)
    ensures Aligned(Plant(Push(e.timestamps, t), Push(e.temperatures, temperature),
      Push(e.humidities, humidity), Push(e.waterLevels, waterLevel)))
  {
  }

  /** A payload with a good time but no temperature, for a plant not seen
      before: the plant's entry is created, one timestamp is appended and
      nothing else, so its buffers end up with different lengths. */
  lemma PartialAppendPersists(store: Store, msg: Decoded, parse: string -> Option<Stamp>)
    requires Target(msg).Some? && Target(msg).value !in store
    requires var f := msg.value.fields;
      "time" in f && f["time"].JStr? && parse(f["time"].s).Some? && "temperature" !in f
    ensures var o := Callback(store, msg, parse);
      var k, f := Target(msg).value, msg.value.fields;
      o.error == Some(KeyError("temperature")) &&
      k in o.store && o.store[k] == Plant([parse(f["time"].s).value], [], [], []) &&
      !Aligned(o.store[k])
  {
    var k, f := Target(msg).value, msg.value.fields;
    var t := parse(f["time"].s).value;
    var r := Fill(EmptyPlant, f, parse);
    assert r == (Plant([t], [], [], []), Some(KeyError("temperature"))) by {
      FillStopsAtTemperature(EmptyPlant, f, parse);
      assert Push([], t) == [t];
    }
    assert Callback(store, msg, parse) == Outcome(store[k := r.0], r.1) by {
      CallbackShape(store, msg, parse);
    }
  }

  /** With a good time but no temperature, only the timestamp is appended. */
  lemma FillStopsAtTemperature(e: Entry, f: map<string, Json>, parse: string -> Option<Stamp>)
    requires e.Plant? && "time" in f && f["time"].JStr? && parse(f["time"].s).Some?
    requires "temperature" !in f
    ensures Fill(e, f, parse) ==
      (e.(timestamps := Push(e.timestamps, parse(f["time"].s).value)), Some(KeyError("temperature")))
  {
  }

  /** With a good time and temperature but no humidity, the timestamp and
      temperature appends stay. */
  lemma FillStopsAtHumidity(e: Entry, f: map<string, Json>, parse: string -> Option<Stamp>)
    requires e.Plant? && "time" in f && f["time"].JStr? && parse(f["time"].s).Some?
    requires "temperature" in f && "humidity" !in f
    ensures Fill(e, f, parse) ==
      (e.(timestamps := Push(e.timestamps, parse(f["time"].s).value),
          temperatures := Push(e.temperatures, f["temperature"])),
       Some(KeyError("humidity")))
  {
  }

  /** With everything but the water level, three appends stay. */
  lemma FillStopsAtWaterLevel(e: Entry, f: map<string, Json>, parse: string -> Option<Stamp>)
    requires e.Plant? && "time" in f && f["time"].JStr? && parse(f["time"].s).Some?
    requires "temperature" in f && "humidity" in f && "water_level" !in f
    ensures Fill(e, f, parse) ==
      (e.(timestamps := Push(e.timestamps, parse(f["time"].s).value),
          temperatures := Push(e.temperatures, f["temperature"]),
          humidities := Push(e.humidities, f["humidity"])),
       Some(KeyError("water_level")))
  {
  }

  /** A complete payload for a plant not yet in the store creates it with one
      element per buffer: the payload's own time and readings. */
  lemma FreshPlantStored(store: Store, msg: Decoded, parse: string -> Option<Stamp>)
    requires Complete(msg, parse) && Target(msg).value !in store
    ensures var o := Callback(store, msg, parse);
      var f := msg.value.fields;
      o.error.None? &&
      o.store[Target(msg).value] ==
        Plant([parse(f["time"].s).value], [f["temperature"]], [f["humidity"]], [f["water_level"]])
  {
    var f := msg.value.fields;
    CallbackSucceeds(store, msg, parse);
    assert Push([], parse(f["time"].s).value) == [parse(f["time"].s).value];
    assert Push([], f["temperature"]) == [f["temperature"]];
    assert Push([], f["humidity"]) == [f["humidity"]];
    assert Push([], f["water_level"]) == [f["water_level"]];
  }

  /** A plant id equal to one of the seeded keys skips creation and fails on
      the first append, leaving the store as it was. */
  lemma SeededIdFails(msg: Decoded, parse: string -> Option<Stamp>)
    requires Target(msg).Some? && Target(msg).value in InitialStore
    ensures Callback(InitialStore, msg, parse) == Outcome(InitialStore, Some(KeyError("timestamps")))
  {
  }

  /** An undecodable payload, a payload that is not an object, and one without
      `plant_id` all fail before touching the store. */
  lemma RejectedBeforeMutation(store: Store, msg: Decoded, parse: string -> Option<Stamp>)
    requires msg.NotJson? || !msg.value.JObject? || "plant_id" !in msg.value.fields
    ensures Callback(store, msg, parse).store == store
    ensures Callback(store, msg, parse).error in
      {Some(JsonDecodeError), Some(TypeError), Some(KeyError("plant_id"))}
  {
  }

  /** `fetch_latest_sensor_data(plant_id)`: the plant's timestamps and water
      levels. An unknown id, or a seeded key, raises KeyError. */
  function Fetch(store: Store, k: Key): (r: Option<(seq<Stamp>, seq<Json>)>)
    ensures r.Some? <==> k in store && store[k].Plant?
    ensures r.Some? ==> r.value.0 == store[k].timestamps && r.value.1 == store[k].waterLevels
  {
    if k in store && store[k].Plant? then Some((store[k].timestamps, store[k].waterLevels))
    else None
  }

  /** After the callback accepts a payload, fetching that plant returns
      buffers whose newest elements are the payload's time and water level. */
  lemma FetchSeesLatest(store: Store, msg: Decoded, parse: string -> Option<Stamp>)
    requires Callback(store, msg, parse).error.None?
    ensures var r := Fetch(Callback(store, msg, parse).store, Target(msg).value);
      var f := msg.value.fields;
      r.Some? && |r.value.0| > 0 && |r.value.1| > 0 &&
      r.value.0[|r.value.0| - 1] == parse(f["time"].s).value &&
      r.value.1[|r.value.1| - 1] == f["water_level"]
  {
    CallbackSucceeds(store, msg, parse);
  }

  /** Messages delivered one after another. */
  function Deliver(store: Store, msgs: seq<Decoded>, parse: string -> Option<Stamp>): Store
    decreases |msgs|
  {
    if |msgs| == 0 then store
    else Deliver(Callback(store, msgs[0], parse).store, msgs[1..], parse)
  }

  /** The time of a complete payload, as the parser reads it. */
  function TimeOf(msg: Decoded, parse: string -> Option<Stamp>): Stamp
    requires Complete(msg, parse)
  {
    parse(msg.value.fields["time"].s).value
  }

  function WaterOf(msg: Decoded, parse: string -> Option<Stamp>): Json
    requires Complete(msg, parse)
  {
    msg.value.fields["water_level"]
  }

  predicate AllComplete(msgs: seq<Decoded>, parse: string -> Option<Stamp>, k: Key) {
    forall i :: 0 <= i < |msgs| ==> Complete(msgs[i], parse) && Target(msgs[i]) == Some(k)
  }

  function Times(msgs: seq<Decoded>, parse: string -> Option<Stamp>, k: Key): seq<Stamp>
    requires AllComplete(msgs, parse, k)
  {
    if |msgs| == 0 then [] else [TimeOf(msgs[0], parse)] + Times(msgs[1..], parse, k)
  }

  function WaterLevels(msgs: seq<Decoded>, parse: string -> Option<Stamp>, k: Key): seq<Json>
    requires AllComplete(msgs, parse, k)
  {
    if |msgs| == 0 then [] else [WaterOf(msgs[0], parse)] + WaterLevels(msgs[1..], parse, k)
  }

  /** One complete payload for plant k appends its time and water level to
      buffers that hold the newest elements of ts and ws. */
  lemma StepKeepsNewest(store: Store, m: Decoded, parse: string -> Option<Stamp>, k: Key,
    ts: seq<Stamp>, ws: seq<Json>)
    requires Complete(m, parse) && Target(m) == Some(k)
    requires k in store && store[k].Plant?
    requires store[k].timestamps == Newest(ts) && store[k].waterLevels == Newest(ws)
    ensures var o := Callback(store, m, parse).store;
      k in o && o[k].Plant? &&
      o[k].timestamps == Newest(ts + [TimeOf(m, parse)]) &&
      o[k].waterLevels == Newest(ws + [WaterOf(m, parse)])
  {
    CallbackSucceeds(store, m, parse);
    PushNewest(ts, TimeOf(m, parse));
    PushNewest(ws, WaterOf(m, parse));
  }

  lemma RunCons(msgs: seq<Decoded>, parse: string -> Option<Stamp>, k: Key)
    requires AllComplete(msgs, parse, k) && |msgs| > 0
    ensures AllComplete(msgs[1..], parse, k)
    ensures Times(msgs, parse, k) == [TimeOf(msgs[0], parse)] + Times(msgs[1..], parse, k)
    ensures WaterLevels(msgs, parse, k) == [WaterOf(msgs[0], parse)] + WaterLevels(msgs[1..], parse, k)
  {
  }

  lemma AppendAssoc<X>(a: seq<X>, x: X, b: seq<X>)
    ensures a + ([x] + b) == (a + [x]) + b
  {
  }

  /** A run of complete payloads for one plant leaves it holding the newest
      Capacity timestamps and water levels of everything it received, in
      arrival order. */
  lemma {:induction false} RunKeepsNewest(
    store: Store, msgs: seq<Decoded>, parse: string -> Option<Stamp>, k: Key,
    ts: seq<Stamp>, ws: seq<Json>)
    requires AllComplete(msgs, parse, k)
    requires k in store && store[k].Plant?
    requires store[k].timestamps == Newest(ts) && store[k].waterLevels == Newest(ws)
    ensures var d := Deliver(store, msgs, parse);
      k in d && d[k].Plant? &&
      d[k].timestamps == Newest(ts + Times(msgs, parse, k)) &&
      d[k].waterLevels == Newest(ws + WaterLevels(msgs, parse, k))
    decreases |msgs|
  {
    if |msgs| == 0 {
      assert Times(msgs, parse, k) == [] && WaterLevels(msgs, parse, k) == [];
      assert ts + [] == ts && ws + [] == ws;
    } else {
      var next := Callback(store, msgs[0], parse).store;
      var t, w := TimeOf(msgs[0], parse), WaterOf(msgs[0], parse);
      assert k in next && next[k].Plant? &&
        next[k].timestamps == Newest(ts + [t]) && next[k].waterLevels == Newest(ws + [w]) by {
        StepKeepsNewest(store, msgs[0], parse, k, ts, ws);
      }
      RunCons(msgs, parse, k);
      RunKeepsNewest(next, msgs[1..], parse, k, ts + [t], ws + [w]);
      AppendAssoc(ts, t, Times(msgs[1..], parse, k));
      AppendAssoc(ws, w, WaterLevels(msgs[1..], parse, k));
    }
  }

  /** Read through `fetch_latest_sensor_data`: after a run of complete
      payloads for one plant, fetching it returns the newest Capacity
      timestamps and water levels of everything it received, in order. */
  lemma FetchAfterRun(
    store: Store, msgs: seq<Decoded>, parse: string -> Option<Stamp>, k: Key,
    ts: seq<Stamp>, ws: seq<Json>)
    requires AllComplete(msgs, parse, k)
    requires k in store && store[k].Plant?
    requires store[k].timestamps == Newest(ts) && store[k].waterLevels == Newest(ws)
    ensures Fetch(Deliver(store, msgs, parse), k) ==
      Some((Newest(ts + Times(msgs, parse, k)), Newest(ws + WaterLevels(msgs, parse, k))))
  {
    RunKeepsNewest(store, msgs, parse, k, ts, ws);
  }
}
