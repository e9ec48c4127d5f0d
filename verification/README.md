# Plant-monitoring telemetry over MQTT, modelled in Dafny

The system is a small set of Python and MicroPython scripts for monitoring plants over MQTT.

- A simulator names N plants and publishes one synthetic reading per plant per tick. Each reading goes to AWS IoT Core and, identically, to the public mqtt-dashboard.com broker. The simulator also reacts to command codes on `sensor/command`.
- A desktop monitor subscribes to `sensor/data`. It sorts incoming readings by `plant_id` into per-plant rolling buffers of 50 elements (`data_store`) and serves them to the plotting code.
- A cloud function (the threshold evaluator) checks one sensor event against fixed inclusive ranges. It publishes `{"command": code}` to `sensor/command` for each reading out of range.
- Two Raspberry Pi Pico W controllers drive a pump through two H-bridge pins:
  - one switches the pump on JSON `state` messages from AWS IoT and publishes its own telemetry;
  - the other switches it on the raw payloads `b"1"` and `b"0"`.

The Dafny project models the pure logic of these scripts as functions over immutable values. Each model is paired with lemmas that state what the code guarantees.

| file | module | models |
|---|---|---|
| `values.dfy` | `Values` | JSON values, decode results, bytes, Python's numeric view of a value |
| `decimal.dfy` | `Decimal` | decimal digit strings: `str(int)`, `int(str)`, `str.isdigit` |
| `text.dfy` | `Text` | MicroPython `str.strip`, `str.split`, `"".join` |
| `pump.dfy` | `Pump` | `pumping(state)` and the two motor pins |
| `pico.dfy` | `Pico` | the AWS-connected controller: subscribe callback, PEM body extraction, date text, telemetry object |
| `plant_monitor.dfy` | `PlantMonitor` | the dashboard-connected controller's raw-byte callback |
| `evaluator.dfy` | `Evaluator` | the threshold evaluator: `lambda_handler` and `publish_command` |
| `history.dfy` | `History` | the monitor: `data_store`, `customCallback`, `fetch_latest_sensor_data` |
| `simulator.dfy` | `Simulator` | id generation, the per-tick dual publish, `on_message` |
| `pipeline.dfy` | `Pipeline` | what each receiver makes of what another script publishes |

Python semantics are modelled as follows:

- An exception is an explicit result: a `Fault` value, together with the state reached before it was raised.
- Comparing `None` or a string with a number raises `TypeError`.
- `bool` counts as a number.
- Dictionary keys that are equal numbers (`True`, `1`, `1.0`) are the same key.
- A list or dict used as a key raises `TypeError`.
- Foreign calls are parameters of the model:
  - `json.loads` arrives as a `Decoded` value;
  - `datetime.strptime` is a function parameter `parse`;
  - `random.random()` and `time.ctime()` arrive as a `Draw`;
  - the controller's subscribe topic is a parameter.

Two behaviours of the code are worth knowing before reading the lemmas:

- The monitor appends field by field, so a payload missing a later field leaves the earlier appends in place (History.FillStopsAtTemperature, History.FillStopsAtHumidity, History.FillStopsAtWaterLevel, and History.PartialAppendPersists for a new plant).
- A missing or non-numeric reading makes the evaluator raise TypeError, so the invocation publishes nothing and returns no response (Evaluator.Handler).

## Model

| member | source | states |
|---|---|---|
| Pump.Pumping | controller/aws_pico.py:65-73 | motor2A always ends low; the pump runs exactly when the argument is the text "on"; every other argument leaves both pins low |
| PlantMonitor.Callback | controller/plant_monitor.py:44-54 | b"1" leaves the pump running, b"0" leaves both pins low, and any other payload leaves the pins unchanged; there is no failure path |
| PlantMonitor.CallbackIdempotent | controller/plant_monitor.py:44-54 | delivering the same payload twice has the same effect as delivering it once |
| PlantMonitor.LastCommandWins | controller/plant_monitor.py:44-54 | after any stream of payloads the pins are what the last b"1"/b"0" in the stream sets, or unchanged if there is none |
| PlantMonitor.NeverReverses | controller/plant_monitor.py:33-41 | starting with motor2A low, no stream of payloads ever drives motor2A high |
| Pico.SubscribeCallback | controller/aws_pico.py:77-87 | another topic changes nothing; an undecodable message raises ValueError; a non-object document raises AttributeError; otherwise the pins are left unchanged, switched on or switched off, and motor2A stays low |
| Pico.StateDecidesPump | controller/aws_pico.py:81-87 | an object with `state` decides the pump regardless of the previous pins: it runs exactly when `state` is "on", "ON" or "On" |
| Pico.OtherStatesStop | controller/aws_pico.py:82-87 | for example "oN", "off", "o n", 1 and true in `state` stop the pump (the general rule is Pico.StateDecidesPump) |
| Pico.NoStateNoChange | controller/aws_pico.py:81 | an object without `state` changes nothing and raises nothing |
| Pico.PemBody | controller/aws_pico.py:98-102 | the base64 text holds no '\n', and it is empty when the stripped file has at most two '\n'-separated lines |
| Pico.PemBodyOfFramed | controller/aws_pico.py:100-102 | for a document whose boundary lines and body are separated by '\n', with any surrounding whitespace, the result is exactly the body with every '\n' removed |
| Pico.DateStringParses | controller/aws_pico.py:134 | the date text splits on '-' into exactly three unpadded decimal fields that read back as year, month and day |
| Pico.Telemetry | controller/aws_pico.py:137-142 | the message has exactly the keys temperature, water_level, humidity and date, and no plant_id; each key holds the reading or date text it was given |
| Text.Strip | controller/aws_pico.py:100 | the result is the text between a whitespace-only prefix and a whitespace-only suffix, and neither starts nor ends with whitespace |
| Text.StripCore | controller/aws_pico.py:100 | strip removes exactly the surrounding whitespace from a text that starts and ends with a non-space character |
| Text.Split | controller/aws_pico.py:101 | split yields at least one piece, no piece contains the separator, and joining the pieces gives back the text |
| Text.SplitJoin | controller/aws_pico.py:101 | splitting a join of separator-free pieces gives back the pieces |
| Text.ConcatSplit | controller/aws_pico.py:101-102 | joining the split pieces with "" is the text with every separator removed |
| Evaluator.Commands | lamda/lamda_func.py:25-39 | command 1 is collected exactly when water_level is outside [33000, 36000]; "21" exactly when temp < 23; "22" exactly when temp > 24; "3" exactly when humidity is outside [60, 61]; nothing else is collected |
| Evaluator.CommandsOrdered | lamda/lamda_func.py:27-39 | at most three commands, in water/temperature/humidity order, none repeated, never both temperature commands |
| Evaluator.QuietIffInRange | lamda/lamda_func.py:12-14 | no command is collected exactly when all three readings lie in their inclusive ranges |
| Evaluator.CommandMessage | lamda/lamda_func.py:50-56 | every command is published on sensor/command with QoS 1 as an object whose only key is "command" |
| Evaluator.WireEncodings | lamda/lamda_func.py:29-39 | the water command travels as the JSON number 1 and the others as the JSON strings "21", "22" and "3" |
| Evaluator.Evaluate | lamda/lamda_func.py:19-39 | the checks raise TypeError exactly when one of water_level, temp or humidity is absent or not a number; otherwise, for the event's own values, command 1 is collected exactly when water_level is outside [33000, 36000], "21" exactly when temp < 23, "22" exactly when temp > 24 and "3" exactly when humidity is outside [60, 61]; nothing else is collected, and the list is in that order without repeats |
| Evaluator.PublishCommands | lamda/lamda_func.py:42-43 | one publish per collected command, in collection order |
| Evaluator.Handler | lamda/lamda_func.py:19-48 | the invocation raises exactly when the checks do, and then publishes nothing; otherwise it publishes the collected commands in order and answers status 200 |
| Evaluator.InRangeEventQuiet | lamda/lamda_func.py:19-39 | any event whose three readings are numbers (int, float or bool) within their ranges yields no commands, whatever other keys it has |
| Evaluator.MissingFieldRaises | lamda/lamda_func.py:21-38 | an event missing any of the three keys raises TypeError |
| History.Newest | Simulation/local_monitor.py:42-45 | a bounded buffer holds at most 50 elements, and everything appended while fewer than 50 have arrived |
| History.NewestIsSuffix | Simulation/local_monitor.py:42-45 | what a bounded buffer keeps is a suffix of everything appended, and either all of it or exactly 50 elements |
| History.Push | Simulation/local_monitor.py:50-53 | an append puts the element last and grows the buffer by one until it holds 50, after which the length stays 50 |
| History.PushKeepsRest | Simulation/local_monitor.py:50-53 | apart from the new last element an append keeps the previous elements in order, dropping exactly the oldest one when the buffer was full |
| History.PushAllNewest | Simulation/local_monitor.py:42-53 | after any number of appends a buffer holds exactly the newest 50 elements of everything appended, in arrival order |
| History.OverflowDropsOldest | Simulation/local_monitor.py:42-45 | the 51st append to an empty buffer discards the first element and keeps the other 50 in order |
| History.KeyOf | Simulation/local_monitor.py:37-39 | a list or object plant id is unhashable; a string id is keyed by its text |
| History.Callback | Simulation/local_monitor.py:33-53 | a payload naming no usable plant leaves the store unchanged and raises; otherwise only the named plant's entry may change, it is created when new, and no other key is added |
| History.CallbackSucceeds | Simulation/local_monitor.py:33-53 | the callback completes exactly when the payload has a usable plant id, a parseable time and all three readings, and the id is not a seeded key; each of the plant's buffers then gains the payload's value |
| History.CallbackKeepsBound | Simulation/local_monitor.py:41-53 | whatever the payload, and even when the callback raises part way, no buffer grows beyond 50 elements |
| History.CallbackKeepsAligned | Simulation/local_monitor.py:50-53 | a complete payload keeps each plant's four buffers the same length |
| History.PartialAppendPersists | Simulation/local_monitor.py:39-51 | a payload with a parseable time but no temperature, for a new plant, raises KeyError('temperature') after creating the plant and appending its timestamp, so the buffers are left misaligned |
| History.FreshPlantStored | Simulation/local_monitor.py:39-53 | a complete payload for a new plant creates it with one element per buffer, the payload's own time and readings |
| History.SeededIdFails | Simulation/local_monitor.py:25-50 | a plant id equal to one of the four seeded keys raises KeyError('timestamps') and leaves the store as it was |
| History.RejectedBeforeMutation | Simulation/local_monitor.py:36-37 | undecodable JSON, a non-object payload or a missing plant_id raise before the store is touched |
| History.Fill | Simulation/local_monitor.py:50-53 | a seeded key, a missing or non-text time, or a time that does not parse leaves the entry as it was; the entry stays a plant or stays seeded |
| History.FillSucceeds | Simulation/local_monitor.py:50-53 | the four appends all happen exactly when the entry is a plant, the time is a text that parses and the three readings are present; each buffer then gains its value |
| History.FillStopsAtTemperature | Simulation/local_monitor.py:50-51 | with a parseable time but no temperature, the timestamp is appended and then KeyError('temperature') is raised |
| History.FillStopsAtHumidity | Simulation/local_monitor.py:50-52 | with a parseable time and a temperature but no humidity, the timestamp and temperature are appended and then KeyError('humidity') is raised |
| History.FillStopsAtWaterLevel | Simulation/local_monitor.py:50-53 | with everything but the water level, the timestamp, temperature and humidity are appended and then KeyError('water_level') is raised |
| History.Fetch | Simulation/local_monitor.py:66-78 | fetching succeeds exactly for plants the callback has created, and returns that plant's timestamps and water levels; unknown ids and seeded keys raise KeyError |
| History.FetchAfterRun | Simulation/local_monitor.py:33-78 | after a run of complete payloads for one plant, fetching it returns the newest 50 times and water levels of everything it received, in order |
| History.FetchSeesLatest | Simulation/local_monitor.py:66-78 | after an accepted payload, the fetched buffers end with that payload's time and water level |
| History.RunKeepsNewest | Simulation/local_monitor.py:33-53 | a run of complete payloads for one plant leaves it holding the newest 50 times and water levels of everything received, in order |
| Decimal.Show | Simulation/Sending_data.py:11 | `str` of a number is a non-empty digit string, with a leading '0' only for 0 itself, and one digit exactly below 10 |
| Decimal.ValueOfShow | controller/aws_pico.py:134 | `int` reads back the number that `str` printed |
| Decimal.ShowOfValue | Simulation/Sending_data.py:55-56 | a digit text without leading zeros is what `str` prints for the number `int` reads from it |
| Decimal.ShowInjective | Simulation/Sending_data.py:11 | distinct numbers print as distinct texts |
| Decimal.LeadingZero | Simulation/Sending_data.py:55-56 | one leading '0' does not change the number `int` reads |
| Decimal.LeadingZeros | Simulation/Sending_data.py:55-56 | any number of leading zeros do not change the number `int` reads |
| Simulator.GenerateSensorIds | Simulation/Sending_data.py:9-12 | n ids (none for n < 0), the k-th being "plant_" followed by k+1 in decimal; the ids are pairwise distinct and their numeric parts read back as 1..n |
| Simulator.PlantIdInjective | Simulation/Sending_data.py:11 | different numbers give different ids |
| Simulator.Dispatch | Simulation/Sending_data.py:56-70 | code 1 and only code 1 turns the pump on, 21 reports low temperature, 22 reports high temperature and 3 changes humidity; any other number is reported as unknown |
| Simulator.OnMessage | Simulation/Sending_data.py:53-72 | a text is reported non-numeric exactly when it is not a non-empty digit string; `int` raises ValueError exactly for a digit text longer than 4300 characters; an action runs only for a digit text within that limit whose value is 1, 21, 22 or 3 |
| Simulator.LeadingZerosIgnored | Simulation/Sending_data.py:54-55 | leading zeros do not change the command a digit text selects while the padded text has at most 4300 digits; beyond that `int` raises ValueError |
| Simulator.CodesSelectEffects | Simulation/Sending_data.py:56-68 | "1", "21", "22" and "3" select the pump, low-temperature, high-temperature and humidity actions |
| Simulator.NonDigitTextsIgnored | Simulation/Sending_data.py:54-72 | the empty text, "-1" and `{"command": 1}` are all reported as non-numeric |
| Simulator.OnCommand | Simulation/Sending_data.py:53-72 | corrected handler: a payload that is not a JSON object with a command key is treated as before; the evaluator's water command turns the pump on |
| Simulator.Uniform | Simulation/Sending_data.py:103-105 | a draw lies within its configured range |
| Simulator.SensorData | Simulation/Sending_data.py:101-107 | the reading has exactly the keys plant_id, temperature, humidity, water_level and time, with each reading inside its range |
| Simulator.PublishTick | Simulation/Sending_data.py:100-111 | one tick publishes 2n messages on sensor/data, each plant's reading to AWS and then the identical reading to the dashboard broker, plants in id order |
| Pipeline.DumpsCommand | lamda/lamda_func.py:55 | the serialised command is a JSON object text, so it starts with '{' |
| Pipeline.CommandTexts | lamda/lamda_func.py:55 | the four commands serialise as `{"command": 1}`, `{"command": "21"}`, `{"command": "22"}` and `{"command": "3"}` |
| Pipeline.EvaluatorCommandsIgnored | Simulation/Sending_data.py:53-72 | as written, the simulator reports every command text the evaluator publishes as non-numeric and acts on none |
| Pipeline.CommandsDispatched | lamda/lamda_func.py:50-56 | with the corrected handler each of the four commands reaches the action it stands for |
| Pipeline.HandledInOrder | lamda/lamda_func.py:19-56 | with the corrected handler, the messages one evaluator invocation publishes are turned, in order, into the intended actions |
| Pipeline.TelemetryRejectedByMonitor | Simulation/local_monitor.py:36-37 | the controller's telemetry has no plant_id, so the monitor raises KeyError('plant_id') and keeps its store |
| Pipeline.SimulatedReadingStored | Simulation/local_monitor.py:33-53 | a simulated reading for a new plant, with a parseable time, creates that plant with one element per buffer, the reading's own values |
| Pipeline.SimulatedReadingNotEvaluable | lamda/lamda_func.py:22 | a simulated reading names its temperature "temperature", so the evaluator, which reads "temp", raises TypeError on it |

## Left out

- Network, TLS, Wi-Fi and broker connections are not modelled. This covers `connect`, `loop_start`, `check_msg`, certificate configuration and publish failures. A publish is recorded as a value and always succeeds.
- The Tk/matplotlib windows and plotting are left out. `fetch_latest_sensor_data` is modelled, though nothing in the live code calls it: its only caller is a commented-out `update_plot` (Simulation/local_monitor.py:80-84), and the live `update_plot` reads `data_store` directly (Simulation/local_monitor.py:110-113).
- Foreign calls are parameters of the model:
  - `json.loads`/`ujson.loads` is a `Decoded` value;
  - `datetime.strptime` is the `parse` function;
  - `random.random()` and `time.ctime()` are a `Draw`;
  - `time.localtime()` fields are the arguments of `DateString`.
- The `ubinascii.a2b_base64` decode of the PEM body is not modelled; only the text handed to it is.
- `time.sleep` pauses and the `while True` loops are not modelled. One tick of the publish loop is modelled.
- The ADC reads and their floating-point conversions (water level percentage, on-chip temperature) are not modelled. The DHT11 driver is not modelled either; readings enter as arguments.
- Concurrency between the MQTT callback thread and the plotting code is not modelled. Each callback is one atomic step.
- Floating-point NaN is not modelled. Numbers are exact reals.
- `str.isdigit` is modelled for ASCII digits only. Python's `isdigit` also accepts other Unicode digits. Some of them, such as '²' and '①', make `int` raise ValueError, an exception path the model leaves out. `int` converts the others, such as fullwidth '３' or Arabic-Indic '٣', and `on_message` then dispatches them ('３' runs `change_humidity`). Simulator.OnMessage reports all of these payloads as non-numeric.
- A UTF-8 decode error from `msg.payload.decode()` is not modelled. The payload enters as text.
- Both device scripts stop at module level before any modelled function is defined. controller/aws_pico.py uses `Pin` (line 19) and `ADC` (line 26) without importing them, so it raises NameError. controller/plant_monitor.py lacks a comma between two dictionary entries (lines 66-67), so it does not compile. The device models take the function bodies as if these module-level errors were fixed.
- Pico.PemBody: the split is on '\n' only. Section 2 of RFC 7468 also allows CRLF and lone CR line ends. With CRLF framing each '\r' stays at the end of the body line that carries it. With CR-only framing the stripped text is one line, so the result is empty.
- Simulator.OnMessage: the 4300-digit limit is CPython's default `sys.int_max_str_digits` (3.11 and later, and the security releases 3.7.14, 3.8.14, 3.9.14 and 3.10.7). Older interpreters convert any length, and a limit changed by the program's environment is not modelled.
- Simulator.LeadingZerosIgnored: holds only up to the same 4300-digit limit, because leading zeros count toward it.
- The controller's subscribe topic is built from `CLIENT_ID`, which controller/aws_pico.py never defines. The topic is a parameter.
- `publish_sensor_data` in controller/plant_monitor.py, which holds the syntax error, is left out.
- Pico.Telemetry: the temperature and humidity are DHT11 integers and the water level is a real. The JSON number formatting of `ujson.dumps` is not modelled.
- Pipeline.DumpsCommand: JSON string escaping is not modelled. A string code is quoted as it is, which matches `json.dumps` for the four codes the evaluator emits but not for a code holding `"`, `\` or a non-ASCII character.
- What the AWS IoT rule forwards to the threshold evaluator is not part of this model. The pipeline lemma about simulated readings covers a reading forwarded unchanged.

## Findings

| source | as written | input that shows it | evidently intended | confidence | as-written member | corrected member |
|---|---|---|---|---|---|---|
| Simulation/Sending_data.py:53-72 | `on_message` acts only when the whole payload text is a digit string, but the evaluator publishes every command as the JSON text `{"command": code}` on the topic the simulator subscribes to | `{"command": 1}`, which the evaluator publishes for a water level of 40000, is reported as "non-numeric" and the pump is not turned on | the simulator reads the `command` field, whether it is an integer or a digit string, and dispatches 1/21/22/3 to their actions | not executed | Pipeline.EvaluatorCommandsIgnored | Simulator.OnCommand |
