/** How the scripts meet over the brokers: what each receiver makes of the
    messages another script publishes. */
module Pipeline {
  import opened Values
  import opened Decimal
  import Evaluator
  import Simulator
  import History
  import Pico

  /** The text `json.dumps({"command": c})` sends for a command. String codes
      are quoted without JSON escaping, which is exact for the four codes the
      evaluator emits (see CommandTexts) but not for a code holding `"`, `\`
      or a non-ASCII character. */
  function DumpsCommand(c: Evaluator.Command): (text: string)
    ensures |text| > 0 && text[0] == '{'
  {
    "{\"command\": "
    + (match c
       case IntCode(n) => if n < 0 then "-" + Show(-n) else Show(n)
       case StrCode(s) => "\"" + s + "\"")
    + "}"
  }

  /** The texts of the four commands, as the simulator receives them. */
  lemma CommandTexts()
    ensures DumpsCommand(Evaluator.WaterCmd) == "{\"command\": 1}"
    ensures DumpsCommand(Evaluator.LowTempCmd) == "{\"command\": \"21\"}"
    ensures DumpsCommand(Evaluator.HighTempCmd) == "{\"command\": \"22\"}"
    ensures DumpsCommand(Evaluator.HumidityCmd) == "{\"command\": \"3\"}"
  {
    assert Show(1) == "1";
  }

  /** The effect the simulator is meant to have for each evaluator command:
      the code it checks for, with the same meaning. */
  function Intended(c: Evaluator.Command): Simulator.Effect
  {
    if c == Evaluator.WaterCmd then Simulator.TurnPumpOn
    else if c == Evaluator.LowTempCmd then Simulator.ReportLowTemp
    else if c == Evaluator.HighTempCmd then Simulator.ReportHighTemp
    else if c == Evaluator.HumidityCmd then Simulator.ChangeHumidity
    else Simulator.ReportUnknown(0)
  }

  /** As written, the simulator subscribes to the command topic but only acts
      on an all-digit text, and every command message is a JSON object text:
      no command the evaluator publishes has any effect. */
  lemma EvaluatorCommandsIgnored(c: Evaluator.Command)
    ensures Simulator.OnMessage(DumpsCommand(c)) == Simulator.ReportNonNumeric(DumpsCommand(c))
    ensures !Simulator.Acts(Simulator.OnMessage(DumpsCommand(c)))
  {
    assert !IsDigit(DumpsCommand(c)[0]);
  }

  /** With the corrected handler, every command the evaluator can publish
      reaches the action it stands for. */
  lemma CommandsDispatched(c: Evaluator.Command)
    requires c in {Evaluator.WaterCmd, Evaluator.LowTempCmd, Evaluator.HighTempCmd, Evaluator.HumidityCmd}
    ensures var e := Simulator.OnCommand(DumpsCommand(c), Doc(Evaluator.CommandMessage(c).payload));
      e == Intended(c) && Simulator.Acts(e)
  {
    Simulator.CodesSelectEffects();
  }

  /** End to end: for any event the evaluator accepts, the corrected handler
      turns the published messages, in order, into the intended actions. */
  lemma HandledInOrder(event: map<string, Json>, published: seq<Evaluator.Publish>)
    requires Evaluator.Evaluate(event).Ok?
    requires var cs := Evaluator.Evaluate(event).value;
      |published| == |cs| && forall i :: 0 <= i < |cs| ==> published[i] == Evaluator.CommandMessage(cs[i])
    ensures var cs := Evaluator.Evaluate(event).value;
      forall i :: 0 <= i < |published| ==>
        Simulator.OnCommand(DumpsCommand(cs[i]), Doc(published[i].payload)) == Intended(cs[i]) &&
        Simulator.Acts(Intended(cs[i]))
  {
    var cs := Evaluator.Evaluate(event).value;
    forall i | 0 <= i < |published|
      ensures Simulator.OnCommand(DumpsCommand(cs[i]), Doc(published[i].payload)) == Intended(cs[i])
      ensures Simulator.Acts(Intended(cs[i]))
    {
      assert cs[i] in cs;
      CommandsDispatched(cs[i]);
    }
  }

  /** The controller's telemetry has no `plant_id`, so the monitor rejects it
      without touching its store. */
  lemma TelemetryRejectedByMonitor(store: History.Store, temperature: int, waterLevel: real, humidity: int,
                                   date: string, parse: string -> Option<History.Stamp>)
    ensures History.Callback(store, Doc(Pico.Telemetry(temperature, waterLevel, humidity, date)), parse)
      == History.Outcome(store, Some(History.KeyError("plant_id")))
  {
  }

  /** A simulated reading for a fresh plant, whose time text parses, is taken
      in full: the monitor creates the plant with one element per buffer, the
      reading's own values. */
  lemma SimulatedReadingStored(plantId: string, d: Simulator.Draw, parse: string -> Option<History.Stamp>)
    requires Simulator.ValidDraw(d) && parse(d.time).Some?
    requires History.StrKey(plantId) !in History.InitialStore
    ensures var m := Simulator.SensorData(plantId, d);
      var o := History.Callback(History.InitialStore, Doc(m), parse);
      o.error.None? &&
      o.store[History.StrKey(plantId)] == History.Plant(
        [parse(d.time).value], [m.fields["temperature"]], [m.fields["humidity"]], [m.fields["water_level"]])
  {
    var m := Simulator.SensorData(plantId, d);
    ObjectComplete(m, plantId, d.time, parse);
    History.FreshPlantStored(History.InitialStore, Doc(m), parse);
  }

  lemma ObjectComplete(m: Json, plantId: string, time: string, parse: string -> Option<History.Stamp>)
    requires m.JObject? && m.fields.Keys == {"plant_id", "temperature", "humidity", "water_level", "time"}
    requires m.fields["plant_id"] == JStr(plantId) && m.fields["time"] == JStr(time)
    requires parse(time).Some?
    ensures History.Complete(Doc(m), parse) && History.Target(Doc(m)) == Some(History.StrKey(plantId))
  {
  }

  /** The simulator names its temperature `temperature` while the evaluator
      reads `temp`, so a simulated reading passed on unchanged makes the
      evaluator raise TypeError. */
  lemma SimulatedReadingNotEvaluable(plantId: string, d: Simulator.Draw)
    requires Simulator.ValidDraw(d)
    ensures Evaluator.Evaluate(Simulator.SensorData(plantId, d).fields) == Evaluator.Raised(Evaluator.TypeError)
  {
    Evaluator.MissingFieldRaises(Simulator.SensorData(plantId, d).fields, "temp");
  }
}
