/** The pump-control callback of the Pico script that talks to the public
    mqtt-dashboard.com broker: raw payload bytes switch the pump. */
module PlantMonitor {
  import opened Values
  import opened Pump

  /** The payloads b"1" and b"0". */
  const OnBytes: Bytes := [0x31]
  const OffBytes: Bytes := [0x30]

  predicate IsCommand(msg: Bytes) {
    msg == OnBytes || msg == OffBytes
  }

  /** `mqtt_callback(topic, msg)`: b"1" starts the pump, b"0" stops it, and
      any other payload leaves both pins as they were. Nothing in the guarded
      block raises, so the callback has no failure path. */
  function Callback(msg: Bytes, pins: Pins): (p: Pins)
    ensures msg == [0x31] ==> Running(p)
    ensures msg == [0x30] ==> p == Pins(Low, Low)
    ensures !IsCommand(msg) ==> p == pins
  {
    if msg == OnBytes then Pumping("on")
    else if msg == OffBytes then Pumping("off")
    else pins
  }

  /** Handling the same payload twice is the same as handling it once. */
  lemma CallbackIdempotent(msg: Bytes, pins: Pins)
    ensures Callback(msg, Callback(msg, pins)) == Callback(msg, pins)
  {
  }

  /** A stream of payloads delivered in order by `check_msg`. */
  function Replay(msgs: seq<Bytes>, pins: Pins): Pins
  {
    if |msgs| == 0 then pins else Replay(msgs[1..], Callback(msgs[0], pins))
  }

  /** The last b"1" or b"0" in the stream, if there is one. */
  function LastCommand(msgs: seq<Bytes>): (r: Option<Bytes>)
    ensures r.Some? ==> IsCommand(r.value) && r.value in msgs
    ensures r.None? ==> forall i :: 0 <= i < |msgs| ==> !IsCommand(msgs[i])
  {
    if |msgs| == 0 then None
    else if IsCommand(msgs[|msgs| - 1]) then Some(msgs[|msgs| - 1])
    else LastCommand(msgs[..|msgs| - 1])
  }

  lemma {:induction false} ReplaySnoc(msgs: seq<Bytes>, m: Bytes, pins: Pins)
    ensures Replay(msgs + [m], pins) == Callback(m, Replay(msgs, pins))
  {
    if |msgs| > 0 {
      assert (msgs + [m])[1..] == msgs[1..] + [m];
      ReplaySnoc(msgs[1..], m, Callback(msgs[0], pins));
    }
  }

  /** After any stream of payloads the pins reflect the last command in it,
      or are untouched when it holds none. */
  lemma {:induction false} LastCommandWins(msgs: seq<Bytes>, pins: Pins)
    ensures Replay(msgs, pins) == match LastCommand(msgs)
      case None => pins
      case Some(m) => Callback(m, pins)
  {
    if |msgs| > 0 {
      var init := msgs[..|msgs| - 1];
      assert msgs == init + [msgs[|msgs| - 1]];
      ReplaySnoc(init, msgs[|msgs| - 1], pins);
      LastCommandWins(init, pins);
    }
  }

  /** Starting from a safe state, motor2A stays low whatever arrives. */
  lemma NeverReverses(msgs: seq<Bytes>, pins: Pins)
    requires pins.motor2A == Low
    ensures Replay(msgs, pins).motor2A == Low
  {
    LastCommandWins(msgs, pins);
  }
}
