/** The pump's two H-bridge inputs and `pumping(state)`, which both device
    scripts define identically. */
module Pump {

  datatype Level = Low | High

  /** Output levels of the motor1A (GPIO 14) and motor2A (GPIO 15) pins. */
  datatype Pins = Pins(motor1A: Level, motor2A: Level)

  /** The pump runs when motor1A is driven high against motor2A low. */
  predicate Running(p: Pins) {
    p.motor1A == High && p.motor2A == Low
  }

  /** `pumping(state)`: only the exact text "on" starts the pump; every other
      argument stops it. motor2A is never driven high, so the motor never
      runs in reverse. */
  function Pumping(state: string): (p: Pins)
    ensures p.motor2A == Low
    ensures Running(p) <==> state == "on"
    ensures !Running(p) ==> p == Pins(Low, Low)
  {
    if state == "on" then Pins(High, Low) else Pins(Low, Low)
  }
}
