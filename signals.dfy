/** Pin levels, the calls made on the two Servo outputs, and the fixed
    mapping from a speed in percent to a pulse width in microseconds. */
module Signals {

  /** The value a digitalRead returns. The select button and the dead-man
      switch have pull-ups, so Low means "pressed". */
  datatype Level = Low | High

  /** A call on the two servo outputs. The source always attaches, detaches
      and writes `controller` and `controller2` back to back, so one event
      stands for the pair of calls; Write(a, b) writes a to the first
      output and b to the second. */
  datatype ServoEvent = Attach | Detach | Write(a: int, b: int)

  /** Pulse width of the stopped motor. */
  const Neutral: int := 1500

  /** Largest speed magnitude, in percent, that the clamp admits. */
  const MaxSpeed: int := 100

  function Abs(v: int): nat {
    if v < 0 then -v else v
  }

  /** Pulse width written to the first output for speed v (percent). */
  function Pulse(v: int): (r: int)
    ensures -MaxSpeed <= v <= MaxSpeed ==> 1000 <= r <= 2000
    ensures (r > Neutral <==> v > 0) && (r < Neutral <==> v < 0)
  {
    v * 5 + 1500
  }

  /** Pulse width written to the second, mirrored output for speed v. */
  function Mirror(v: int): (r: int)
    ensures r + Pulse(v) == 2 * Neutral
    ensures r == Pulse(-v)
  {
    -v * 5 + 1500
  }

  /** A write whose two pulses are mirror images about neutral and both
      within the standard 1000..2000 microsecond servo range. */
  predicate SafeWrite(e: ServoEvent) {
    e.Write? ==> e.a + e.b == 2 * Neutral && 1000 <= e.a <= 2000 && 1000 <= e.b <= 2000
  }

  ghost predicate SafeWrites(es: seq<ServoEvent>) {
    forall k | 0 <= k < |es| :: SafeWrite(es[k])
  }
}
