/** The two abstract ports the controller is written against.
    ILightSensor is a single `readLux()`; the controller only ever receives
    its value, so the model passes samples as `real` arguments.
    IGpioOutput is `setHigh()` / `setLow()`; the model records each call. */
module Ports {

  /** One call made on an IGpioOutput. */
  datatype GpioCall = SetHigh | SetLow

  /** The call that drives the output to the level matching `open`. */
  function LevelCall(open: bool): (c: GpioCall)
    ensures c.SetHigh? <==> open
  {
    if open then SetHigh else SetLow
  }

  /** Number of occurrences of `call` in a trace. */
  function Count(trace: seq<GpioCall>, call: GpioCall): (n: nat)
    ensures n <= |trace|
    ensures n == 0 <==> call !in trace
  {
    if |trace| == 0 then 0
    else (if trace[0] == call then 1 else 0) + Count(trace[1..], call)
  }
}
