/** GpioOutput: the libgpiod-backed actuator port. The library calls are
    replaced by their success/failure results; what remains is the polarity
    mapping from logical high/low to the raw line value. */
module Gpio {
  import opened Types
  import opened Ports

  /** Whether a raw line value means "on" under the given polarity. */
  predicate LogicallyOn(raw: int, activeHigh: bool)
  {
    (raw == 1) == activeHigh
  }

  /** The raw value `setHigh()` writes. */
  function SetHighValue(activeHigh: bool): (v: int)
    ensures v == 0 || v == 1
    ensures LogicallyOn(v, activeHigh)
    ensures v == 1 <==> activeHigh
  {
    if activeHigh then 1 else 0
  }

  /** The raw value `setLow()` writes. */
  function SetLowValue(activeHigh: bool): (v: int)
    ensures v == 0 || v == 1
    ensures !LogicallyOn(v, activeHigh)
    ensures v == 0 <==> activeHigh
  {
    if activeHigh then 0 else 1
  }

  /** Under either polarity the two calls write complementary raw values. */
  lemma Complementary(activeHigh: bool)
    ensures SetHighValue(activeHigh) + SetLowValue(activeHigh) == 1
    ensures SetHighValue(activeHigh) != SetLowValue(activeHigh)
  {
  }

  /** The raw value a call writes. */
  function CallValue(activeHigh: bool, call: GpioCall): (v: int)
    ensures LogicallyOn(v, activeHigh) <==> call == SetHigh
  {
    match call
    case SetHigh => SetHighValue(activeHigh)
    case SetLow => SetLowValue(activeHigh)
  }

  /** The value requested for the line when it is acquired as an output. */
  function DefaultValue(activeHigh: bool): (v: int)
    ensures v == SetLowValue(activeHigh)
    ensures !LogicallyOn(v, activeHigh)
  {
    if activeHigh then 0 else 1
  }

  datatype GpioError = OpenChipFailed | GetLineFailed | RequestOutputFailed | LineNotReady | SetValueFailed

  /** An output line: its polarity, whether it is held, and its raw value. */
  datatype Line = Line(activeHigh: bool, acquired: bool, value: int)

  /** What the three libgpiod calls of the constructor report. */
  datatype ChipReplies = ChipReplies(chipOpened: bool, lineFound: bool, requestRc: int)

  /** The constructor: open the chip, look up the line, request it as an
      output at the default (logically off) value. */
  function Acquire(activeHigh: bool, replies: ChipReplies): (r: Result<Line, GpioError>)
    ensures r.Ok? <==> replies.chipOpened && replies.lineFound && replies.requestRc == 0
    ensures !replies.chipOpened ==> r == Err(OpenChipFailed)
    ensures replies.chipOpened && !replies.lineFound ==> r == Err(GetLineFailed)
    ensures replies.chipOpened && replies.lineFound && replies.requestRc != 0 ==> r == Err(RequestOutputFailed)
    ensures r.Ok? ==> r.value.acquired && r.value.activeHigh == activeHigh
    ensures r.Ok? ==> !LogicallyOn(r.value.value, activeHigh)
  {
    if !replies.chipOpened then Err(OpenChipFailed)
    else if !replies.lineFound then Err(GetLineFailed)
    else if replies.requestRc != 0 then Err(RequestOutputFailed)
    else Ok(Line(activeHigh, true, DefaultValue(activeHigh)))
  }

  /** `setValue`: refuses a line that is not held, and fails when the
      library's set call returns non-zero. */
  function SetValue(line: Line, v: int, rc: int): (r: Result<Line, GpioError>)
    ensures r.Ok? <==> line.acquired && rc == 0
    ensures !line.acquired ==> r == Err(LineNotReady)
    ensures r.Ok? ==> r.value == line.(value := v)
  {
    if !line.acquired then Err(LineNotReady)
    else if rc != 0 then Err(SetValueFailed)
    else Ok(line.(value := v))
  }

  /** `setHigh()` / `setLow()` on the real line. */
  function Apply(line: Line, call: GpioCall, rc: int): (r: Result<Line, GpioError>)
    ensures r.Ok? <==> line.acquired && rc == 0
    ensures r.Ok? ==> r.value.activeHigh == line.activeHigh && r.value.acquired
    ensures r.Ok? ==> (LogicallyOn(r.value.value, line.activeHigh) <==> call == SetHigh)
  {
    SetValue(line, CallValue(line.activeHigh, call), rc)
  }
}
