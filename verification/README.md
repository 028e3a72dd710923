# PiFridge door-light controller, modelled in Dafny

This project models the light-sensing door controller of the PiFridge
Raspberry Pi demo. A BH1750 light sensor is read on every tick of a periodic
timer. A two-threshold hysteresis controller decides whether the fridge door
is open or closed and drives a GPIO line to match. Every change of door
state is logged once.

The model is a set of pure functions over immutable datatypes:

- `DoorLight` is the `DoorLightController` state machine. `Update` is one
  `update()` call fed the single sample it reads, and it returns the actuator
  calls made. `Run` is a sequence of updates.
- `Ports` holds the call vocabulary of the `IGpioOutput` port.
- `FakePorts` holds the unit test's `FakeLightSensor` (a replayed sample
  vector) and `FakeGpioOutput` (a level plus two call counters), the test
  fixture, and the four test scenarios stated as lemmas.
- `Cli` covers `hasPrefix`, `parseHexByte`, the option loop with its
  defaults, and the checks made before any hardware is touched. It returns a
  decision whose exit code is 0 for help and 2 for an error.
- `Timer` turns the interval in milliseconds into the `itimerspec` the
  timerfd is armed with. It uses C's truncating division.
- `Bh1750` covers the sensor driver: the start-up command sequence, the
  short-transfer checks and the big-endian raw word and its lux conversion.
- `Gpio` covers the actuator driver: the active-high/active-low polarity
  mapping, the "off" value requested at start-up, and the not-ready guard.
- `EventLoop` holds the dispatch rules of the main loop. A timer event runs
  one update on the loop's own thread and logs only when the door state
  changes. A signal event exits with code 0 and ignores the rest of its
  batch. A hardware or wait failure exits with code 1, while an interrupted
  wait is retried.

Lux values are `real`s that are only compared. Each hardware transport is
replaced by the values it returns: a read's return code and bytes, a write's
return code, or libgpiod's success flags.

The loop's main invariant is `EventLoop.Consistent`. While the program runs,
the GPIO line is logically on exactly when the door is open, and the last
state seen is the current door state.

`main.cpp:87` refuses only `close > open`, so equal thresholds are accepted.
With equal thresholds, a constant sample equal to both flips the door on
every tick (`DoorLight.EqualThresholdsChatter`). In every other case,
`DoorLight.NoChatter` proves at most one transition for a sustained sample.

Three facts about the code shape the model:

- The update runs synchronously on the epoll thread (`main.cpp:195-199`).
- The controller declares no `lastLux()`, although `main.cpp:205` calls it,
  so log lines carry only the door state.
- Thresholds are checked in `main` (`main.cpp:87-92`), not in the
  controller's constructor.

## Model

| member | source | states |
|---|---|---|
| DoorLight.Create | rpi_sensors/include/DoorLightController.hpp:8-16 | a new controller keeps both thresholds as given and starts with the door closed |
| DoorLight.Update | rpi_sensors/include/DoorLightController.hpp:18-29 | one update makes at most one actuator call; it calls setHigh exactly when closed and lux ≥ open threshold, setLow exactly when open and lux ≤ close threshold; the door flips exactly when a call is made and the call drives the new state's level; samples strictly between the thresholds change nothing; thresholds never change |
| DoorLight.Run | rpi_sensors/include/DoorLightController.hpp:18-29 | a sequence of updates keeps the thresholds and makes no more actuator calls than it has samples |
| DoorLight.RunSnoc | rpi_sensors/include/DoorLightController.hpp:18-29 | one more sample after a run is one more update applied to the run's final state, and its calls are appended to the trace |
| DoorLight.RunAlternates | rpi_sensors/include/DoorLightController.hpp:21-28 | over any sample sequence, setHigh and setLow calls alternate, starting with the call that leaves the initial state; the final door state is the initial one flipped once per call |
| DoorLight.AlternatingBalance | rpi_sensors/include/DoorLightController.hpp:21-28 | in an alternating trace, setHigh count minus setLow count equals the net change of level |
| DoorLight.RunFromClosed | rpi_sensors/include/DoorLightController.hpp:16-28 | from a closed controller the first call is setHigh, and setHigh calls exceed setLow calls by 1 when the door ends open and by 0 when it ends closed |
| DoorLight.DeadZoneRunIsIdle | rpi_sensors/include/DoorLightController.hpp:21-28 | samples all strictly between close and open thresholds never change state and never call the actuator |
| DoorLight.StableUnderRepeat | rpi_sensors/include/DoorLightController.hpp:21-28 | a controller that ignores a sample keeps ignoring it however often it is repeated |
| DoorLight.NoChatter | rpi_sensors/include/DoorLightController.hpp:21-28 | with close ≤ open, repeating one sample causes at most one transition, unless the sample equals both thresholds |
| DoorLight.EqualThresholdsChatter | rpi_sensors/src/main.cpp:87-89 | the case the threshold check lets through: with equal thresholds, a sample equal to them makes a transition on every update |
| DoorLight.IsDoorOpen | rpi_sensors/include/DoorLightController.hpp:31-33 | reports exactly the controller's open state |
| FakePorts.NewFakeLightSensor | rpi_sensors/tests/DoorLightControllerTest.cpp:9-10 | a fresh fake sensor holds the given samples with its cursor at the start, so its first read is the first replayed value |
| FakePorts.ReadLux | rpi_sensors/tests/DoorLightControllerTest.cpp:12-16 | the fake sensor returns 0.0 when its sequence is empty; its cursor advances by one per read until the end and then stays |
| FakePorts.Replay | rpi_sensors/tests/DoorLightControllerTest.cpp:12-16 | the k-th value replayed is the k-th sample, or the last sample once the sequence is exhausted, or 0.0 for an empty sequence |
| FakePorts.ReadReplays | rpi_sensors/tests/DoorLightControllerTest.cpp:12-16 | a read at cursor k returns the k-th replayed value and moves the cursor to k+1, clamped to the sequence length |
| FakePorts.NewFakeGpioOutput | rpi_sensors/tests/DoorLightControllerTest.cpp:25 | a fresh fake output is low with zero setHigh and zero setLow calls |
| FakePorts.Apply | rpi_sensors/tests/DoorLightControllerTest.cpp:27-35 | setHigh and setLow each set the level and increment only their own counter |
| FakePorts.ApplyAllCounts | rpi_sensors/tests/DoorLightControllerTest.cpp:25-35 | after a trace, each counter has grown by the number of its calls in the trace, and the level is that of the last call |
| FakePorts.BenchUpdate | rpi_sensors/include/DoorLightController.hpp:18-29 | one update on the fixture moves the sensor cursor one place (clamped) and leaves the fake output untouched unless the door flips; on a flip the output takes the new level and only the matching counter grows by one |
| FakePorts.BenchIsRun | rpi_sensors/include/DoorLightController.hpp:18-19 | n updates of a fresh fixture read the sensor exactly once each: the controller state is the run over the first n replayed samples, the cursor has moved n places (clamped), and the fake output received exactly the run's calls |
| FakePorts.BenchLevelMatchesDoor | rpi_sensors/include/DoorLightController.hpp:16-28 | after any number of updates of a fresh fixture, the fake output's level equals the door state, and highCalls − lowCalls is 1 when open and 0 when closed |
| FakePorts.ScenarioStaysClosed | rpi_sensors/tests/DoorLightControllerTest.cpp:64-77 | thresholds (30, 10) and samples [0, 5, 9]: after 3 updates the door is closed, the output low, with 0 high and 0 low calls |
| FakePorts.ScenarioOpens | rpi_sensors/tests/DoorLightControllerTest.cpp:79-91 | samples [0, 31]: after 2 updates the door is open, the output high, with 1 high and 0 low calls |
| FakePorts.ScenarioStaysOpen | rpi_sensors/tests/DoorLightControllerTest.cpp:93-106 | samples [35, 20, 11]: after 3 updates the door is open, the output high, with 1 high and 0 low calls |
| FakePorts.ScenarioOpensThenCloses | rpi_sensors/tests/DoorLightControllerTest.cpp:108-121 | samples [35, 20, 9]: after 3 updates the door is closed, the output low, with 1 high and 1 low call |
| Cli.HasPrefix | rpi_sensors/src/main.cpp:32-34 | true exactly when p is a prefix of s |
| Cli.ParseDigits | rpi_sensors/src/main.cpp:40-41 | a digit text has a value exactly when it is non-empty and every character is a digit of the base |
| Cli.ParseNatText | rpi_sensors/src/main.cpp:40 | every number written as its shortest digit text in base 10 or lower-case base 16 reads back as itself |
| Cli.LeadingZero | rpi_sensors/src/main.cpp:40 | a leading zero does not change the value of a digit text, in either base |
| Cli.LeadingZeros | rpi_sensors/src/main.cpp:40 | any number of leading zeros leave the value of a digit text unchanged |
| Cli.ParseUpperHexText | rpi_sensors/src/main.cpp:40 | every number written in upper-case hexadecimal reads back as itself |
| Cli.ParseHexByte | rpi_sensors/src/main.cpp:36-45 | base 16 is used on the text after a "0x" or "0X" prefix, base 10 otherwise; the parse succeeds exactly when that text is all digits and its value is at most 0xFF, and then returns that value |
| Cli.HexPrefixed | rpi_sensors/src/main.cpp:39 | any text behind "0x" or "0X" is read in base 16 |
| Cli.ParseHexByteRoundTrip | rpi_sensors/src/main.cpp:36-45 | every byte written in decimal, or in hexadecimal behind either prefix, parses back to itself |
| Cli.ParseHexBytePaddedDecimal | rpi_sensors/src/main.cpp:36-45 | every byte written in decimal with any number of leading zeros (such as "010" or "035") parses back to itself |
| Cli.ParseHexBytePaddedHex | rpi_sensors/src/main.cpp:36-45 | every byte written in hexadecimal with any number of leading zeros, in lower or upper case, behind either prefix (such as "0x0023" or "0XFF") parses back to itself |
| Cli.ParseHexByteRejectsWide | rpi_sensors/src/main.cpp:41-43 | a value above 0xFF is refused in either notation |
| Cli.ParseHexByteRejectsTrailing | rpi_sensors/src/main.cpp:41-43 | a trailing character that is not a digit of the base the text is read in (so "12a" in decimal, "0x1g" in hex) makes the whole text fail |
| Cli.SetOption | rpi_sensors/src/main.cpp:70-76 | each value option succeeds exactly when its conversion does (stod for --open and --close, stoi for --interval-ms, parseHexByte for --i2c-addr, stoul for --gpio-line; --i2c-dev and --gpio-chip always) and then changes only its own field, --gpio-line keeping the low 32 bits; a failed conversion is an error naming the value |
| Cli.SetOptionOverwrites | rpi_sensors/src/main.cpp:70-76 | storing a value option twice leaves only the second value |
| Cli.ParseOptions | rpi_sensors/src/main.cpp:60-85 | the option loop reports a missing value only for a value option and an unknown option only for an unrecognised argument |
| Cli.ParseOptionsAppend | rpi_sensors/src/main.cpp:60-85 | parsing is a left-to-right fold: a prefix that parses to a configuration hands that configuration to the rest, and a prefix that asks for help ignores the rest |
| Cli.ExitCode | rpi_sensors/src/main.cpp:78-81 | help exits with 0, every argument error with 2, and a launch does not exit |
| Cli.Startup | rpi_sensors/src/main.cpp:59-98 | a launch happens exactly when the arguments parse to a configuration with close ≤ open and interval > 0, and then uses that configuration; help is shown exactly when the loop reaches --help or -h |
| Cli.NoArguments | rpi_sensors/src/main.cpp:48-57 | with no arguments the program launches with open=30, close=10, interval=200, /dev/i2c-1, 0x23, gpiochip0, line 17, active high |
| Cli.HelpShortCircuits | rpi_sensors/src/main.cpp:78-81 | once --help or -h is reached, the result is exit 0 whatever follows and whatever the configuration so far |
| Cli.MissingValueRejected | rpi_sensors/src/main.cpp:63-68 | a value option given as the last argument is refused with exit code 2 |
| Cli.UnknownOptionRejected | rpi_sensors/src/main.cpp:82-84 | an unrecognised argument is refused with exit code 2, whatever follows |
| Cli.InvalidConfigRejected | rpi_sensors/src/main.cpp:87-97 | close > open, or else interval ≤ 0, is refused with exit code 2 |
| Cli.SetOptionsCommute | rpi_sensors/src/main.cpp:70-76 | two different value options can be stored in either order, and whether a store fails does not depend on the configuration |
| Cli.UntouchedCommutes | rpi_sensors/src/main.cpp:60-77 | arguments that never name an option leave its field alone: storing it before them and then again after them is the same as storing it only after them |
| Cli.RepeatedOptionLastWins | rpi_sensors/src/main.cpp:60-77 | a repeated value option takes its last value, whatever complete options other than it stand between the two occurrences |
| Cli.ActiveLowFlag | rpi_sensors/src/main.cpp:77 | --active-low clears activeHigh and changes nothing else |
| Timer.TruncDiv | rpi_sensors/src/main.cpp:122 | the quotient is truncated toward zero: for a non-negative dividend it is the floor, for a negative one the ceiling |
| Timer.TruncRem | rpi_sensors/src/main.cpp:123 | the remainder has the sign of the dividend and lies strictly within one divisor of zero |
| Timer.TruncDivRem | rpi_sensors/src/main.cpp:122-123 | C's quotient and remainder recombine to the dividend, and for a non-negative dividend the remainder lies in [0, divisor) |
| Timer.IntervalTimer | rpi_sensors/src/main.cpp:121-124 | the period equals the first expiry; sec·10⁹ + nsec = ms·10⁶; for ms > 0, nsec < 10⁹ and the timer is armed |
| Timer.IntervalTimerRoundTrip | rpi_sensors/src/main.cpp:122-123 | for ms > 0, sec·1000 + nsec/10⁶ gives back ms exactly |
| Bh1750.RawWord | rpi_sensors/src/Bh1750Sensor.cpp:59 | the raw reading is below 65536, with the first byte as its high byte and the second as its low byte |
| Bh1750.RawWordOnto | rpi_sensors/src/Bh1750Sensor.cpp:59 | every 16-bit value is the reading of its own high and low bytes |
| Bh1750.Lux | rpi_sensors/src/Bh1750Sensor.cpp:60 | lux is non-negative and lux·1.2 equals the raw count |
| Bh1750.LuxStrictlyMonotone | rpi_sensors/src/Bh1750Sensor.cpp:60 | a higher raw count always gives strictly more lux |
| Bh1750.ReadLux | rpi_sensors/src/Bh1750Sensor.cpp:52-61 | the read succeeds exactly when the transfer returns 2 bytes, and then gives a non-negative lux with lux·1.2 = buf[0]·256 + buf[1] |
| Bh1750.WriteCommand | rpi_sensors/src/Bh1750Sensor.cpp:45-50 | a command write succeeds exactly when the transfer writes 1 byte |
| Bh1750.Create | rpi_sensors/src/Bh1750Sensor.cpp:17-36 | construction succeeds exactly when open, address select and all three writes succeed, and then it has written 0x01, 0x07, 0x10 in that order; if open or address select fails, nothing is written and no descriptor is held; a failed write stops the sequence at that command |
| Gpio.SetHighValue | rpi_sensors/src/GpioOutput.cpp:44-46 | setHigh writes 1 when active high and 0 when active low, which reads back as logically on |
| Gpio.SetLowValue | rpi_sensors/src/GpioOutput.cpp:48-50 | setLow writes 0 when active high and 1 when active low, which reads back as logically off |
| Gpio.Complementary | rpi_sensors/src/GpioOutput.cpp:44-50 | for either polarity, setHigh and setLow write complementary raw values |
| Gpio.CallValue | rpi_sensors/src/GpioOutput.cpp:44-50 | a call's raw value reads back as logically on exactly when the call is setHigh |
| Gpio.DefaultValue | rpi_sensors/src/GpioOutput.cpp:24 | the value requested at construction is the value setLow writes, so the output starts logically off |
| Gpio.Acquire | rpi_sensors/src/GpioOutput.cpp:7-31 | construction succeeds exactly when the chip opens, the line is found and the output request returns 0; the errors come in that order; a new line is held and logically off |
| Gpio.SetValue | rpi_sensors/src/GpioOutput.cpp:52-59 | a write fails when the line is not held and when the library call reports an error; on success only the line's value changes |
| Gpio.Apply | rpi_sensors/src/GpioOutput.cpp:44-59 | a successful setHigh or setLow leaves the line logically on exactly for setHigh |
| EventLoop.Begin | rpi_sensors/src/main.cpp:160-163 | the loop starts running with an empty log, a closed door, the line off and the initial door state recorded as last seen |
| EventLoop.Die | rpi_sensors/src/main.cpp:213-216 | an exception escaping the loop logs a fatal line and exits with code 1, changing nothing else |
| EventLoop.Observe | rpi_sensors/src/main.cpp:201-208 | a door line is logged only when the door state differs from the last one seen, which is then updated |
| EventLoop.Tick | rpi_sensors/src/main.cpp:195-209 | a tick keeps running exactly when the sensor read succeeds and any GPIO write succeeds, and otherwise exits with code 1; while running it applies one controller update, keeps the loop consistent, and logs one line exactly when the door state changed |
| EventLoop.HandleBatch | rpi_sensors/src/main.cpp:184-210 | a finished loop ignores further events; handling ends either running or with exit 0 or 1 |
| EventLoop.HandleBatchAppend | rpi_sensors/src/main.cpp:184-210 | events are handled strictly in order, so a batch may be handled in two pieces |
| EventLoop.SignalStopsBatch | rpi_sensors/src/main.cpp:185-193 | a signal exits with code 0 after logging "Stopping", and the events after it in the same batch are never handled |
| EventLoop.HandleBatchConsistent | rpi_sensors/src/main.cpp:184-210 | a batch that leaves the loop running keeps the line level equal to the door state and the last-seen state current |
| EventLoop.Samples | rpi_sensors/src/main.cpp:195-199 | a batch of healthy timer events delivers one lux sample per event |
| EventLoop.HealthyTick | rpi_sensors/src/main.cpp:195-209 | a healthy tick applies exactly the controller's update and logs one door line per actuator call |
| EventLoop.HealthyBatchIsRun | rpi_sensors/src/main.cpp:184-210 | a batch of healthy ticks drives the controller as the run over the samples read, and logs exactly one door line per actuator call, naming the new state |
| EventLoop.HandleWait | rpi_sensors/src/main.cpp:178-182 | an interrupted wait is retried with nothing changed, any other wait failure exits with code 1, and a ready wait handles its batch |
| EventLoop.Serve | rpi_sensors/src/main.cpp:176-211 | once the program has exited, further wake-ups change nothing |
| EventLoop.ServeConsistent | rpi_sensors/src/main.cpp:176-211 | after any number of wake-ups, a running loop is consistent: the line is on exactly when the door is open, and the last state seen is current |

## Left out

- Threads, tick channel, atomics: the code has none; the update runs synchronously on the epoll thread.
- epoll, signalfd, timerfd and sigprocmask setup, and closing their descriptors (main.cpp:100-157 and 189-191): OS plumbing. Only the dispatch rules are modelled, and only the `itimerspec` value is computed.
- The order in which `main` constructs the sensor, the GPIO output and the controller (main.cpp:159-161) is not composed into one function. Each constructor's failure is modelled on its own, and any of them ends the program with code 1.
- The epoll batch limit of 4 events: batches of any length are modelled. The limit only splits events across wake-ups.
- Event tags other than 1 (timer) and 2 (signal): none are registered, so none can occur.
- `lastLux()` (main.cpp:205): the controller declares no such member, so the door log line carries only the door state.
- Usage text, startup banner and error message texts: output formatting only.
- Cli.SetOption: `std::stod`, `std::stoi` and `std::stoul` are parameters that return a value or report an exception, not modelled conversions. NaN thresholds are therefore not covered.
- Cli.ParseHexByte: weaker than `std::stoul`, because leading whitespace and a sign (`" 5"`, `"+5"`) are refused rather than accepted. Every other input gets the same success or failure as the source.
- IEEE-754 behaviour of the lux comparisons and of the division by 1.2 (rounding, NaN): lux values are mathematical reals.
- FakePorts.Apply: the fake's `int` call counters are unbounded naturals, so their overflow after 2³¹ calls is not modelled.
- Bh1750.Create: after a failed command write, the source throws without closing the descriptor. The model reports this as `fdOpen` set, but the process exits with code 1 right after, so nothing leaks beyond it.
- Destructors of `Bh1750Sensor` and `GpioOutput`: they only release descriptors and lines.
- research/barcodeApi/fetch_product_test.cpp: an unrelated HTTP client script.
