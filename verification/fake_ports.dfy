/** The test doubles of the controller's unit test and the four scenarios it
    checks. FakeLightSensor replays a recorded sample vector; FakeGpioOutput
    remembers its level and counts the calls of each kind. */
module FakePorts {
  import opened Ports
  import opened DoorLight

  datatype FakeLightSensor = FakeLightSensor(lux: seq<real>, idx: nat)

  /** A fresh fake sensor: its first read is the first replayed value. */
  function NewFakeLightSensor(lux: seq<real>): (s: FakeLightSensor)
    ensures CursorInRange(s) && s.lux == lux
    ensures ReadLux(s).lux == ReplayAt(lux, 0)
  {
    FakeLightSensor(lux, 0)
  }

  /** The read cursor never passes the end of the recording. */
  predicate CursorInRange(s: FakeLightSensor)
  {
    s.idx <= |s.lux|
  }

  /** A sample read, and the sensor after the read. */
  datatype Read = Read(lux: real, sensor: FakeLightSensor)

  /** `readLux()`: 0.0 for an empty recording, the next sample while there is
      one, and the last sample again once the recording is used up. */
  function ReadLux(s: FakeLightSensor): (r: Read)
    requires CursorInRange(s)
    ensures CursorInRange(r.sensor) && r.sensor.lux == s.lux
    ensures |s.lux| == 0 ==> r.lux == 0.0
    ensures r.sensor.idx == if s.idx < |s.lux| then s.idx + 1 else s.idx
  {
    if |s.lux| == 0 then Read(0.0, s)
    else if s.idx >= |s.lux| then Read(s.lux[|s.lux| - 1], s)
    else Read(s.lux[s.idx], s.(idx := s.idx + 1))
  }

  /** Reference reading of the replay rule: the value of the `k`-th read
      (counting from 0) of a fresh fake sensor. */
  function ReplayAt(lux: seq<real>, k: nat): real
  {
    if |lux| == 0 then 0.0
    else if k < |lux| then lux[k]
    else lux[|lux| - 1]
  }

  /** The first `n` values a fresh fake sensor returns. */
  function Replay(lux: seq<real>, n: nat): (s: seq<real>)
    ensures |s| == n
    ensures forall k :: 0 <= k < n ==> s[k] == ReplayAt(lux, k)
  {
    seq(n, k requires 0 <= k => ReplayAt(lux, k))
  }

  datatype FakeGpioOutput = FakeGpioOutput(high: bool, highCalls: nat, lowCalls: nat)

  /** A fresh fake output: low, no calls. */
  function NewFakeGpioOutput(): (g: FakeGpioOutput)
    ensures !g.high && g.highCalls == 0 && g.lowCalls == 0
  {
    FakeGpioOutput(false, 0, 0)
  }

  /** `setHigh()` / `setLow()`: set the level and bump that call's counter only. */
  function Apply(g: FakeGpioOutput, call: GpioCall): (r: FakeGpioOutput)
    ensures r.high <==> call == SetHigh
    ensures r.highCalls == g.highCalls + (if call == SetHigh then 1 else 0)
    ensures r.lowCalls == g.lowCalls + (if call == SetLow then 1 else 0)
  {
    match call
    case SetHigh => g.(high := true, highCalls := g.highCalls + 1)
    case SetLow => g.(high := false, lowCalls := g.lowCalls + 1)
  }

  function ApplyAll(g: FakeGpioOutput, calls: seq<GpioCall>): FakeGpioOutput
    decreases |calls|
  {
    if |calls| == 0 then g else ApplyAll(Apply(g, calls[0]), calls[1..])
  }

  /** A fake output that saw the trace `calls` counts each kind of call and
      sits at the level of the last call. */
  lemma {:induction false} ApplyAllCounts(g: FakeGpioOutput, calls: seq<GpioCall>)
    ensures ApplyAll(g, calls).highCalls == g.highCalls + Count(calls, SetHigh)
    ensures ApplyAll(g, calls).lowCalls == g.lowCalls + Count(calls, SetLow)
    ensures ApplyAll(g, calls).high == if |calls| == 0 then g.high else calls[|calls| - 1] == SetHigh
    decreases |calls|
  {
    if |calls| > 0 {
      ApplyAllCounts(Apply(g, calls[0]), calls[1..]);
    }
  }

  /** A unit-test fixture: controller wired to the two fakes. */
  datatype Bench = Bench(ctl: Controller, sensor: FakeLightSensor, gpio: FakeGpioOutput)

  function NewBench(lux: seq<real>, openLux: real, closeLux: real): Bench
  {
    Bench(Create(openLux, closeLux), NewFakeLightSensor(lux), NewFakeGpioOutput())
  }

  /** `ctl.update()` on the fixture: one sensor read, one controller step,
      its calls delivered to the fake output. */
  function BenchUpdate(b: Bench): (r: Bench)
    requires CursorInRange(b.sensor)
    ensures CursorInRange(r.sensor)
    ensures r.sensor.lux == b.sensor.lux && r.sensor.idx == Min(b.sensor.idx + 1, |b.sensor.lux|)
    ensures IsDoorOpen(r.ctl) == IsDoorOpen(b.ctl) ==> r.gpio == b.gpio
    ensures IsDoorOpen(r.ctl) != IsDoorOpen(b.ctl) ==>
      && r.gpio.high == IsDoorOpen(r.ctl)
      && r.gpio.highCalls == b.gpio.highCalls + Bit(IsDoorOpen(r.ctl))
      && r.gpio.lowCalls == b.gpio.lowCalls + Bit(IsDoorOpen(b.ctl))
  {
    var read := ReadLux(b.sensor);
    var step := Update(b.ctl, read.lux);
    Bench(step.next, read.sensor, ApplyAll(b.gpio, step.calls))
  }

  function BenchUpdates(b: Bench, n: nat): (r: Bench)
    requires CursorInRange(b.sensor)
    ensures CursorInRange(r.sensor)
  {
    if n == 0 then b else BenchUpdate(BenchUpdates(b, n - 1))
  }

  function Min(a: nat, b: nat): nat
  {
    if a <= b then a else b
  }

  /** `n` updates of a fresh fixture read the sensor exactly once each: the
      controller behaves as if fed the first `n` replayed samples, the read
      cursor has moved `n` places (stopping at the end of the recording), and
      the fake output has received exactly the controller's calls. */
  lemma {:induction false} BenchIsRun(lux: seq<real>, openLux: real, closeLux: real, n: nat)
    ensures var b := BenchUpdates(NewBench(lux, openLux, closeLux), n);
      var r := Run(Create(openLux, closeLux), Replay(lux, n));
      && b.ctl == r.next
      && b.sensor == FakeLightSensor(lux, Min(n, |lux|))
      && b.gpio == ApplyAll(NewFakeGpioOutput(), r.calls)
    decreases n
  {
    if n > 0 {
      var c := Create(openLux, closeLux);
      var before := BenchUpdates(NewBench(lux, openLux, closeLux), n - 1);
      BenchIsRun(lux, openLux, closeLux, n - 1);
      var x := ReplayAt(lux, n - 1);
      ReadReplays(lux, n - 1);
      var prev := Run(c, Replay(lux, n - 1));
      var step := Update(prev.next, x);
      assert BenchUpdates(NewBench(lux, openLux, closeLux), n)
          == Bench(step.next, FakeLightSensor(lux, Min(n, |lux|)), ApplyAll(before.gpio, step.calls));
      assert Replay(lux, n) == Replay(lux, n - 1) + [x];
      RunSnoc(c, Replay(lux, n - 1), x);
      ApplyAllAppend(NewFakeGpioOutput(), prev.calls, step.calls);
    }
  }

  /** The read cursor at `k` (clamped to the recording) yields the `k`-th
      replayed value and moves to `k + 1`. */
  lemma ReadReplays(lux: seq<real>, k: nat)
    ensures ReadLux(FakeLightSensor(lux, Min(k, |lux|)))
         == Read(ReplayAt(lux, k), FakeLightSensor(lux, Min(k + 1, |lux|)))
  {
  }

  lemma {:induction false} ApplyAllAppend(g: FakeGpioOutput, a: seq<GpioCall>, b: seq<GpioCall>)
    ensures ApplyAll(g, a + b) == ApplyAll(ApplyAll(g, a), b)
    decreases |a|
  {
    if |a| == 0 {
      assert a + b == b;
    } else {
      assert (a + b)[1..] == a[1..] + b;
      ApplyAllAppend(Apply(g, a[0]), a[1..], b);
    }
  }

  /** After any number of updates of a fresh fixture the fake output's level
      matches the door state, and setHigh calls exceed setLow calls by one
      exactly when the door is open. */
  lemma BenchLevelMatchesDoor(lux: seq<real>, openLux: real, closeLux: real, n: nat)
    ensures var b := BenchUpdates(NewBench(lux, openLux, closeLux), n);
      && b.gpio.high == IsDoorOpen(b.ctl)
      && b.gpio.highCalls - b.gpio.lowCalls == Bit(IsDoorOpen(b.ctl))
  {
    var c := Create(openLux, closeLux);
    var r := Run(c, Replay(lux, n));
    BenchIsRun(lux, openLux, closeLux, n);
    ApplyAllCounts(NewFakeGpioOutput(), r.calls);
    RunFromClosed(c, Replay(lux, n));
    RunAlternates(c, Replay(lux, n));
    if |r.calls| > 0 {
      LastCallOfAlternation(r.calls, false);
    }
  }

  /** The last call of an alternating trace drives the level it ends at. */
  lemma {:induction false} LastCallOfAlternation(calls: seq<GpioCall>, open: bool)
    requires Alternates(calls, open) && |calls| > 0
    ensures calls[|calls| - 1] == LevelCall(open != (|calls| % 2 == 1))
    decreases |calls|
  {
    if |calls| > 1 {
      LastCallOfAlternation(calls[1..], !open);
    }
  }

  /** The fixture's observable state checked by the unit test. */
  predicate Observed(b: Bench, open: bool, high: bool, highCalls: nat, lowCalls: nat)
  {
    IsDoorOpen(b.ctl) == open && b.gpio.high == high
    && b.gpio.highCalls == highCalls && b.gpio.lowCalls == lowCalls
  }

  /** Samples below the open threshold leave the door closed and the output untouched. */
  lemma ScenarioStaysClosed()
    ensures Observed(BenchUpdates(NewBench([0.0, 5.0, 9.0], 30.0, 10.0), 3), false, false, 0, 0)
  {
  }

  /** A sample above the open threshold opens the door with one setHigh. */
  lemma ScenarioOpens()
    ensures Observed(BenchUpdates(NewBench([0.0, 31.0], 30.0, 10.0), 2), true, true, 1, 0)
  {
  }

  /** After opening, samples above the close threshold keep the door open. */
  lemma ScenarioStaysOpen()
    ensures Observed(BenchUpdates(NewBench([35.0, 20.0, 11.0], 30.0, 10.0), 3), true, true, 1, 0)
  {
  }

  /** After opening, a sample below the close threshold closes it with one setLow. */
  lemma ScenarioOpensThenCloses()
    ensures Observed(BenchUpdates(NewBench([35.0, 20.0, 9.0], 30.0, 10.0), 3), false, false, 1, 1)
  {
  }
}
