/** DoorLightController: a two-state hysteresis machine. Each update reads
    one lux sample; a closed door opens when the sample reaches the open
    threshold, an open door closes when the sample falls to the close
    threshold, and any other sample changes nothing. */
module DoorLight {
  import opened Ports

  datatype Controller = Controller(openThresholdLux: real, closeThresholdLux: real, isOpen: bool)

  /** The constructor: thresholds stored as given, door closed. */
  function Create(openThresholdLux: real, closeThresholdLux: real): (c: Controller)
    ensures !IsDoorOpen(c)
    ensures c.openThresholdLux == openThresholdLux && c.closeThresholdLux == closeThresholdLux
  {
    Controller(openThresholdLux, closeThresholdLux, false)
  }

  /** `isDoorOpen()`: the state the last update left the controller in. */
  function IsDoorOpen(c: Controller): (open: bool)
    ensures open <==> c.isOpen
  {
    c.isOpen
  }

  /** The controller after some updates, and the actuator calls those updates made. */
  datatype Step = Step(next: Controller, calls: seq<GpioCall>)

  predicate SameThresholds(a: Controller, b: Controller)
  {
    a.openThresholdLux == b.openThresholdLux && a.closeThresholdLux == b.closeThresholdLux
  }

  /** One `update()` fed with the single sample it reads. */
  function Update(c: Controller, lux: real): (s: Step)
    ensures SameThresholds(s.next, c)
    ensures |s.calls| <= 1
    ensures s.calls == [SetHigh] <==> !c.isOpen && lux >= c.openThresholdLux
    ensures s.calls == [SetLow] <==> c.isOpen && lux <= c.closeThresholdLux
    ensures s.next.isOpen != c.isOpen <==> |s.calls| == 1
    ensures |s.calls| == 1 ==> s.calls[0] == LevelCall(s.next.isOpen)
    ensures c.closeThresholdLux < lux < c.openThresholdLux ==> s == Step(c, [])
  {
    if !c.isOpen && lux >= c.openThresholdLux then
      Step(c.(isOpen := true), [SetHigh])
    else if c.isOpen && lux <= c.closeThresholdLux then
      Step(c.(isOpen := false), [SetLow])
    else
      Step(c, [])
  }

  /** Successive updates fed with `samples` in order. */
  function Run(c: Controller, samples: seq<real>): (s: Step)
    ensures SameThresholds(s.next, c)
    ensures |s.calls| <= |samples|
    decreases |samples|
  {
    if |samples| == 0 then Step(c, [])
    else
      var first := Update(c, samples[0]);
      var rest := Run(first.next, samples[1..]);
      Step(rest.next, first.calls + rest.calls)
  }

  /** Running `xs` then one more sample is one more update after running `xs`. */
  lemma {:induction false} RunSnoc(c: Controller, xs: seq<real>, x: real)
    ensures Run(c, xs + [x]).next == Update(Run(c, xs).next, x).next
    ensures Run(c, xs + [x]).calls == Run(c, xs).calls + Update(Run(c, xs).next, x).calls
    decreases |xs|
  {
    if |xs| == 0 {
      assert xs + [x] == [x];
    } else {
      assert (xs + [x])[1..] == xs[1..] + [x];
      RunSnoc(Update(c, xs[0]).next, xs[1..], x);
    }
  }

  /** Each call drives the output to the level opposite to the one before,
      starting from the level matching `open`. */
  predicate Alternates(calls: seq<GpioCall>, open: bool)
    decreases |calls|
  {
    |calls| == 0 || (calls[0] == LevelCall(!open) && Alternates(calls[1..], !open))
  }

  /** The calls of any run alternate, starting from the controller's state,
      and the door has flipped once per call. */
  lemma {:induction false} RunAlternates(c: Controller, samples: seq<real>)
    ensures Alternates(Run(c, samples).calls, c.isOpen)
    ensures Run(c, samples).next.isOpen == (c.isOpen != (|Run(c, samples).calls| % 2 == 1))
    decreases |samples|
  {
    if |samples| > 0 {
      var first := Update(c, samples[0]);
      var rest := Run(first.next, samples[1..]);
      RunAlternates(first.next, samples[1..]);
      if |first.calls| == 1 {
        assert (first.calls + rest.calls)[1..] == rest.calls;
      } else {
        assert first.calls + rest.calls == rest.calls;
      }
    }
  }

  function Bit(b: bool): int
  {
    if b then 1 else 0
  }

  /** In an alternating trace the difference of the call counts is the net
      change of level. */
  lemma {:induction false} AlternatingBalance(calls: seq<GpioCall>, open: bool)
    requires Alternates(calls, open)
    ensures Count(calls, SetHigh) - Count(calls, SetLow)
            == Bit(open != (|calls| % 2 == 1)) - Bit(open)
    decreases |calls|
  {
    if |calls| > 0 {
      AlternatingBalance(calls[1..], !open);
    }
  }

  /** From a fresh (closed) controller: the first call, if any, is setHigh,
      and setHigh calls exceed setLow calls by one exactly when the door
      ends open. */
  lemma RunFromClosed(c: Controller, samples: seq<real>)
    requires !c.isOpen
    ensures var r := Run(c, samples);
      && (|r.calls| > 0 ==> r.calls[0] == SetHigh)
      && Count(r.calls, SetHigh) - Count(r.calls, SetLow) == Bit(r.next.isOpen)
      && Count(r.calls, SetLow) <= Count(r.calls, SetHigh) <= Count(r.calls, SetLow) + 1
  {
    RunAlternates(c, samples);
    AlternatingBalance(Run(c, samples).calls, c.isOpen);
  }

  /** Samples strictly inside the dead zone never move the door nor call the
      actuator. */
  lemma {:induction false} DeadZoneRunIsIdle(c: Controller, samples: seq<real>)
    requires forall i :: 0 <= i < |samples| ==>
      c.closeThresholdLux < samples[i] < c.openThresholdLux
    ensures Run(c, samples) == Step(c, [])
    decreases |samples|
  {
    if |samples| > 0 {
      DeadZoneRunIsIdle(c, samples[1..]);
    }
  }

  /** `n` copies of the same sample. */
  function Repeat(lux: real, n: nat): (s: seq<real>)
    ensures |s| == n
    ensures forall i :: 0 <= i < n ==> s[i] == lux
  {
    if n == 0 then [] else [lux] + Repeat(lux, n - 1)
  }

  /** A controller that ignores `lux` keeps ignoring it. */
  lemma {:induction false} StableUnderRepeat(c: Controller, lux: real, n: nat)
    requires Update(c, lux).calls == []
    ensures Run(c, Repeat(lux, n)) == Step(c, [])
    decreases n
  {
    if n > 0 {
      assert Repeat(lux, n)[1..] == Repeat(lux, n - 1);
      StableUnderRepeat(c, lux, n - 1);
    }
  }

  /** No chattering: with close <= open, a sustained sample makes at most one
      transition, unless both thresholds equal that very sample. */
  lemma NoChatter(c: Controller, lux: real, n: nat)
    requires c.closeThresholdLux <= c.openThresholdLux
    requires c.closeThresholdLux < c.openThresholdLux || lux != c.openThresholdLux
    ensures |Run(c, Repeat(lux, n)).calls| <= 1
  {
    if n > 0 {
      var first := Update(c, lux);
      assert Repeat(lux, n)[1..] == Repeat(lux, n - 1);
      StableUnderRepeat(first.next, lux, n - 1);
    }
  }

  /** The excluded case is real: equal thresholds and a sample equal to them
      toggle the door on every update. */
  lemma {:induction false} EqualThresholdsChatter(c: Controller, n: nat)
    requires c.closeThresholdLux == c.openThresholdLux
    ensures |Run(c, Repeat(c.openThresholdLux, n)).calls| == n
    decreases n
  {
    if n > 0 {
      var lux := c.openThresholdLux;
      var first := Update(c, lux);
      assert Repeat(lux, n)[1..] == Repeat(lux, n - 1);
      EqualThresholdsChatter(first.next, n - 1);
    }
  }
}
