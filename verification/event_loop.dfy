/** The main loop of the demo program, reduced to its dispatch rules. Each
    epoll wake-up delivers a batch of events; a timer event runs one
    controller update on the same thread (one sensor read, at most one GPIO
    write) and logs the door state when it differs from the last one seen;
    a signal event ends the program with code 0 without looking at the rest
    of the batch. Any hardware error ends it with code 1. */
module EventLoop {
  import opened Types
  import opened Ports
  import opened DoorLight
  import Bh1750
  import Gpio
  import Cli

  /** What the hardware answers during one tick: the sensor read, and the
      return code of the GPIO set call should the update make one. */
  datatype TickReplies = TickReplies(read: Bh1750.ReadReply, setRc: int)

  /** An epoll event, told apart by the tag it was registered with. */
  datatype Event = TimerExpired(replies: TickReplies) | SignalReceived

  datatype LogLine = DoorChanged(open: bool) | Stopping | Fatal

  datatype Status = Running | Exited(code: int)

  /** The loop's state: the controller, the GPIO line it drives, the door
      state last seen, and the log so far. */
  datatype Loop = Loop(status: Status, ctl: Controller, line: Gpio.Line, lastOpen: bool, log: seq<LogLine>)

  /** While running: the last state seen is the door state, the line is held,
      and the line is logically on exactly when the door is open. */
  predicate Consistent(l: Loop)
  {
    && l.lastOpen == IsDoorOpen(l.ctl)
    && l.line.acquired
    && (Gpio.LogicallyOn(l.line.value, l.line.activeHigh) <==> IsDoorOpen(l.ctl))
  }

  /** The loop as it starts: a fresh controller with the configured
      thresholds, the freshly acquired line, and the initial door state
      recorded as the last one seen. */
  function Begin(cfg: Cli.Config, line: Gpio.Line): (l: Loop)
    requires Gpio.Acquire(cfg.activeHigh, Gpio.ChipReplies(true, true, 0)) == Ok(line)
    ensures l.status == Running && l.log == []
    ensures Consistent(l)
    ensures l.ctl == Create(cfg.openLux, cfg.closeLux)
  {
    var ctl := Create(cfg.openLux, cfg.closeLux);
    Loop(Running, ctl, line, IsDoorOpen(ctl), [])
  }

  /** The change-only logging rule: a line is written only when the door
      state differs from the last one seen, which is then updated. */
  function Observe(l: Loop): (r: Loop)
    ensures r.lastOpen == IsDoorOpen(l.ctl)
    ensures r.log == l.log + (if IsDoorOpen(l.ctl) != l.lastOpen then [DoorChanged(IsDoorOpen(l.ctl))] else [])
    ensures r.status == l.status && r.ctl == l.ctl && r.line == l.line
  {
    var nowOpen := IsDoorOpen(l.ctl);
    if nowOpen != l.lastOpen then l.(log := l.log + [DoorChanged(nowOpen)], lastOpen := nowOpen) else l
  }

  /** The fatal path: any exception escaping the loop is reported and the
      program exits with code 1; nothing else about the loop changes. */
  function Die(l: Loop): (r: Loop)
    ensures r.status == Exited(1) && r.log == l.log + [Fatal]
    ensures r.ctl == l.ctl && r.line == l.line && r.lastOpen == l.lastOpen
  {
    l.(status := Exited(1), log := l.log + [Fatal])
  }

  /** One timer event: read, update, drive the line, log on change. */
  function Tick(l: Loop, t: TickReplies): (r: Loop)
    requires l.status == Running
    ensures r.status != Running ==> r.status == Exited(1) && r.log == l.log + [Fatal]
    ensures r.status == Running <==>
      && t.read.rc == 2
      && (Update(l.ctl, Bh1750.ReadLux(t.read).value).calls == [] || (l.line.acquired && t.setRc == 0))
    ensures r.status == Running ==> r.ctl == Update(l.ctl, Bh1750.ReadLux(t.read).value).next
    ensures Consistent(l) && r.status == Running ==> Consistent(r)
    ensures Consistent(l) && r.status == Running ==>
      r.log == l.log + (if IsDoorOpen(r.ctl) != IsDoorOpen(l.ctl) then [DoorChanged(IsDoorOpen(r.ctl))] else [])
  {
    match Bh1750.ReadLux(t.read)
    case Err(_) => Die(l)
    case Ok(lux) =>
      var step := Update(l.ctl, lux);
      var moved := l.(ctl := step.next);
      if |step.calls| == 0 then Observe(moved)
      else match Gpio.Apply(l.line, step.calls[0], t.setRc)
        case Err(_) => Die(moved)
        case Ok(line) => Observe(moved.(line := line))
  }

  /** The events of one wake-up, handled in order until one ends the program. */
  function HandleBatch(l: Loop, events: seq<Event>): (r: Loop)
    ensures l.status != Running ==> r == l
    ensures r.status == Running || r.status == Exited(0) || r.status == Exited(1)
      || r.status == l.status
    decreases |events|
  {
    if |events| == 0 || l.status != Running then l
    else match events[0]
      case SignalReceived => l.(status := Exited(0), log := l.log + [Stopping])
      case TimerExpired(t) => HandleBatch(Tick(l, t), events[1..])
  }

  /** Handling a batch in two pieces is handling it at once. */
  lemma {:induction false} HandleBatchAppend(l: Loop, xs: seq<Event>, ys: seq<Event>)
    ensures HandleBatch(l, xs + ys) == HandleBatch(HandleBatch(l, xs), ys)
    decreases |xs|
  {
    if |xs| == 0 {
      assert xs + ys == ys;
    } else if l.status == Running {
      assert (xs + ys)[0] == xs[0];
      assert (xs + ys)[1..] == xs[1..] + ys;
      if xs[0].TimerExpired? {
        HandleBatchAppend(Tick(l, xs[0].replies), xs[1..], ys);
      }
    }
  }

  /** A signal ends the program with code 0 and a "Stopping" line, and the
      events after it in the same batch are never handled. */
  lemma SignalStopsBatch(l: Loop, before: seq<Event>, after: seq<Event>)
    requires HandleBatch(l, before).status == Running
    ensures var stopped := HandleBatch(l, before);
      HandleBatch(l, before + [SignalReceived] + after)
        == stopped.(status := Exited(0), log := stopped.log + [Stopping])
  {
    HandleBatchAppend(l, before, [SignalReceived] + after);
    assert before + [SignalReceived] + after == before + ([SignalReceived] + after);
  }

  /** A batch that leaves the loop running keeps it consistent. */
  lemma {:induction false} HandleBatchConsistent(l: Loop, events: seq<Event>)
    requires l.status == Running && Consistent(l)
    requires HandleBatch(l, events).status == Running
    ensures Consistent(HandleBatch(l, events))
    decreases |events|
  {
    if |events| > 0 {
      HandleBatchConsistent(Tick(l, events[0].replies), events[1..]);
    }
  }

  /** A tick on which the sensor delivers two bytes and the GPIO accepts
      whatever is written. */
  predicate Healthy(e: Event)
  {
    e.TimerExpired? && e.replies.read.rc == 2 && e.replies.setRc == 0
  }

  /** The lux samples the healthy ticks of a batch deliver, in order. */
  function Samples(events: seq<Event>): (s: seq<real>)
    requires forall i :: 0 <= i < |events| ==> Healthy(events[i])
    ensures |s| == |events|
  {
    if |events| == 0 then []
    else
      var first := events[0];
      assert Healthy(first);
      [Bh1750.ReadLux(first.replies.read).value] + Samples(events[1..])
  }

  /** The log line each actuator call is reported with. */
  function DoorLines(calls: seq<GpioCall>): (lines: seq<LogLine>)
    ensures |lines| == |calls|
    ensures forall i :: 0 <= i < |calls| ==> lines[i] == DoorChanged(calls[i] == SetHigh)
  {
    if |calls| == 0 then [] else [DoorChanged(calls[0] == SetHigh)] + DoorLines(calls[1..])
  }

  /** A healthy tick makes exactly the controller's update and logs one door
      line per actuator call. */
  lemma HealthyTick(l: Loop, e: Event)
    requires l.status == Running && Consistent(l)
    requires Healthy(e)
    ensures var step := Update(l.ctl, Bh1750.ReadLux(e.replies.read).value);
      var r := Tick(l, e.replies);
      && r.status == Running
      && r.ctl == step.next
      && r.log == l.log + DoorLines(step.calls)
  {
  }

  /** A batch of healthy ticks drives the controller exactly as the run over
      the samples read, and logs exactly one door line per actuator call,
      naming the state that call switched to. */
  lemma {:induction false} HealthyBatchIsRun(l: Loop, events: seq<Event>)
    requires l.status == Running && Consistent(l)
    requires forall i :: 0 <= i < |events| ==> Healthy(events[i])
    ensures var r := HandleBatch(l, events);
      var run := Run(l.ctl, Samples(events));
      && r.status == Running
      && r.ctl == run.next
      && r.log == l.log + DoorLines(run.calls)
    decreases |events|
  {
    if |events| > 0 {
      var e := events[0];
      var tail := events[1..];
      assert Healthy(e);
      assert forall i :: 0 <= i < |tail| ==> Healthy(tail[i]) by {
        forall i | 0 <= i < |tail|
          ensures Healthy(tail[i])
        {
          assert tail[i] == events[i + 1];
        }
      }
      var lux := Bh1750.ReadLux(e.replies.read).value;
      var step := Update(l.ctl, lux);
      HealthyTick(l, e);
      var next := Tick(l, e.replies);
      assert HandleBatch(l, events) == HandleBatch(next, tail);
      HealthyBatchIsRun(next, tail);
      var rest := Run(next.ctl, Samples(tail));
      assert Samples(events) == [lux] + Samples(tail);
      assert Run(l.ctl, Samples(events)) == Step(rest.next, step.calls + rest.calls);
      var r := HandleBatch(next, tail);
      assert r.log == next.log + DoorLines(rest.calls);
      assert next.log == l.log + DoorLines(step.calls);
      LogAfterTwoSteps(l.log, step.calls, rest.calls);
    }
  }

  lemma LogAfterTwoSteps(log: seq<LogLine>, a: seq<GpioCall>, b: seq<GpioCall>)
    ensures log + DoorLines(a) + DoorLines(b) == log + DoorLines(a + b)
  {
    DoorLinesAppend(a, b);
  }

  lemma DoorLinesAppend(a: seq<GpioCall>, b: seq<GpioCall>)
    ensures DoorLines(a + b) == DoorLines(a) + DoorLines(b)
  {
    var lhs := DoorLines(a + b);
    var rhs := DoorLines(a) + DoorLines(b);
    assert |lhs| == |rhs|;
    forall i | 0 <= i < |lhs|
      ensures lhs[i] == rhs[i]
    {
      if i < |a| {
        assert (a + b)[i] == a[i];
      } else {
        assert (a + b)[i] == b[i - |a|];
      }
    }
  }

  /** What one `epoll_wait` returns. */
  datatype Wait = Ready(events: seq<Event>) | Interrupted | WaitFailed

  /** One turn of the loop: an interrupted wait is simply retried, any other
      wait failure is fatal. */
  function HandleWait(l: Loop, w: Wait): (r: Loop)
    requires l.status == Running
    ensures w.Interrupted? ==> r == l
    ensures w.WaitFailed? ==> r == Die(l)
    ensures w.Ready? ==> r == HandleBatch(l, w.events)
  {
    match w
    case Interrupted => l
    case WaitFailed => Die(l)
    case Ready(events) => HandleBatch(l, events)
  }

  /** Successive turns of the loop, until the program exits. */
  function Serve(l: Loop, waits: seq<Wait>): (r: Loop)
    ensures l.status != Running ==> r == l
    decreases |waits|
  {
    if |waits| == 0 || l.status != Running then l
    else Serve(HandleWait(l, waits[0]), waits[1..])
  }

  /** However many turns it takes, a loop that is still running is consistent:
      the line is logically on exactly when the door is open and the last
      state seen is the current one. */
  lemma {:induction false} ServeConsistent(l: Loop, waits: seq<Wait>)
    requires l.status == Running && Consistent(l)
    requires Serve(l, waits).status == Running
    ensures Consistent(Serve(l, waits))
    decreases |waits|
  {
    if |waits| > 0 {
      var next := HandleWait(l, waits[0]);
      if next.status == Running && waits[0].Ready? {
        HandleBatchConsistent(l, waits[0].events);
      }
      ServeConsistent(next, waits[1..]);
    }
  }
}
