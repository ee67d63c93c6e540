/** pkg/meter/meter.go: the per-meter pulse state and the event handler that
    counts rising edges. */
module Meter {
  import opened Base
  import opened Config
  import RpiPort

  /** The S0 pulse data: ticks overall (uint64), time of the last and of the
      penultimate pulse. */
  datatype S0 = S0(tick: uint64, timeStamp: int, lastTimeStamp: int)

  /** The effect of one event on the pulse data. */
  function Step(s: S0, e: RpiPort.Event): S0 {
    if e.eventType == RpiPort.RisingEdge then S0(IncU64(s.tick), e.timestamp, s.timeStamp)
    else s
  }

  /** A rising edge adds one tick (modulo 2^64) and shifts the timestamps;
      any other event changes nothing. */
  lemma StepEffect(s: S0, e: RpiPort.Event)
    ensures e.eventType == RpiPort.RisingEdge ==>
      && Step(s, e).tick == (s.tick + 1) % TwoTo64
      && Step(s, e).lastTimeStamp == s.timeStamp
      && Step(s, e).timeStamp == e.timestamp
    ensures e.eventType == RpiPort.RisingEdge && s.tick < TwoTo64 - 1 ==> Step(s, e).tick == s.tick + 1
    ensures e.eventType != RpiPort.RisingEdge ==> Step(s, e) == s
  {
  }

  /** The pulse data after the events, handled in order. */
  function Run(s: S0, events: seq<RpiPort.Event>): S0
    decreases |events|
  {
    if events == [] then s else Run(Step(s, events[0]), events[1..])
  }

  function RisingCount(events: seq<RpiPort.Event>): (n: nat)
    ensures n <= |events|
  {
    if events == [] then 0
    else (if events[0].eventType == RpiPort.RisingEdge then 1 else 0) + RisingCount(events[1..])
  }

  /** Over any event sequence the tick count grows by the number of rising
      events, modulo the uint64 width. */
  lemma {:induction false} RunTicks(s: S0, events: seq<RpiPort.Event>)
    ensures Run(s, events).tick == (s.tick + RisingCount(events)) % TwoTo64
    decreases |events|
  {
    if events != [] {
      var t := Step(s, events[0]);
      RunTicks(t, events[1..]);
      assert t.tick == (s.tick + (if events[0].eventType == RpiPort.RisingEdge then 1 else 0)) % TwoTo64;
    }
  }

  /** Without a uint64 overflow the tick count is the initial count plus the
      number of rising events, so it never decreases. */
  lemma RunTicksExact(s: S0, events: seq<RpiPort.Event>)
    requires s.tick + RisingCount(events) < TwoTo64
    ensures Run(s, events).tick == s.tick + RisingCount(events)
    ensures Run(s, events).tick >= s.tick
  {
    RunTicks(s, events);
  }

  /** Every event is at or after `t` and after the event before it. */
  predicate NonDecreasingFrom(t: int, events: seq<RpiPort.Event>)
    decreases |events|
  {
    events == [] || (t <= events[0].timestamp && NonDecreasingFrom(events[0].timestamp, events[1..]))
  }

  lemma NonDecreasingWeaken(t: int, u: int, events: seq<RpiPort.Event>)
    requires t <= u && NonDecreasingFrom(u, events)
    ensures NonDecreasingFrom(t, events)
  {
  }

  /** If event timestamps never go back, the penultimate pulse never lies
      after the last one. */
  lemma {:induction false} RunKeepsTimestampsOrdered(s: S0, events: seq<RpiPort.Event>)
    requires s.lastTimeStamp <= s.timeStamp
    requires NonDecreasingFrom(s.timeStamp, events)
    ensures Run(s, events).lastTimeStamp <= Run(s, events).timeStamp
    decreases |events|
  {
    if events != [] {
      var t := Step(s, events[0]);
      assert t.lastTimeStamp <= t.timeStamp;
      assert t.timeStamp <= events[0].timestamp;
      if events[0].eventType == RpiPort.RisingEdge {
        assert NonDecreasingFrom(t.timeStamp, events[1..]);
      } else {
        NonDecreasingWeaken(t.timeStamp, events[0].timestamp, events[1..]);
      }
      RunKeepsTimestampsOrdered(t, events[1..]);
    }
  }

  /** The events a port hands to its event handler for a sequence of kernel
      events, the i-th handled when the clock reads nows[i]. */
  function Delivered(p: RpiPort.Port, kernel: seq<RpiPort.LineEvent>, nows: seq<int>): seq<RpiPort.Event>
    requires |kernel| == |nows|
    reads p
  {
    if kernel == [] then []
    else
      var rest := Delivered(p, kernel[1..], nows[1..]);
      match p.Handler(kernel[0], nows[0])
      case Some(d) => [d.event] + rest
      case None => rest
  }

  function KernelRisingCount(kernel: seq<RpiPort.LineEvent>): (n: nat)
    ensures n <= |kernel|
  {
    if kernel == [] then 0
    else (if kernel[0].kind.LineEventRisingEdge? then 1 else 0) + KernelRisingCount(kernel[1..])
  }

  /** With an event handler installed, a meter fed by a port counts exactly
      the kernel's rising edges; with none it counts nothing. */
  lemma {:induction false} DeliveredRisingEdges(p: RpiPort.Port, kernel: seq<RpiPort.LineEvent>, nows: seq<int>)
    requires |kernel| == |nows|
    ensures p.eventHandler.Some? ==> RisingCount(Delivered(p, kernel, nows)) == KernelRisingCount(kernel)
    ensures p.eventHandler.None? ==> Delivered(p, kernel, nows) == []
    decreases |kernel|
  {
    if kernel != [] {
      DeliveredRisingEdges(p, kernel[1..], nows[1..]);
      var rest := Delivered(p, kernel[1..], nows[1..]);
      match p.Handler(kernel[0], nows[0])
      case Some(d) =>
        assert ([d.event] + rest)[1..] == rest;
      case None =>
    }
  }

  class Meter {
    var lineHandler: RpiPort.Port?
    var config: MeterConfig
    var s0: S0

    /** New: no line handler, zero ticks and zero timestamps, the given config. */
    constructor New(c: MeterConfig)
      ensures lineHandler == null && config == c
      ensures s0 == S0(0, 0, 0)
    {
      lineHandler := null;
      config := c;
      s0 := S0(0, 0, 0);
    }

    /** EventHandler: the one critical section that applies an event. Only
        the pulse data changes, never the config or the line handler. */
    method EventHandler(event: RpiPort.Event)
      modifies `s0
      ensures s0 == Step(old(s0), event)
    {
      if event.eventType == RpiPort.RisingEdge {
        s0 := s0.(lastTimeStamp := s0.timeStamp);
        s0 := s0.(timeStamp := event.timestamp);
        s0 := s0.(tick := IncU64(s0.tick));
      }
    }
  }
}
