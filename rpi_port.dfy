/** pkg/rpi/port.go: a requested GPIO line that turns kernel line events into
    rising/falling events for an installed event handler. */
module RpiPort {
  import opened Base

  /** Event types handed to the event handler. */
  const RisingEdge: int := 0
  const FallingEdge: int := 1

  /** An event as the event handler receives it. */
  datatype Event = Event(timestamp: int, eventType: int)

  /** The kind of a kernel line event (go-gpiocdev LineEventType); any other
      value the kernel could deliver is `OtherLineEvent`. */
  datatype LineEventType = LineEventRisingEdge | LineEventFallingEdge | OtherLineEvent(code: int)

  /** A kernel line event; offset and sequence numbers are only logged. */
  datatype LineEvent = LineEvent(timestamp: int, kind: LineEventType)

  /** One call of the event handler `target` with `event`. */
  datatype Dispatch = Dispatch(target: FuncId, event: Event)

  class Port {
    /** The installed event handler; None is Go's nil func. */
    var eventHandler: Option<FuncId>

    /** `handler`: what the kernel event `evt`, received when the clock reads
        `now`, dispatches. There is a dispatch exactly when a handler is
        installed and the event is a rising or falling edge; it goes to the
        installed handler, carries the clock and not the kernel timestamp,
        and translates the edge kind. */
    function Handler(evt: LineEvent, now: int): (r: Option<Dispatch>)
      reads this
      ensures r.Some? <==> eventHandler.Some? && (evt.kind.LineEventRisingEdge? || evt.kind.LineEventFallingEdge?)
      ensures r.Some? ==> r.value.target == eventHandler.value && r.value.event.timestamp == now
      ensures r.Some? ==> (r.value.event.eventType == RisingEdge <==> evt.kind.LineEventRisingEdge?)
      ensures r.Some? ==> (r.value.event.eventType == FallingEdge <==> evt.kind.LineEventFallingEdge?)
    {
      if eventHandler.None? || (!evt.kind.LineEventFallingEdge? && !evt.kind.LineEventRisingEdge?) then None
      else
        var eventType := if evt.kind.LineEventRisingEdge? then RisingEdge else FallingEdge;
        Some(Dispatch(eventHandler.value, Event(now, eventType)))
    }

    /** StartEventWatching installs `h`; `reconfigure` is what the line's
        reconfiguration to both edges reports. Afterwards every accepted event
        goes to `h`. */
    method StartEventWatching(h: FuncId, reconfigure: Option<string>) returns (err: Option<string>)
      modifies this
      ensures eventHandler == Some(h) && err == reconfigure
      ensures forall evt, now :: Handler(evt, now).Some? ==> Handler(evt, now).value.target == h
    {
      eventHandler := Some(h);
      err := reconfigure;
    }

    /** StopEventWatching removes the handler: every later event is dropped. */
    method StopEventWatching(reconfigure: Option<string>) returns (err: Option<string>)
      modifies this
      ensures eventHandler == None && err == reconfigure
      ensures forall evt, now :: Handler(evt, now) == None
    {
      eventHandler := None;
      err := reconfigure;
    }
  }

  /** RisingEdge and FallingEdge are the distinct values 0 and 1. */
  lemma EdgeTypesDistinct()
    ensures RisingEdge == 0 && FallingEdge == 1 && RisingEdge != FallingEdge
  {
  }
}
