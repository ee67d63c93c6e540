/** pkg/rpi/windows.go: the emulated pin of the rpi package, whose TestPin
    injects edges by calling the watched handler directly. */
module RpiWindows {
  import opened Base
  import opened Edges

  /** The dynamic type of the `interface{}` value handed to Watch: only a
      `func(*PinEmu)` is accepted. */
  datatype HandlerValue = PinEmuHandler(f: FuncId) | OtherHandler(f: FuncId)

  class PinEmu {
    const pin: int
    var edge: Edge
    var handler: Option<FuncId>

    /** Watch sets handler and edge together, so a pin without a handler still
        has the zero edge "". */
    ghost predicate Valid()
      reads this
    {
      handler.None? ==> edge == ""
    }

    /** The value NewPin returns. */
    constructor (p: int)
      ensures pin == p && edge == "" && handler == None && Valid()
    {
      pin := p;
      edge := "";
      handler := None;
    }

    function Pin(): (p: int)
    {
      pin
    }

    /** Watch keeps the handler and edge only when the handler is a func(*PinEmu). */
    method Watch(e: Edge, h: HandlerValue)
      requires Valid()
      modifies this
      ensures Valid()
      ensures h.PinEmuHandler? ==> edge == e && handler == Some(h.f)
      ensures !h.PinEmuHandler? ==> edge == old(edge) && handler == old(handler)
    {
      if h.PinEmuHandler? {
        handler := Some(h.f);
        edge := e;
      }
    }

    /** TestPin(e): the handler calls the injection of `e` makes, in order;
        every call goes to the watched handler. */
    method TestPin(e: Edge) returns (calls: seq<FuncId>)
      requires Valid()
      ensures |calls| == TestPinCalls(edge, e)
      ensures forall i :: 0 <= i < |calls| ==> handler == Some(calls[i])
    {
      calls := [];
      if edge == EdgeNone || e == EdgeNone {
        return;
      } else if e == EdgeBoth {
        if edge == EdgeBoth {
          calls := calls + [handler.value];
        }
        if edge == EdgeBoth || edge == EdgeFalling || edge == EdgeRising {
          calls := calls + [handler.value];
        }
      } else if e == EdgeFalling {
        if edge == EdgeBoth || edge == EdgeFalling {
          calls := calls + [handler.value];
        }
      } else if e == EdgeRising {
        if edge == EdgeBoth || edge == EdgeRising {
          calls := calls + [handler.value];
        }
      }
    }
  }

  class Rpi {
    /** Open. */
    constructor ()
    {
    }

    /** NewPin(p) returns a fresh emulated pin for `p` with no handler. */
    method NewPin(p: int) returns (pe: PinEmu)
      ensures fresh(pe) && pe.Pin() == p && pe.handler == None && pe.edge == "" && pe.Valid()
    {
      pe := new PinEmu(p);
    }
  }
}
