/** pkg/raspberry/windows.go: the emulated GPIO lines of the raspberry
    package and their debounce handler. The package's table of lines is
    kept by the Chip that Open returns; the debounce timer is the line's
    `pending` marker (armed = pending), and the goroutine waiting for it is
    the separate step Line.Expire. */
module RaspberryWindows {
  import opened Base
  import opened Edges
  import opened Debounce

  class Line {
    const pin: int
    var edge: Edge
    var debounceTime: int64
    var pending: bool
    var lastLevel: bool
    var handler: Option<FuncId>

    /** The line as the debounce state machine sees it. */
    function State(): (s: LineState)
      reads this
      ensures s.edge == edge && s.debounceTime == debounceTime
      ensures s.pending == pending && s.lastLevel == lastLevel
    {
      LineState(edge, debounceTime, pending, lastLevel)
    }

    /** The line NewPin creates: no edge, no window, no callback, an idle
        timer (a zero-duration timer that has already fired). */
    constructor (p: int)
      ensures pin == p && edge == "" && debounceTime == 0 && !pending && !lastLevel && handler == None
    {
      pin := p;
      edge := "";
      debounceTime := 0;
      pending := false;
      lastLevel := false;
      handler := None;
    }

    function Pin(): (p: int)
      ensures p == pin
    {
      pin
    }

    /** The emulated level is always low. */
    function Read(): (level: bool)
      ensures !level
    {
      false
    }

    function DebounceTimer(): (t: int64)
      reads this
      ensures t == debounceTime
    {
      debounceTime
    }

    /** Watch stores the callback and the edge policy; it never fails. */
    method Watch(e: Edge, h: FuncId) returns (err: Option<string>)
      modifies this
      ensures handler == Some(h) && edge == e && err == None
      ensures debounceTime == old(debounceTime) && pending == old(pending) && lastLevel == old(lastLevel)
    {
      handler := Some(h);
      edge := e;
      err := None;
    }

    /** SetDebounceTimer sets the window and returns the same line. */
    method SetDebounceTimer(t: int64) returns (l: Line)
      modifies `debounceTime
      ensures l == this && debounceTime == t
    {
      debounceTime := t;
      l := this;
    }

    /** The pending goroutine's step once the window has elapsed: the timer is
        re-armed to fire at once (the line is idle again), the policy is
        applied to the level read now, and the line's callback is called
        (`called`) and the level remembered only when the policy fires. */
    method Expire() returns (fired: bool, called: Option<FuncId>)
      modifies this
      ensures (State(), fired) == Debounce.Expire(old(State()), Read())
      ensures handler == old(handler)
      ensures called == (if fired then old(handler) else None)
    {
      pending := false;
      var level := Read();
      fired := false;
      if edge == EdgeBoth {
        fired := level != lastLevel;
      } else if edge == EdgeFalling {
        fired := !level;
      } else if edge == EdgeRising {
        fired := level;
      }
      called := None;
      if fired {
        lastLevel := level;
        called := handler;
      }
    }
  }

  /** What one call of the debounce handler did: the pin had no line, or the
      line registered for it reacted (an Immediate reaction calls its
      callback). */
  datatype TriggerResult = NoLine | Triggered(reaction: Reaction)

  class Chip {
    /** The registered lines, by pin. */
    var lines: map<int, Line>

    ghost predicate Valid()
      reads this
    {
      forall p :: p in lines ==> lines[p].pin == p
    }

    /** Open: an empty table of lines. */
    constructor Open()
      ensures lines == map[] && Valid()
    {
      lines := map[];
    }

    /** NewPin fails on a pin already in use and leaves the table alone;
        otherwise it registers a new idle line for the pin. */
    method NewPin(p: int) returns (l: Line?, err: Option<string>)
      requires Valid()
      modifies this
      ensures Valid()
      ensures err.Some? <==> p in old(lines)
      ensures err.Some? ==> l == null && lines == old(lines)
      ensures err.None? ==>
        && l != null && fresh(l) && lines == old(lines)[p := l]
        && l.pin == p && l.edge == "" && l.debounceTime == 0 && !l.pending && !l.lastLevel && l.handler == None
    {
      if p in lines {
        return null, Some("pin already used");
      }
      l := new Line(p);
      lines := lines[p := l];
      err := None;
    }

    /** The debounce handler, called with the line whose pin triggered. The
        line registered for that pin reacts as Debounce.Trigger says, with
        the level Read gives; no other line changes. `called` is the
        callback called at once, which happens only without a window. */
    method Handler(pin: Line) returns (r: TriggerResult, called: Option<FuncId>)
      requires Valid()
      modifies lines.Values
      ensures pin.pin !in lines ==> r == NoLine && called == None
      ensures pin.pin in lines ==>
        var l := lines[pin.pin];
        && r.Triggered?
        && (l.State(), r.reaction) == Trigger(old(l.State()), l.Read())
        && l.handler == old(l.handler)
        && called == (if r.reaction == Immediate then old(l.handler) else None)
      ensures forall p :: p in lines && p != pin.pin ==> unchanged(lines[p])
      ensures pin.pin !in lines ==> forall p :: p in lines ==> unchanged(lines[p])
      ensures forall x :: x in lines.Values ==> x.edge == old(x.edge)
    {
      if pin.Pin() !in lines {
        return NoLine, None;
      }
      var l := lines[pin.Pin()];
      if l.debounceTime == 0 {
        l.lastLevel := l.Read();
        return Triggered(Immediate), l.handler;
      }
      if l.pending {
        return Triggered(Dropped), None;
      }
      l.pending := true;
      return Triggered(Scheduled), None;
    }

    /** TestPin(l, e) injects `e` into the line `l`: it calls the debounce
        handler as often as the injection table says for the line's edge,
        so the registered line goes through that many triggers at low level. */
    method TestPin(l: Line, e: Edge) returns (results: seq<TriggerResult>)
      requires Valid()
      modifies lines.Values
      ensures |results| == TestPinCalls(old(l.edge), e)
      ensures l.pin in lines ==>
        lines[l.pin].State() == Burst(old(lines[l.pin].State()), seq(|results|, i => false)).0
      ensures l.pin !in lines ==> forall p :: p in lines ==> unchanged(lines[p])
      ensures forall p :: p in lines && p != l.pin ==> unchanged(lines[p])
    {
      ghost var s0 := if l.pin in lines then lines[l.pin].State() else LineState("", 0, false, false);
      ghost var s1 := Trigger(s0, false).0;
      results := [];
      if l.edge == EdgeNone || e == EdgeNone {
        return;
      } else if e == EdgeBoth {
        if l.edge == EdgeBoth {
          var r, _ := Handler(l);
          results := results + [r];
        }
        if l.edge == EdgeBoth || l.edge == EdgeFalling || l.edge == EdgeRising {
          var r, _ := Handler(l);
          results := results + [r];
        }
        assert |results| == 2 ==> seq(|results|, i => false) == [false, false] && [false, false][1..] == [false];
      } else if e == EdgeFalling {
        if l.edge == EdgeBoth || l.edge == EdgeFalling {
          var r, _ := Handler(l);
          results := results + [r];
        }
      } else if e == EdgeRising {
        if l.edge == EdgeBoth || l.edge == EdgeRising {
          var r, _ := Handler(l);
          results := results + [r];
        }
      }
      assert |results| == 1 ==> seq(|results|, i => false) == [false];
    }
  }

  /** The emulated level is always low, so at expiry a rising-edge line never
      calls its callback, a falling-edge line always does, and a both-edge
      line does only while it still remembers a high level. */
  lemma LowLevelExpiry(s: LineState)
    ensures s.edge == EdgeRising ==> !Debounce.Expire(s, false).1
    ensures s.edge == EdgeFalling ==> Debounce.Expire(s, false).1
    ensures s.edge == EdgeBoth ==> (Debounce.Expire(s, false).1 <==> s.lastLevel)
    ensures s.edge != EdgeRising && s.edge != EdgeFalling && s.edge != EdgeBoth ==> !Debounce.Expire(s, false).1
  {
  }

  /** A line that remembers a low level keeps remembering it under every
      trigger and every expiry at the emulated level; since new lines start
      low, an emulated both-edge line never calls its callback at expiry. */
  lemma LowLevelStaysLow(s: LineState)
    requires !s.lastLevel
    ensures !Trigger(s, false).0.lastLevel
    ensures !Debounce.Expire(s, false).0.lastLevel
    ensures s.edge == EdgeBoth ==> !Debounce.Expire(s, false).1
  {
  }
}
