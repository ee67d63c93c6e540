/** pkg/raspberry/linux.go: the hardware GPIO lines of the raspberry package
    and their debounce handler. The package's list of lines is kept by the
    Chip that Open returns; levels read from the hardware are parameters.
    The goroutine started for a trigger works on a value copy of the line,
    which shares only the debounce timer with the stored line. */
module RaspberryLinux {
  import opened Base
  import opened Edges
  import opened Debounce

  /** A pin of the GPIO library; lines find their pin by identity. */
  class GpioPin {
    const number: int

    constructor (n: int)
      ensures number == n
    {
      number := n;
    }
  }

  class Line {
    const gpioPin: GpioPin
    var handler: Option<FuncId>
    var debounceTime: int64
    var pending: bool
    var edge: Edge
    var lastLevel: bool

    /** The line as the debounce state machine sees it. */
    function State(): (s: LineState)
      reads this
      ensures s.edge == edge && s.debounceTime == debounceTime
      ensures s.pending == pending && s.lastLevel == lastLevel
    {
      LineState(edge, debounceTime, pending, lastLevel)
    }

    /** The line NewPin creates: no edge, no window, no callback, an idle
        timer, a low remembered level. */
    constructor (p: int)
      ensures fresh(gpioPin) && gpioPin.number == p
      ensures edge == "" && debounceTime == 0 && !pending && !lastLevel && handler == None
    {
      gpioPin := new GpioPin(p);
      handler := None;
      debounceTime := 0;
      pending := false;
      edge := "";
      lastLevel := false;
    }

    function Pin(): (p: int)
      ensures p == gpioPin.number
    {
      gpioPin.number
    }

    function DebounceTimer(): (t: int64)
      reads this
      ensures t == debounceTime
    {
      debounceTime
    }

    /** SetDebounceTimer sets the window and returns the same line. */
    method SetDebounceTimer(t: int64) returns (l: Line)
      modifies `debounceTime
      ensures l == this && debounceTime == t
    {
      debounceTime := t;
      l := this;
    }

    /** Watch stores the callback and the edge policy; `watch` is what
        registering the pin's watch with the GPIO library reports. */
    method Watch(e: Edge, h: FuncId, watch: Option<string>) returns (err: Option<string>)
      modifies this
      ensures handler == Some(h) && edge == e && err == watch
      ensures debounceTime == old(debounceTime) && pending == old(pending) && lastLevel == old(lastLevel)
    {
      handler := Some(h);
      edge := e;
      err := watch;
    }

    /** The goroutine's step once the window has elapsed, on the copy `job`
        taken when the trigger was accepted, reading `level` from the pin:
        the shared timer is re-armed to fire at once, which makes the stored
        line idle again; the policy is applied with the copy's remembered
        level, and when it fires (`fired`) the callback called is the
        copy's, `job.handler`, even if Watch has replaced the line's since.
        Whatever the copy remembers afterwards is lost with it: the stored
        line keeps its level. */
    method Expire(job: Job, level: bool) returns (fired: bool, called: Option<FuncId>)
      modifies `pending
      ensures (State(), fired) == ExpireOnCopy(old(State()), job.copy, level)
      ensures called == (if fired then job.handler else None)
    {
      pending := false;
      var copy := job.copy;
      fired := false;
      if copy.edge == EdgeBoth {
        fired := level != copy.lastLevel;
      } else if copy.edge == EdgeFalling {
        fired := !level;
      } else if copy.edge == EdgeRising {
        fired := level;
      }
      called := if fired then job.handler else None;
    }
  }

  /** The value copy a scheduled evaluation works on: the line's state and
      its callback at the moment the trigger was accepted. */
  datatype Job = Job(copy: LineState, handler: Option<FuncId>)

  /** What one call of the debounce handler did: no line has the pin, or the
      first line with it reacted; a scheduled evaluation carries its copy. */
  datatype TriggerResult = NoLine | Triggered(reaction: Reaction, job: Option<Job>)

  /** The index of the first line on `pin`, or |lines| when there is none. */
  function FirstLine(lines: seq<Line>, pin: GpioPin): (k: nat)
    ensures k <= |lines|
    ensures forall j :: 0 <= j < k ==> lines[j].gpioPin != pin
    ensures k < |lines| ==> lines[k].gpioPin == pin
    decreases |lines|
  {
    if lines == [] then 0
    else if lines[0].gpioPin == pin then 0
    else 1 + FirstLine(lines[1..], pin)
  }

  class Chip {
    /** The registered lines, in registration order. */
    var lines: seq<Line>

    /** Open: an empty list of lines (opening the GPIO library is not modelled). */
    constructor Open()
      ensures lines == []
    {
      lines := [];
    }

    /** NewPin scans the lines for one on pin `p`; it fails if there is one
        and leaves the list alone, and otherwise appends exactly one new
        idle line for `p`. */
    method NewPin(p: int) returns (l: Line?, err: Option<string>)
      modifies this
      ensures err.Some? <==> exists i :: 0 <= i < |old(lines)| && old(lines)[i].gpioPin.number == p
      ensures err.Some? ==> l == null && lines == old(lines)
      ensures err.None? ==>
        && l != null && fresh(l) && lines == old(lines) + [l]
        && l.Pin() == p && l.edge == "" && l.debounceTime == 0 && !l.pending && !l.lastLevel && l.handler == None
    {
      var i := 0;
      while i < |lines|
        invariant 0 <= i <= |lines|
        invariant forall j :: 0 <= j < i ==> lines[j].gpioPin.number != p
      {
        if lines[i].gpioPin.number == p {
          return null, Some("pin already used");
        }
        i := i + 1;
      }
      l := new Line(p);
      lines := lines + [l];
      err := None;
    }

    /** The debounce handler for `pin`, with the pin reading `level`. The
        first line on that pin reacts as Debounce.Trigger says; a scheduled
        evaluation gets a copy of the line as it was when the trigger was
        accepted; no other line changes. `called` is the callback called at
        once, which happens only without a window. */
    method Handler(pin: GpioPin, level: bool) returns (r: TriggerResult, called: Option<FuncId>, ghost k: nat)
      modifies lines
      ensures k == FirstLine(lines, pin)
      ensures k == |lines| ==> r == NoLine && called == None && forall j :: 0 <= j < |lines| ==> unchanged(lines[j])
      ensures k < |lines| ==>
        var l := lines[k];
        && r.Triggered?
        && (l.State(), r.reaction) == Trigger(old(l.State()), level)
        && l.handler == old(l.handler)
        && r.job == (if r.reaction == Scheduled then Some(Job(l.State(), l.handler)) else None)
        && called == (if r.reaction == Immediate then old(l.handler) else None)
      ensures k < |lines| ==> forall j :: 0 <= j < |lines| && lines[j] != lines[k] ==> unchanged(lines[j])
    {
      k := FirstLine(lines, pin);
      var i := 0;
      while i < |lines|
        invariant 0 <= i <= k
        invariant forall j :: 0 <= j < |lines| ==> unchanged(lines[j])
      {
        var l := lines[i];
        if l.gpioPin == pin {
          if l.debounceTime == 0 {
            l.lastLevel := level;
            return Triggered(Immediate, None), l.handler, k;
          }
          if l.pending {
            return Triggered(Dropped, None), None, k;
          }
          l.pending := true;
          var copy := l.State();
          return Triggered(Scheduled, Some(Job(copy, l.handler))), None, k;
        }
        i := i + 1;
      }
      r, called := NoLine, None;
    }
  }

  /** A whole debounce window on an idle line leaves the stored line exactly
      as it was before the trigger: the remembered level is never updated. */
  lemma StoredLevelSurvivesExpiry(s: LineState, level: bool)
    requires !s.pending && s.debounceTime != 0
    ensures var (t, reaction) := Trigger(s, level);
            && reaction == Scheduled
            && ExpireOnCopy(t, t, level).0 == s
  {
  }

  /** The copy compares against the level remembered when the trigger was
      accepted, whatever the stored line remembers by expiry. */
  lemma CopyDecides(stored: LineState, copy: LineState, level: bool)
    ensures ExpireOnCopy(stored, copy, level).1 == Fires(copy.edge, level, copy.lastLevel)
    ensures ExpireOnCopy(stored, copy, level).1 ==> copy.edge in {EdgeBoth, EdgeFalling, EdgeRising}
  {
  }
}
