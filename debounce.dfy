/** The per-line debounce state machine of pkg/raspberry (windows.go and
    linux.go), as pure functions over a line's state. The goroutine and its
    timer become two steps: Trigger, when a raw transition arrives, and
    Expire, when the debounce window has elapsed. */
module Debounce {
  import opened Edges

  /** What the handler keeps per line. `pending` is true while the debounce
      timer is armed, i.e. while no value waits on its channel. */
  datatype LineState = LineState(edge: Edge, debounceTime: int, pending: bool, lastLevel: bool)

  /** What a trigger did: called the callback at once, scheduled an
      evaluation at window expiry, or was dropped. */
  datatype Reaction = Immediate | Scheduled | Dropped

  /** A raw transition arrives while the line reads `level`. */
  function Trigger(s: LineState, level: bool): (LineState, Reaction) {
    if s.debounceTime == 0 then (s.(lastLevel := level), Immediate)
    else if s.pending then (s, Dropped)
    else (s.(pending := true), Scheduled)
  }

  /** The policy table applied when the window expires. */
  predicate Fires(edge: Edge, level: bool, lastLevel: bool) {
    if edge == EdgeBoth then level != lastLevel
    else if edge == EdgeFalling then !level
    else if edge == EdgeRising then level
    else false
  }

  /** Expiry evaluated on the stored line itself (windows.go): the timer is
      re-armed to fire at once, and the level is remembered only when the
      callback is called. */
  function Expire(s: LineState, level: bool): (LineState, bool) {
    var fire := Fires(s.edge, level, s.lastLevel);
    (s.(pending := false, lastLevel := if fire then level else s.lastLevel), fire)
  }

  /** Expiry evaluated on the value copy taken when the trigger was accepted
      (linux.go): the timer is shared with the stored line, every other
      field of the copy is private to the evaluation. */
  function ExpireOnCopy(stored: LineState, copy: LineState, level: bool): (LineState, bool) {
    (stored.(pending := false), Fires(copy.edge, level, copy.lastLevel))
  }

  /** With no debounce window every trigger calls the callback and records the level. */
  lemma ZeroWindow(s: LineState, level: bool)
    requires s.debounceTime == 0
    ensures Trigger(s, level).1 == Immediate
    ensures Trigger(s, level).0 == s.(lastLevel := level)
  {
  }

  /** With a window there is at most one pending evaluation: an idle line
      becomes pending, a pending line drops the trigger and keeps its state. */
  lemma AtMostOnePending(s: LineState, level: bool)
    requires s.debounceTime != 0
    ensures s.pending ==> Trigger(s, level) == (s, Dropped)
    ensures !s.pending ==> Trigger(s, level) == (s.(pending := true), Scheduled)
  {
  }

  /** The non-both policies read the level at expiry as the edge that led
      to it (high = rising), and fire when the line watches that edge. */
  lemma FiresReadsLevelAsEdge(edge: Edge, level: bool, lastLevel: bool)
    requires edge != EdgeBoth
    ensures Fires(edge, level, lastLevel) <==> Watches(edge, if level then EdgeRising else EdgeFalling)
  {
  }

  /** Expiry clears the pending marker, changes nothing but it and
      `lastLevel`, and changes `lastLevel` only by a dispatch, to the level read. */
  lemma ExpireChangesLevelOnlyOnDispatch(s: LineState, level: bool)
    ensures !Expire(s, level).0.pending
    ensures Expire(s, level).0.(pending := s.pending, lastLevel := s.lastLevel) == s
    ensures Expire(s, level).0.lastLevel != s.lastLevel ==> Expire(s, level).1 && Expire(s, level).0.lastLevel == level
    ensures Expire(s, level).1 ==> Expire(s, level).0.lastLevel == level
  {
  }

  /** On a copy the stored `lastLevel` never changes at expiry. */
  lemma ExpireOnCopyKeepsLevel(stored: LineState, copy: LineState, level: bool)
    ensures ExpireOnCopy(stored, copy, level).0 == stored.(pending := false)
  {
  }

  /** A burst of triggers with the levels read at each of them; the result is
      the final state and how many evaluations the burst scheduled and how
      many immediate calls it made. */
  function Burst(s: LineState, levels: seq<bool>): (r: (LineState, nat, nat))
    decreases |levels|
  {
    if levels == [] then (s, 0, 0)
    else
      var (t, reaction) := Trigger(s, levels[0]);
      var (u, scheduled, immediate) := Burst(t, levels[1..]);
      (u, scheduled + (if reaction == Scheduled then 1 else 0), immediate + (if reaction == Immediate then 1 else 0))
  }

  lemma {:induction false} BurstWhilePending(s: LineState, levels: seq<bool>)
    requires s.debounceTime != 0 && s.pending
    ensures Burst(s, levels) == (s, 0, 0)
    decreases |levels|
  {
    if levels != [] {
      BurstWhilePending(s, levels[1..]);
    }
  }

  /** Debounce collapse: any non-empty burst of triggers on an idle line with
      a window schedules exactly one evaluation and calls nothing at once,
      so what happens at expiry depends only on the level read then, not on
      how many transitions arrived or what was read during the window. */
  lemma {:induction false} BurstCollapses(s: LineState, levels: seq<bool>, level: bool)
    requires s.debounceTime != 0 && !s.pending && |levels| >= 1
    ensures Burst(s, levels) == (s.(pending := true), 1, 0)
    ensures Expire(Burst(s, levels).0, level) == Expire(s.(pending := true), level)
  {
    var t := s.(pending := true);
    assert Trigger(s, levels[0]) == (t, Scheduled);
    BurstWhilePending(t, levels[1..]);
  }

  /** A debounce window of 50 ms on a rising-edge line: the line drops at 0 ms
      and rises again at 10 ms, both inside the window; the single
      evaluation at 50 ms reads high and dispatches exactly once. */
  lemma RisingBurstDispatchesOnce(lastLevel: bool)
    ensures var s := LineState(EdgeRising, 50 * 1_000_000, false, lastLevel);
            var (t, scheduled, immediate) := Burst(s, [false, true]);
            scheduled == 1 && immediate == 0 && Expire(t, true).1
  {
    var s := LineState(EdgeRising, 50 * 1_000_000, false, lastLevel);
    BurstCollapses(s, [false, true], true);
  }

  /** One debounce window started by a trigger and ended by its expiry
      (stored-line and copied-line evaluation). */
  function Window(s: LineState, level: bool): (LineState, bool) {
    Expire(Trigger(s, level).0, level)
  }

  function WindowOnCopy(s: LineState, level: bool): (LineState, bool) {
    var t := Trigger(s, level).0;
    ExpireOnCopy(t, t, level)
  }

  /** The copy semantics make a both-edge line on linux fire again for a level it
      has already reported: two windows that both read high fire once when
      evaluated in place and twice when evaluated on a copy. */
  lemma CopyLosesLastLevel()
    ensures var s := LineState(EdgeBoth, 1_000_000, false, false);
            var (w1, f1) := Window(s, true);
            var (w2, f2) := Window(w1, true);
            f1 && !f2
    ensures var s := LineState(EdgeBoth, 1_000_000, false, false);
            var (c1, g1) := WindowOnCopy(s, true);
            var (c2, g2) := WindowOnCopy(c1, true);
            g1 && g2 && c2 == s
  {
  }
}
