/** Edge policies of a GPIO line (pkg/raspberry/raspberry.go; the rpi package
    uses the same string-valued type) and the injection table of the emulated
    lines' TestPin. */
module Edges {

  /** Edge is a Go string type: its zero value "" is none of the named policies. */
  type Edge = string

  const EdgeNone: Edge := "none"
  const EdgeRising: Edge := "rising"
  const EdgeFalling: Edge := "falling"
  const EdgeBoth: Edge := "both"

  /** How often TestPin(injected) calls the handler of a line watching
      `configured`: the switch shared by the two emulated TestPin methods. */
  function TestPinCalls(configured: Edge, injected: Edge): (n: nat)
    ensures n <= 2
  {
    if configured == EdgeNone || injected == EdgeNone then 0
    else if injected == EdgeBoth then
      (if configured == EdgeBoth then 1 else 0)
      + (if configured == EdgeBoth || configured == EdgeFalling || configured == EdgeRising then 1 else 0)
    else if injected == EdgeFalling then
      (if configured == EdgeBoth || configured == EdgeFalling then 1 else 0)
    else if injected == EdgeRising then
      (if configured == EdgeBoth || configured == EdgeRising then 1 else 0)
    else 0
  }

  /** Reference reading of TestPin: an injected edge stands for the level
      transitions it is made of (both = one falling and one rising transition)... */
  function Transitions(injected: Edge): seq<Edge> {
    if injected == EdgeBoth then [EdgeFalling, EdgeRising]
    else if injected == EdgeFalling || injected == EdgeRising then [injected]
    else []
  }

  /** ...and a line reacts to a transition of kind `k` when it watches both
      edges or exactly `k`. */
  predicate Watches(configured: Edge, k: Edge) {
    configured == EdgeBoth || configured == k
  }

  function CountWatched(configured: Edge, ks: seq<Edge>): (n: nat)
    ensures n <= |ks|
  {
    if ks == [] then 0
    else (if Watches(configured, ks[0]) then 1 else 0) + CountWatched(configured, ks[1..])
  }

  /** The decision table calls the handler once per injected transition the
      line watches. */
  lemma TestPinCallsCountsTransitions(configured: Edge, injected: Edge)
    ensures TestPinCalls(configured, injected) == CountWatched(configured, Transitions(injected))
  {
    var ts := Transitions(injected);
    if |ts| == 2 {
      assert ts[1..] == [EdgeRising];
      assert CountWatched(configured, ts[1..][1..]) == 0;
    } else if |ts| == 1 {
      assert CountWatched(configured, ts[1..]) == 0;
    }
  }

  /** TestPin never calls the handler when either edge is EdgeNone, and an
      injected single edge calls it at most once. */
  lemma TestPinNone(configured: Edge, injected: Edge)
    ensures configured == EdgeNone || injected == EdgeNone ==> TestPinCalls(configured, injected) == 0
    ensures injected != EdgeBoth ==> TestPinCalls(configured, injected) <= 1
  {
  }
}
