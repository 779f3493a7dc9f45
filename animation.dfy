/**
 * The hover "pop" animation of a circle on the connection map.
 *
 * The animation state is two flags, `growing` and `decreasing`, and the extra
 * radius `increase` drawn on top of the circle's own radius. Hovering sets
 * `growing`; hovering out clears it and sets `decreasing`. Every rendered frame
 * first runs the growth phase (one unit up, or clear `growing` at the cap) and
 * then the shrink phase (one unit down, or clear `decreasing` at zero).
 */
module Animation {

  /** The largest extra radius the hover animation adds. */
  const MaxIncrease: int := 6

  datatype AnimState = AnimState(growing: bool, decreasing: bool, increase: int)

  /** What one rendered frame does: the next state and how many re-renders it requested. */
  datatype Frame = Frame(next: AnimState, requests: nat)

  /** The inputs that drive the animation, in the order the page delivers them. */
  datatype Event = Hovered | HoveredOut | Rendered

  /** A freshly constructed circle: both flags off, no extra radius. */
  const Initial: AnimState := AnimState(false, false, 0)

  predicate InRange(v: int) {
    0 <= v <= MaxIncrease
  }

  /** The state change of a hover: growth starts, shrinking is left as it was. */
  function Hover(s: AnimState): AnimState {
    s.(growing := true)
  }

  /** The state change of a hover-out: growth stops and shrinking starts. */
  function HoverOut(s: AnimState): AnimState {
    s.(growing := false, decreasing := true)
  }

  /** First half of a frame: grow by one below the cap, or clear `growing` at the cap. */
  function GrowPhase(s: AnimState): Frame {
    if s.growing && s.increase < MaxIncrease then Frame(s.(increase := s.increase + 1), 1)
    else if s.growing then Frame(s.(growing := false), 0)
    else Frame(s, 0)
  }

  /** Second half of a frame: shrink by one above zero, or clear `decreasing` at zero. */
  function ShrinkPhase(s: AnimState): Frame {
    if s.decreasing && s.increase > 0 then Frame(s.(increase := s.increase - 1), 1)
    else if s.decreasing then Frame(s.(decreasing := false), 0)
    else Frame(s, 0)
  }

  /**
   * One rendered frame. The extra radius moves by at most one, stays in
   * [0, MaxIncrease] when it starts there, no flag is ever raised by a frame,
   * and `growing` survives exactly when it was set below the cap.
   */
  function Step(s: AnimState): (f: Frame)
    ensures InRange(s.increase) ==> InRange(f.next.increase)
    ensures s.increase - 1 <= f.next.increase <= s.increase + 1
    ensures f.next.growing <==> s.growing && s.increase < MaxIncrease
    ensures f.next.decreasing ==> s.decreasing
    ensures f.requests <= 2
  {
    var g := GrowPhase(s);
    var d := ShrinkPhase(g.next);
    Frame(d.next, g.requests + d.requests)
  }

  /** The state after `n` consecutive frames with no hover events in between. */
  function Run(s: AnimState, n: nat): AnimState
    decreases n
  {
    if n == 0 then s else Run(Step(s).next, n - 1)
  }

  function Apply(s: AnimState, e: Event): AnimState {
    match e
    case Hovered => Hover(s)
    case HoveredOut => HoverOut(s)
    case Rendered => Step(s).next
  }

  /** The state after a whole sequence of events, applied left to right. */
  function Replay(s: AnimState, events: seq<Event>): AnimState
    decreases |events|
  {
    if events == [] then s else Replay(Apply(s, events[0]), events[1..])
  }

  // ---------------------------------------------------------------------------
  // Single frames

  /** Growth alone below the cap: one unit up and one re-render request. */
  lemma GrowOnlyBelowCap(v: int)
    requires 0 <= v < MaxIncrease
    ensures Step(AnimState(true, false, v)) == Frame(AnimState(true, false, v + 1), 1)
  {
  }

  /** Growth alone at the cap: `growing` clears, the extra radius stays, nothing is requested. */
  lemma GrowOnlyAtCap()
    ensures Step(AnimState(true, false, MaxIncrease)) == Frame(AnimState(false, false, MaxIncrease), 0)
  {
  }

  /** Shrinking alone above zero: one unit down and one re-render request. */
  lemma ShrinkOnlyAboveZero(v: int)
    requires 0 < v <= MaxIncrease
    ensures Step(AnimState(false, true, v)) == Frame(AnimState(false, true, v - 1), 1)
  {
  }

  /** Shrinking alone at zero: `decreasing` clears and nothing is requested. */
  lemma ShrinkOnlyAtZero()
    ensures Step(AnimState(false, true, 0)) == Frame(AnimState(false, false, 0), 0)
  {
  }

  /**
   * Both flags set below the cap: the growth phase's increment is undone by the
   * shrink phase's decrement, both flags stay set, and two re-renders are requested.
   */
  lemma BothFlagsBelowCap(v: int)
    requires 0 <= v < MaxIncrease
    ensures Step(AnimState(true, true, v)) == Frame(AnimState(true, true, v), 2)
  {
  }

  /** Both flags set at the cap: `growing` clears and the shrink phase takes one unit off. */
  lemma BothFlagsAtCap()
    ensures Step(AnimState(true, true, MaxIncrease)) == Frame(AnimState(false, true, MaxIncrease - 1), 1)
  {
  }

  /**
   * When `decreasing` survives a frame exactly: it was set and the extra radius
   * after the growth phase was still above zero.
   */
  lemma DecreasingSurvives(s: AnimState)
    ensures Step(s).next.decreasing <==> s.decreasing && GrowPhase(s).next.increase > 0
  {
  }

  // ---------------------------------------------------------------------------
  // Runs of frames

  lemma {:induction false} RunAdd(s: AnimState, a: nat, b: nat)
    ensures Run(s, a + b) == Run(Run(s, a), b)
    decreases a
  {
    if a > 0 {
      RunAdd(Step(s).next, a - 1, b);
    }
  }

  /** Any number of frames keeps the extra radius in [0, MaxIncrease]. */
  lemma {:induction false} RunKeepsBounds(s: AnimState, n: nat)
    requires InRange(s.increase)
    ensures InRange(Run(s, n).increase)
    decreases n
  {
    if n > 0 {
      RunKeepsBounds(Step(s).next, n - 1);
    }
  }

  /** With no flag set, frames change nothing. */
  lemma {:induction false} IdleIsStable(v: int, n: nat)
    ensures Run(AnimState(false, false, v), n) == AnimState(false, false, v)
    decreases n
  {
    if n > 0 {
      IdleIsStable(v, n - 1);
    }
  }

  /** Sustained growth from `v` climbs one unit per frame. */
  lemma {:induction false} GrowingClimbs(v: int, k: nat)
    requires 0 <= v && v + k <= MaxIncrease
    ensures Run(AnimState(true, false, v), k) == AnimState(true, false, v + k)
    decreases k
  {
    if k > 0 {
      GrowingClimbs(v + 1, k - 1);
    }
  }

  /**
   * Growth finishes: from any `v` in range it reaches the cap after
   * `MaxIncrease - v` frames, the next frame clears `growing`, and after that
   * the state never changes again.
   */
  lemma GrowthFinishes(v: int, extra: nat)
    requires InRange(v)
    ensures Run(AnimState(true, false, v), MaxIncrease - v) == AnimState(true, false, MaxIncrease)
    ensures Run(AnimState(true, false, v), MaxIncrease - v + 1 + extra) == AnimState(false, false, MaxIncrease)
  {
    var s := AnimState(true, false, v);
    GrowingClimbs(v, MaxIncrease - v);
    RunAdd(s, MaxIncrease - v, 1 + extra);
    assert Run(AnimState(true, false, MaxIncrease), 1 + extra) == Run(AnimState(false, false, MaxIncrease), extra);
    IdleIsStable(MaxIncrease, extra);
  }

  /** Sustained shrinking from `v` descends one unit per frame. */
  lemma {:induction false} ShrinkingDescends(v: int, k: nat)
    requires k <= v <= MaxIncrease
    ensures Run(AnimState(false, true, v), k) == AnimState(false, true, v - k)
    decreases k
  {
    if k > 0 {
      ShrinkingDescends(v - 1, k - 1);
    }
  }

  /**
   * Shrinking finishes: from any `v` in range it reaches zero after `v` frames,
   * the next frame clears `decreasing`, and after that nothing changes.
   */
  lemma ShrinkFinishes(v: int, extra: nat)
    requires InRange(v)
    ensures Run(AnimState(false, true, v), v) == AnimState(false, true, 0)
    ensures Run(AnimState(false, true, v), v + 1 + extra) == Initial
  {
    var s := AnimState(false, true, v);
    ShrinkingDescends(v, v);
    RunAdd(s, v, 1 + extra);
    assert Run(AnimState(false, true, 0), 1 + extra) == Run(Initial, extra);
    IdleIsStable(0, extra);
  }

  /**
   * Both flags set below the cap is a fixed point: the extra radius never moves
   * and neither flag ever clears, however many frames are rendered.
   */
  lemma {:induction false} BothFlagsStall(v: int, n: nat)
    requires 0 <= v < MaxIncrease
    ensures Run(AnimState(true, true, v), n) == AnimState(true, true, v)
    decreases n
  {
    if n > 0 {
      BothFlagsStall(v, n - 1);
    }
  }

  /**
   * Hovering again while a hover-out is still shrinking (extra radius below the
   * cap) leaves the circle stuck at that size for every later frame: hovering
   * does not clear `decreasing`, so both flags stay set.
   */
  lemma RehoverWhileShrinkingStalls(v: int, n: nat)
    requires 0 <= v < MaxIncrease
    ensures Run(Hover(AnimState(false, true, v)), n) == AnimState(true, true, v)
  {
    BothFlagsStall(v, n);
  }

  /**
   * Hover, two frames of growth, hover-out: the next frame takes the extra
   * radius down to 1 (not up to 3), and it is back to the initial state two
   * frames after that.
   */
  lemma HoverOutMidGrowth()
    ensures Run(Hover(Initial), 2) == AnimState(true, false, 2)
    ensures Step(HoverOut(AnimState(true, false, 2))).next == AnimState(false, true, 1)
    ensures Run(HoverOut(Run(Hover(Initial), 2)), 3) == Initial
  {
    GrowingClimbs(0, 2);
    ShrinkFinishes(2, 0);
  }

  /** Every sequence of hovers, hover-outs and frames keeps the extra radius in range. */
  lemma {:induction false} ReplayKeepsBounds(s: AnimState, events: seq<Event>)
    requires InRange(s.increase)
    ensures InRange(Replay(s, events).increase)
    decreases |events|
  {
    if events != [] {
      ReplayKeepsBounds(Apply(s, events[0]), events[1..]);
    }
  }

  /** From a freshly constructed circle, no sequence of events takes the extra radius out of range. */
  lemma InitialStaysInRange(events: seq<Event>)
    ensures InRange(Replay(Initial, events).increase)
  {
    ReplayKeepsBounds(Initial, events);
  }
}
