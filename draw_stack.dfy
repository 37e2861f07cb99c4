/**
 * The screen stack of src/graphics/draw.rs, an alternative to the sub-screen
 * stack: the current target is a plain rectangle (`StackScreen`, a position
 * and an unsigned size), `stack_screen` pushes two entries per call (a copy
 * of the old target, then the argument) and `pop_screen` pops two.
 *
 * The thread-local `SCREEN_STACK` and `TARGET_SCREEN` are the fields of a
 * `TargetStack` object. The clipping `draw` of the same file is not part of
 * this model.
 */
module DrawStack {
  import opened Base

  /** A pair of `u32`s; the source's width is not modelled. */
  datatype Size = Size(x: nat, y: nat)

  /** `StackScreen`. */
  datatype StackScreen = StackScreen(position: Point, size: Size)

  /** The target before any call: at the origin, of size zero. */
  const InitialTarget: StackScreen := StackScreen(Origin, Size(0, 0))

  /** `end_point`: the corner opposite the position. */
  function EndPoint(s: StackScreen): (r: Point)
    ensures r.x - s.position.x == s.size.x as real
    ensures r.y - s.position.y == s.size.y as real
  {
    Point(s.position.x + s.size.x as real, s.position.y + s.size.y as real)
  }

  /** The `as u32` conversion of a non-negative float, truncating. */
  function ToU32(r: real): nat
    requires r >= 0.0
  {
    r.Floor
  }

  datatype StackState = StackState(stack: seq<StackScreen>, target: StackScreen)

  const InitialState: StackState := StackState([], InitialTarget)

  /**
   * `stack_screen(s)`: two entries are pushed, the old target and then `s`;
   * the target moves by `s`'s position and keeps its size, since the size
   * is shrunk by the difference of two end points of the same screen.
   */
  function StackSpec(st: StackState, s: StackScreen): (r: StackState)
    ensures r.stack == st.stack + [st.target, s] && |r.stack| == |st.stack| + 2
    ensures r.target.position == Add(st.target.position, s.position)
    ensures r.target.size == st.target.size
  {
    StackState(st.stack + [st.target, s], StackScreen(Add(st.target.position, s.position), st.target.size))
  }

  /**
   * `pop_screen`: two pops; if both found an entry the second becomes the
   * target and the first is returned. Otherwise the target is kept, None is
   * returned, and a single entry is still removed.
   */
  function PopSpec(st: StackState): (r: (StackState, Option<StackScreen>))
    ensures |st.stack| >= 2 ==> r.0 == StackState(st.stack[..|st.stack| - 2], st.stack[|st.stack| - 2])
    ensures |st.stack| >= 2 ==> r.1 == Some(st.stack[|st.stack| - 1])
    ensures |st.stack| < 2 ==> r == (StackState([], st.target), None)
  {
    var n := |st.stack|;
    if n >= 2 then (StackState(st.stack[..n - 2], st.stack[n - 2]), Some(st.stack[n - 1]))
    else (StackState([], st.target), None)
  }

  /** `stack_screen(s)` then `pop_screen()` returns `s` and restores the stack and the target. */
  lemma StackThenPopRestores(st: StackState, s: StackScreen)
    ensures PopSpec(StackSpec(st, s)) == (st, Some(s))
  {
    assert (st.stack + [st.target, s])[..|st.stack|] == st.stack;
  }

  /** `stack_screen` for each screen of `ss`, in order. */
  function StackAll(st: StackState, ss: seq<StackScreen>): StackState
    decreases |ss|
  {
    if ss == [] then st else StackSpec(StackAll(st, ss[..|ss| - 1]), ss[|ss| - 1])
  }

  /** `n` calls of `pop_screen`. */
  function PopTimes(st: StackState, n: nat): StackState
    decreases n
  {
    if n == 0 then st else PopTimes(PopSpec(st).0, n - 1)
  }

  /** Stacking any number of screens and popping as many times restores the stack and the target. */
  lemma {:induction false} BalancedStackingRestores(st: StackState, ss: seq<StackScreen>)
    ensures PopTimes(StackAll(st, ss), |ss|) == st
    decreases |ss|
  {
    if ss != [] {
      var k := |ss| - 1;
      StackThenPopRestores(StackAll(st, ss[..k]), ss[k]);
      assert |ss[..k]| == k;
      BalancedStackingRestores(st, ss[..k]);
    }
  }

  /** Stacking `ss` from a state moves the target by the sum of the screens' positions. */
  function Offset(ss: seq<StackScreen>): Point
    decreases |ss|
  {
    if ss == [] then Origin else Add(Offset(ss[..|ss| - 1]), ss[|ss| - 1].position)
  }

  /** Nested stacking composes offsets and never resizes the target; the stack grows by two per call. */
  lemma {:induction false} StackAllOffsets(st: StackState, ss: seq<StackScreen>)
    ensures StackAll(st, ss).target.position == Add(st.target.position, Offset(ss))
    ensures StackAll(st, ss).target.size == st.target.size
    ensures |StackAll(st, ss).stack| == |st.stack| + 2 * |ss|
    decreases |ss|
  {
    if ss != [] {
      StackAllOffsets(st, ss[..|ss| - 1]);
    }
  }

  /** `SCREEN_STACK` and `TARGET_SCREEN`. */
  class TargetStack {
    var stack: seq<StackScreen>
    var target: StackScreen

    function State(): StackState
      reads this
    {
      StackState(stack, target)
    }

    constructor ()
      ensures State() == InitialState
    {
      stack := [];
      target := InitialTarget;
    }

    /** `reset_stacking_screen`: the target is replaced wholesale. */
    method ResetStackingScreen(screen: StackScreen)
      modifies this
      ensures State() == old(State()).(target := screen)
    {
      target := screen;
    }

    /** `stack_screen`. */
    method StackScreen(newScreen: StackScreen)
      modifies this
      ensures State() == StackSpec(old(State()), newScreen)
    {
      stack := stack + [target];
      var currentEnd := EndPoint(target);
      var newEnd := EndPoint(target);
      var position := Point(target.position.x + newScreen.position.x, target.position.y + newScreen.position.y);
      var size := target.size;
      if currentEnd.x >= newEnd.x {
        size := size.(x := size.x - ToU32(currentEnd.x - newEnd.x));
      }
      if currentEnd.y >= newEnd.y {
        size := size.(y := size.y - ToU32(currentEnd.y - newEnd.y));
      }
      target := target.(position := position, size := size);
      stack := stack + [newScreen];
    }

    /** `pop_screen`. */
    method PopScreen() returns (r: Option<StackScreen>)
      modifies this
      ensures (State(), r) == PopSpec(old(State()))
    {
      ghost var s0 := stack;
      if |s0| >= 2 {
        assert s0[..|s0| - 1][..|s0| - 2] == s0[..|s0| - 2];
      }
      var lastArg: Option<StackScreen> := None;
      if |stack| > 0 {
        lastArg := Some(stack[|stack| - 1]);
        stack := stack[..|stack| - 1];
      }
      var lastCur: Option<StackScreen> := None;
      if |stack| > 0 {
        lastCur := Some(stack[|stack| - 1]);
        stack := stack[..|stack| - 1];
      }
      if lastCur.Some? && lastArg.Some? {
        target := lastCur.value;
        r := lastArg;
      } else {
        r := None;
      }
    }
  }
}
