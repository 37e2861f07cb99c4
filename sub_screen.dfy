/**
 * Off-screen drawing targets (src/graphics/object/sub_screen.rs): a
 * `SubScreen` is a host canvas with its own draw parameters and background
 * colour, and the module keeps a stack of them together with the current
 * target, where no target (`None`) is the window.
 *
 * The thread-local `SCREEN_STACK` and `TARGET_SCREEN` are the fields of a
 * `ScreenStacker` object; the screens they hold are clones of `SubScreen`s,
 * that is `ScreenValue`s (the canvas is shared, so a clone names the same
 * canvas).
 */
module SubScreens {
  import opened Base
  import opened Graphics

  /** A clone of a `SubScreen`. */
  datatype ScreenValue = ScreenValue(
    canvas: CanvasId, essential: DrawableObjectEssential, param: DrawParam,
    size: Point, backColor: Color)

  class SubScreen {
    const canvas: CanvasId
    var essential: DrawableObjectEssential
    var param: DrawParam
    const size: Point
    var backColor: Color

    /** `#[derive(Clone)]`: the screen's current value. */
    function Value(): ScreenValue
      reads this
    {
      ScreenValue(canvas, essential, param, size, backColor)
    }

    /** `SubScreen::new`: a canvas of the rectangle's size, drawn at its corner, visible, at `depth`. */
    constructor (canvas: CanvasId, pos: Rect, depth: Depth, backColor: Color)
      ensures Value() == ScreenValue(canvas, DrawableObjectEssential(true, depth),
                                     DefaultParam.(dest := Point(pos.x, pos.y)), Point(pos.w, pos.h), backColor)
    {
      this.canvas := canvas;
      essential := DrawableObjectEssential(true, depth);
      param := DefaultParam.(dest := Point(pos.x, pos.y));
      size := Point(pos.w, pos.h);
      this.backColor := backColor;
    }

    /** Draws the canvas at the draw parameters; the visible flag is not consulted. */
    method Draw(ctx: HostContext)
      modifies ctx
      ensures ctx.log == old(ctx.log) + [DrawCall(CanvasOf(canvas), param)]
    {
      ctx.Call(DrawCall(CanvasOf(canvas), param));
    }

    method Hide()
      modifies this
      ensures Value() == old(Value()).(essential := Apply(old(essential), ComponentCall.Hide))
      ensures !IsVisible()
    {
      essential := essential.(visible := false);
    }

    method Appear()
      modifies this
      ensures Value() == old(Value()).(essential := Apply(old(essential), ComponentCall.Appear))
      ensures IsVisible()
    {
      essential := essential.(visible := true);
    }

    function IsVisible(): bool
      reads this
    {
      essential.visible
    }

    method SetDrawingDepth(depth: Depth)
      modifies this
      ensures Value() == old(Value()).(essential := Apply(old(essential), ComponentCall.SetDrawingDepth(depth)))
      ensures GetDrawingDepth() == depth
    {
      essential := essential.(drawingDepth := depth);
    }

    function GetDrawingDepth(): Depth
      reads this
    {
      essential.drawingDepth
    }

    method SetPosition(pos: Point)
      modifies this
      ensures Value() == old(Value()).(param := old(param).(dest := pos))
      ensures GetPosition() == pos
    {
      param := param.(dest := pos);
    }

    function GetPosition(): Point
      reads this
    {
      param.dest
    }

    method MoveDiff(offset: Point)
      modifies this
      ensures Value() == old(Value()).(param := old(param).(dest := Add(old(param.dest), offset)))
    {
      param := param.(dest := Point(param.dest.x + offset.x, param.dest.y + offset.y));
    }

    /** `set_drawing_color`: both the draw colour and the background colour. */
    method SetDrawingColor(color: Color)
      modifies this
      ensures Value() == old(Value()).(param := old(param).(color := color), backColor := color)
      ensures GetDrawingColor() == color && GetColor() == color
    {
      param := param.(color := color);
      backColor := color;
    }

    /** `get_drawing_color` reports the background colour. */
    function GetDrawingColor(): Color
      reads this
    {
      backColor
    }

    /** `set_alpha`: the alpha of both colours. */
    method SetAlpha(alpha: real)
      modifies this
      ensures Value() == old(Value()).(param := old(param).(color := old(param.color).(a := alpha)),
                                        backColor := old(backColor).(a := alpha))
      ensures GetAlpha() == alpha && GetDrawingColor().a == alpha
    {
      param := param.(color := param.color.(a := alpha));
      backColor := backColor.(a := alpha);
    }

    /** `get_alpha` reads the draw colour's alpha. */
    function GetAlpha(): real
      reads this
    {
      param.color.a
    }

    /** `set_color`: the draw colour only. */
    method SetColor(color: Color)
      modifies this
      ensures Value() == old(Value()).(param := old(param).(color := color))
      ensures GetColor() == color && GetDrawingColor() == old(GetDrawingColor())
    {
      param := param.(color := color);
    }

    function GetColor(): Color
      reads this
    {
      param.color
    }
  }

  /* ---------------- The screen stack ---------------- */

  /** The stack of earlier targets and the current target (None: the window). */
  datatype Targets = Targets(stack: seq<ScreenValue>, target: Option<ScreenValue>)

  const InitialTargets: Targets := Targets([], None)

  /** The host calls that make `s` the target for fresh drawing: redirect, clear, local coordinates. */
  function SetupNewTarget(s: ScreenValue): seq<HostCall>
  {
    [SetCanvas(Some(s.canvas)), ClearTo(s.backColor), SetScreenCoordinates(s.size.x, s.size.y)]
  }

  /** The host calls that return to a popped target: redirect and local coordinates, no clear. */
  function SetupPoppedTarget(s: ScreenValue): seq<HostCall>
  {
    [SetCanvas(Some(s.canvas)), SetScreenCoordinates(s.size.x, s.size.y)]
  }

  /** The host calls that return to the window. */
  const WindowTarget: seq<HostCall> := [SetCanvas(None), SetWindowCoordinates]

  /**
   * `stack_screen(s)`: `s` becomes the target; the previous target is
   * pushed only if there was one, so the window is never pushed.
   */
  function StackSpec(st: Targets, s: ScreenValue): (r: Targets)
    ensures r.target == Some(s)
    ensures st.target.Some? ==> r.stack == st.stack + [st.target.value]
    ensures st.target.None? ==> r.stack == st.stack
  {
    match st.target
    case Some(last) => Targets(st.stack + [last], Some(s))
    case None => Targets(st.stack, Some(s))
  }

  /**
   * `pop_screen`: with a non-empty stack, the top becomes the target and the
   * target before the pop is returned; with an empty stack, the window
   * becomes the target and None is returned.
   */
  function PopSpec(st: Targets): (r: (Targets, Option<ScreenValue>))
    ensures |st.stack| > 0 ==> r.0 == Targets(st.stack[..|st.stack| - 1], Some(st.stack[|st.stack| - 1]))
    ensures |st.stack| > 0 ==> r.1 == st.target
    ensures |st.stack| == 0 ==> r == (Targets([], None), None)
  {
    if |st.stack| > 0 then
      (Targets(st.stack[..|st.stack| - 1], Some(st.stack[|st.stack| - 1])), st.target)
    else
      (Targets([], None), None)
  }

  /** The host calls `pop_screen` makes. */
  function PopCalls(st: Targets): seq<HostCall>
  {
    if |st.stack| > 0 then SetupPoppedTarget(st.stack[|st.stack| - 1]) else WindowTarget
  }

  /** Drawing to the window means nothing is stacked. */
  predicate WellStacked(st: Targets)
  {
    st.target.None? ==> st.stack == []
  }

  /** Every target the stack knows, bottom first: the stacked screens, then the current one. */
  function Chain(st: Targets): seq<ScreenValue>
  {
    st.stack + (if st.target.Some? then [st.target.value] else [])
  }

  /** `stack_screen` keeps the stack well formed and adds `s` on top of the chain. */
  lemma StackPreservesShape(st: Targets, s: ScreenValue)
    requires WellStacked(st)
    ensures WellStacked(StackSpec(st, s))
    ensures Chain(StackSpec(st, s)) == Chain(st) + [s]
  {
  }

  /** `pop_screen` keeps the stack well formed and drops the top of the chain. */
  lemma PopPreservesShape(st: Targets)
    requires WellStacked(st)
    ensures WellStacked(PopSpec(st).0)
    ensures Chain(PopSpec(st).0) == if Chain(st) == [] then [] else Chain(st)[..|Chain(st)| - 1]
  {
    if |st.stack| > 0 {
      var n := |st.stack| - 1;
      assert Chain(PopSpec(st).0) == st.stack[..n] + [st.stack[n]] == st.stack;
    }
  }

  /** Without `stack_screen`/`pop_screen` in between, `reset_stacking_screen(None)` can break the shape. */
  lemma ResetCanBreakShape(a: ScreenValue, b: ScreenValue)
    ensures var st := StackSpec(StackSpec(InitialTargets, a), b);
      WellStacked(st) && !WellStacked(Targets(st.stack, None))
  {
  }

  /**
   * `stack_screen(s)` then `pop_screen()` restores the stack and the target.
   * It returns `s` when a screen was the target before; from the window
   * nothing was pushed, so the pop finds an empty stack and returns None.
   */
  lemma StackThenPopRestores(st: Targets, s: ScreenValue)
    requires WellStacked(st)
    ensures PopSpec(StackSpec(st, s)).0 == st
    ensures PopSpec(StackSpec(st, s)).1 == if st.target.Some? then Some(s) else None
  {
    if st.target.Some? {
      assert (st.stack + [st.target.value])[..|st.stack|] == st.stack;
    }
  }

  /** `stack_screen` for each screen of `ss`, in order. */
  function StackAll(st: Targets, ss: seq<ScreenValue>): Targets
    decreases |ss|
  {
    if ss == [] then st else StackSpec(StackAll(st, ss[..|ss| - 1]), ss[|ss| - 1])
  }

  /** `n` calls of `pop_screen`. */
  function PopTimes(st: Targets, n: nat): Targets
    decreases n
  {
    if n == 0 then st else PopTimes(PopSpec(st).0, n - 1)
  }

  lemma {:induction false} StackAllPreservesShape(st: Targets, ss: seq<ScreenValue>)
    requires WellStacked(st)
    ensures WellStacked(StackAll(st, ss))
    decreases |ss|
  {
    if ss != [] {
      StackAllPreservesShape(st, ss[..|ss| - 1]);
    }
  }

  /** Stacking any number of screens and popping as many times restores the stack and the target. */
  lemma {:induction false} BalancedStackingRestores(st: Targets, ss: seq<ScreenValue>)
    requires WellStacked(st)
    ensures PopTimes(StackAll(st, ss), |ss|) == st
    decreases |ss|
  {
    if ss != [] {
      var k := |ss| - 1;
      StackAllPreservesShape(st, ss[..k]);
      StackThenPopRestores(StackAll(st, ss[..k]), ss[k]);
      assert |ss[..k]| == k;
      BalancedStackingRestores(st, ss[..k]);
    }
  }

  /** `SCREEN_STACK` and `TARGET_SCREEN`. */
  class ScreenStacker {
    var stack: seq<ScreenValue>
    var target: Option<ScreenValue>

    function State(): Targets
      reads this
    {
      Targets(stack, target)
    }

    /** Both thread-locals start empty: drawing goes to the window. */
    constructor ()
      ensures State() == InitialTargets && WellStacked(State())
    {
      stack := [];
      target := None;
    }

    /** `reset_stacking_screen`: replaces the target and returns the one it replaced. */
    method ResetStackingScreen(newScreen: Option<ScreenValue>) returns (previous: Option<ScreenValue>)
      modifies this
      ensures previous == old(target) && target == newScreen && stack == old(stack)
    {
      previous := target;
      target := newScreen;
    }

    /** `stack_screen`. */
    method StackScreen(ctx: HostContext, screen: SubScreen)
      modifies this, ctx
      ensures State() == StackSpec(old(State()), old(screen.Value()))
      ensures ctx.log == old(ctx.log) + SetupNewTarget(old(screen.Value()))
    {
      var s := screen.Value();
      ctx.Call(SetCanvas(Some(s.canvas)));
      ctx.Call(ClearTo(s.backColor));
      ctx.Call(SetScreenCoordinates(s.size.x, s.size.y));
      var last := ResetStackingScreen(Some(s));
      if last.Some? {
        stack := stack + [last.value];
      }
    }

    /** `pop_screen`. */
    method PopScreen(ctx: HostContext) returns (r: Option<ScreenValue>)
      modifies this, ctx
      ensures (State(), r) == PopSpec(old(State()))
      ensures ctx.log == old(ctx.log) + PopCalls(old(State()))
    {
      if |stack| > 0 {
        var top := stack[|stack| - 1];
        stack := stack[..|stack| - 1];
        ctx.Call(SetCanvas(Some(top.canvas)));
        ctx.Call(SetScreenCoordinates(top.size.x, top.size.y));
        r := ResetStackingScreen(Some(top));
      } else {
        var _ := ResetStackingScreen(None);
        ctx.Call(SetCanvas(None));
        ctx.Call(SetWindowCoordinates);
        r := None;
      }
    }
  }
}
