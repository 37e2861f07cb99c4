/**
 * The debug overlay of src/debug.rs: a sub-screen showing the most recent
 * lines of text, newest at the bottom, and a global slot that holds at most
 * one such screen (`DEBUG_SCREEN`, here the field of a `DebugOverlay`).
 *
 * Each line is a `MovableText` without a position function, held as its
 * value. The line buffer drops its front only when it holds more lines than
 * the limit, so it can hold one line more than the limit.
 */
module Debug {
  import opened Base
  import opened Graphics
  import opened Objects
  import opened SubScreens

  /** `usize::MAX` on a 64-bit target. */
  const UsizeMax: nat := 0xFFFF_FFFF_FFFF_FFFF

  /**
   * `(rect.w / font.scale.y) as usize`: a saturating float-to-integer
   * conversion; a division by zero gives infinity, or NaN for 0/0, which
   * convert to `usize::MAX` and to 0.
   */
  function InitialLimit(width: real, lineHeight: real): (r: nat)
    ensures r <= UsizeMax
    ensures lineHeight != 0.0 && width / lineHeight <= 0.0 ==> r == 0
    ensures lineHeight != 0.0 && 0.0 < width / lineHeight < (UsizeMax + 1) as real ==>
      r as real <= width / lineHeight < (r + 1) as real
    ensures lineHeight != 0.0 && width / lineHeight >= (UsizeMax + 1) as real ==> r == UsizeMax
    ensures lineHeight == 0.0 ==> (r == UsizeMax <==> width > 0.0) && (r == 0 <==> width <= 0.0)
  {
    if lineHeight == 0.0 then (if width > 0.0 then UsizeMax else 0)
    else
      var q := width / lineHeight;
      if q <= 0.0 then 0 else if q.Floor > UsizeMax then UsizeMax else q.Floor
  }

  /** `Color::from_rgba_u32(0x000000a0)`: translucent black. */
  const DebugBackColor: Color := Color(0.0, 0.0, 0.0, 160.0 / 255.0)

  /** The line `push_text` creates: at the bottom left of the screen, not moving, born at tick 0. */
  function NewLine(text: string, font: FontInformation, rect: Rect): MovableState
  {
    NewTextState(text, Point(10.0, rect.h - font.scale.y - 5.0), 0, None, font, 0)
  }

  /** Every line moved up by one line height. */
  function ShiftUp(lines: seq<MovableState>, lineHeight: real): seq<MovableState>
  {
    seq(|lines|, i requires 0 <= i < |lines| => MoveDiffSpec(lines[i], Point(0.0, -lineHeight)))
  }

  /** The lines kept by `push_text`: all of them, or all but the oldest when there are more than `limit`. */
  function Kept(lines: seq<MovableState>, limit: nat): seq<MovableState>
  {
    if |lines| > limit then lines[1..] else lines
  }

  /** `push_text`: drop the front if over the limit, move the rest up, append the new line. */
  function PushSpec(lines: seq<MovableState>, limit: nat, line: MovableState, lineHeight: real): seq<MovableState>
  {
    ShiftUp(Kept(lines, limit), lineHeight) + [line]
  }

  /**
   * The shape of the buffer after `push_text`: it grows by one unless it
   * already held more than `limit` lines; the new line is last; every kept
   * line keeps its text and its place relative to the others and moves up
   * exactly one line height.
   */
  lemma PushTextShape(lines: seq<MovableState>, limit: nat, line: MovableState, lineHeight: real)
    ensures |PushSpec(lines, limit, line, lineHeight)| == if |lines| > limit then |lines| else |lines| + 1
    ensures PushSpec(lines, limit, line, lineHeight)[|PushSpec(lines, limit, line, lineHeight)| - 1] == line
    ensures var d := if |lines| > limit then 1 else 0;
      forall i :: 0 <= i < |lines| - d ==>
        PushSpec(lines, limit, line, lineHeight)[i].body == lines[i + d].body &&
        PushSpec(lines, limit, line, lineHeight)[i].param.dest == Add(lines[i + d].param.dest, Point(0.0, -lineHeight))
  {
  }

  /** The texts of the lines, oldest first. */
  function Texts(lines: seq<MovableState>): seq<Drawn>
  {
    seq(|lines|, i requires 0 <= i < |lines| => DrawnOf(lines[i].body))
  }

  lemma TextsAfterPush(lines: seq<MovableState>, limit: nat, line: MovableState, lineHeight: real)
    ensures Texts(PushSpec(lines, limit, line, lineHeight))
         == (if |lines| > limit then Texts(lines)[1..] else Texts(lines)) + [DrawnOf(line.body)]
  {
    var r := PushSpec(lines, limit, line, lineHeight);
    var expected := (if |lines| > limit then Texts(lines)[1..] else Texts(lines)) + [DrawnOf(line.body)];
    assert |Texts(r)| == |expected|;
    forall i | 0 <= i < |r|
      ensures Texts(r)[i] == expected[i]
    {
      if i < |r| - 1 {
        assert r[i].body == Kept(lines, limit)[i].body;
      }
    }
  }

  /** `push_text` for each text of `ts`, in order. */
  function PushAll(lines: seq<MovableState>, limit: nat, ts: seq<string>, font: FontInformation, rect: Rect): seq<MovableState>
    decreases |ts|
  {
    if ts == [] then lines
    else PushSpec(PushAll(lines, limit, ts[..|ts| - 1], font, rect), limit, NewLine(ts[|ts| - 1], font, rect), font.scale.y)
  }

  /** Starting with at most `limit + 1` lines, the buffer never holds more than `limit + 1`. */
  lemma {:induction false} PushAllBound(lines: seq<MovableState>, limit: nat, ts: seq<string>, font: FontInformation, rect: Rect)
    requires |lines| <= limit + 1
    ensures |PushAll(lines, limit, ts, font, rect)| <= limit + 1
    decreases |ts|
  {
    if ts != [] {
      var t := ts[|ts| - 1];
      PushAllBound(lines, limit, ts[..|ts| - 1], font, rect);
      PushTextShape(PushAll(lines, limit, ts[..|ts| - 1], font, rect), limit, NewLine(t, font, rect), font.scale.y);
    }
  }

  /** From an empty buffer, `n` pushes leave `min(n, limit + 1)` lines: the limit is exceeded by one. */
  lemma {:induction false} PushAllFromEmpty(limit: nat, ts: seq<string>, font: FontInformation, rect: Rect)
    ensures |PushAll([], limit, ts, font, rect)| == if |ts| <= limit + 1 then |ts| else limit + 1
    decreases |ts|
  {
    if ts != [] {
      var t := ts[|ts| - 1];
      PushAllFromEmpty(limit, ts[..|ts| - 1], font, rect);
      PushTextShape(PushAll([], limit, ts[..|ts| - 1], font, rect), limit, NewLine(t, font, rect), font.scale.y);
    }
  }

  lemma PushAllStep(lines: seq<MovableState>, limit: nat, ts: seq<string>, k: nat, font: FontInformation, rect: Rect)
    requires 0 < k <= |ts|
    ensures PushAll(lines, limit, ts[..k], font, rect)
         == PushSpec(PushAll(lines, limit, ts[..k - 1], font, rect), limit, NewLine(ts[k - 1], font, rect), font.scale.y)
  {
    assert ts[..k][..k - 1] == ts[..k - 1];
  }

  /** With limit 3, pushing L1 to L5 keeps the last four: L2, L3, L4, L5. */
  lemma FiveLinesWithLimitThree(font: FontInformation, rect: Rect)
    ensures Texts(PushAll([], 3, ["L1", "L2", "L3", "L4", "L5"], font, rect))
         == [TextOf("L2"), TextOf("L3"), TextOf("L4"), TextOf("L5")]
  {
    var ts := ["L1", "L2", "L3", "L4", "L5"];
    var h := font.scale.y;
    var p := [];
    assert ts[..0] == [];
    for k := 1 to 6
      invariant p == PushAll([], 3, ts[..k - 1], font, rect)
      invariant Texts(p) == seq(if k <= 5 then k - 1 else 4, i requires 0 <= i < (if k <= 5 then k - 1 else 4) =>
                                 TextOf(ts[i + (if k <= 5 then 0 else 1)]))
    {
      PushAllStep([], 3, ts, k, font, rect);
      TextsAfterPush(p, 3, NewLine(ts[k - 1], font, rect), h);
      p := PushSpec(p, 3, NewLine(ts[k - 1], font, rect), h);
    }
    assert ts[..5] == ts;
  }

  /** The host calls drawing the lines, in buffer order; each is drawn while visible. */
  function LinesDrawn(lines: seq<MovableState>): seq<HostCall>
    decreases |lines|
  {
    if lines == [] then []
    else
      var last := lines[|lines| - 1];
      LinesDrawn(lines[..|lines| - 1]) + GatedDraw(last.essential, DrawnOf(last.body), last.param)
  }

  /**
   * The host calls of `DebugScreen::draw`: one `stack_screen` of the
   * screen, the lines, one `pop_screen`, then the screen itself.
   */
  function DrawCalls(st: Targets, screen: ScreenValue, lines: seq<MovableState>): seq<HostCall>
  {
    SetupNewTarget(screen) + LinesDrawn(lines) + PopCalls(StackSpec(st, screen))
      + [DrawCall(CanvasOf(screen.canvas), screen.param)]
  }

  /**
   * Drawing the debug screen leaves the screen stack as it found it, and
   * the pop redirects drawing back to the target that was current before
   * (the window if there was none).
   */
  lemma DrawReturnsToPreviousTarget(st: Targets, screen: ScreenValue)
    requires WellStacked(st)
    ensures PopSpec(StackSpec(st, screen)).0 == st
    ensures PopCalls(StackSpec(st, screen))
         == if st.target.Some? then SetupPoppedTarget(st.target.value) else WindowTarget
  {
    StackThenPopRestores(st, screen);
  }

  /** `DebugScreen`. */
  class DebugScreen {
    const fontInfo: FontInformation
    var textLimit: nat
    var text: seq<MovableState>
    var screen: SubScreen
    const rect: Rect

    /** `DebugScreen::new`: no lines, a limit of as many lines as fit the width, a translucent black screen. */
    constructor (canvas: CanvasId, rect: Rect, fontInfo: FontInformation)
      ensures this.fontInfo == fontInfo && this.rect == rect
      ensures textLimit == InitialLimit(rect.w, fontInfo.scale.y) && text == []
      ensures fresh(screen)
      ensures screen.Value() == ScreenValue(canvas, DrawableObjectEssential(true, 0),
                                            DefaultParam.(dest := Point(rect.x, rect.y)), Point(rect.w, rect.h), DebugBackColor)
    {
      this.fontInfo := fontInfo;
      textLimit := InitialLimit(rect.w, fontInfo.scale.y);
      text := [];
      screen := new SubScreen(canvas, rect, 0, DebugBackColor);
      this.rect := rect;
    }

    /** `set_back_color`: the screen's draw colour (its background colour is not changed). */
    method SetBackColor(color: Color)
      modifies screen
      ensures screen.Value() == old(screen.Value()).(param := old(screen.param).(color := color))
      ensures text == old(text) && textLimit == old(textLimit)
    {
      screen.SetColor(color);
    }

    /** `set_text_limit`: only the limit changes; lines over it stay until the next push. */
    method SetTextLimit(limit: nat)
      modifies this
      ensures textLimit == limit && text == old(text) && screen == old(screen)
    {
      textLimit := limit;
    }

    /** `push_text`. */
    method PushText(t: string)
      modifies this
      ensures text == PushSpec(old(text), old(textLimit), NewLine(t, fontInfo, rect), fontInfo.scale.y)
      ensures textLimit == old(textLimit) && screen == old(screen)
    {
      var line := NewLine(t, fontInfo, rect);
      if |text| > textLimit {
        text := text[1..];
      }
      ghost var kept := text;
      var up := Point(0.0, -fontInfo.scale.y);
      var i := 0;
      while i < |text|
        invariant 0 <= i <= |text| && |text| == |kept|
        invariant textLimit == old(textLimit) && screen == old(screen)
        invariant forall j :: 0 <= j < i ==> text[j] == MoveDiffSpec(kept[j], up)
        invariant forall j :: i <= j < |text| ==> text[j] == kept[j]
      {
        text := text[i := MoveDiffSpec(text[i], up)];
        i := i + 1;
      }
      assert text == ShiftUp(kept, fontInfo.scale.y);
      text := text + [line];
    }

    /** `replace_screen`: a new screen for `rect`; the lines and the limit stay. */
    method ReplaceScreen(canvas: CanvasId, newRect: Rect)
      modifies this
      ensures fresh(screen) && text == old(text) && textLimit == old(textLimit)
      ensures screen.Value() == ScreenValue(canvas, DrawableObjectEssential(true, 0),
                                            DefaultParam.(dest := Point(newRect.x, newRect.y)),
                                            Point(newRect.w, newRect.h), DebugBackColor)
    {
      screen := new SubScreen(canvas, newRect, 0, DebugBackColor);
    }

    /** `draw`: stack the screen, draw every line into it, pop, then draw the screen. */
    method Draw(ctx: HostContext, stacker: ScreenStacker)
      modifies ctx, stacker
      ensures stacker.State() == PopSpec(StackSpec(old(stacker.State()), screen.Value())).0
      ensures ctx.log == old(ctx.log) + DrawCalls(old(stacker.State()), screen.Value(), text)
    {
      stacker.StackScreen(ctx, screen);
      ghost var afterSetup := ctx.log;
      var i := 0;
      while i < |text|
        invariant 0 <= i <= |text|
        invariant ctx.log == afterSetup + LinesDrawn(text[..i])
        invariant stacker.State() == StackSpec(old(stacker.State()), screen.Value())
      {
        assert text[..i + 1][..i] == text[..i];
        var line := text[i];
        if line.essential.visible {
          ctx.Call(DrawCall(DrawnOf(line.body), line.param));
        }
        i := i + 1;
      }
      assert text[..|text|] == text;
      var _ := stacker.PopScreen(ctx);
      screen.Draw(ctx);
    }

    method Hide()
      modifies screen
      ensures screen.Value() == old(screen.Value()).(essential := Apply(old(screen.essential), ComponentCall.Hide))
      ensures !IsVisible()
    {
      screen.Hide();
    }

    method Appear()
      modifies screen
      ensures screen.Value() == old(screen.Value()).(essential := Apply(old(screen.essential), ComponentCall.Appear))
      ensures IsVisible()
    {
      screen.Appear();
    }

    function IsVisible(): bool
      reads this, screen
    {
      screen.IsVisible()
    }

    method SetDrawingDepth(depth: Depth)
      modifies screen
      ensures screen.Value() == old(screen.Value()).(essential := Apply(old(screen.essential), ComponentCall.SetDrawingDepth(depth)))
      ensures GetDrawingDepth() == depth
    {
      screen.SetDrawingDepth(depth);
    }

    function GetDrawingDepth(): Depth
      reads this, screen
    {
      screen.GetDrawingDepth()
    }
  }

  /** `DEBUG_SCREEN`: no screen until `debug_screen_init`; every other call is a no-op without one. */
  class DebugOverlay {
    var debug: DebugScreen?

    constructor ()
      ensures debug == null
    {
      debug := null;
    }

    /** `debug_screen_init`: a fresh, empty screen replaces any earlier one. */
    method Init(canvas: CanvasId, rect: Rect, fontInfo: FontInformation)
      modifies this
      ensures debug != null && fresh(debug) && debug.text == [] && debug.rect == rect && debug.fontInfo == fontInfo
      ensures debug.textLimit == InitialLimit(rect.w, fontInfo.scale.y)
      ensures fresh(debug.screen)
      ensures debug.screen.Value() == ScreenValue(canvas, DrawableObjectEssential(true, 0),
                                                  DefaultParam.(dest := Point(rect.x, rect.y)),
                                                  Point(rect.w, rect.h), DebugBackColor)
    {
      debug := new DebugScreen(canvas, rect, fontInfo);
    }

    /** `debug_screen_hide`. */
    method Hide()
      modifies if debug != null then {debug.screen} else {}
      ensures debug != null ==>
        debug.screen.Value() == old(debug.screen.Value()).(essential := Apply(old(debug.screen.essential), ComponentCall.Hide))
      ensures debug != null ==> !debug.IsVisible()
      ensures debug != null ==> debug.text == old(debug.text) && debug.textLimit == old(debug.textLimit)
    {
      if debug != null {
        debug.Hide();
      }
    }

    /** `debug_screen_appear`. */
    method Appear()
      modifies if debug != null then {debug.screen} else {}
      ensures debug != null ==>
        debug.screen.Value() == old(debug.screen.Value()).(essential := Apply(old(debug.screen.essential), ComponentCall.Appear))
      ensures debug != null ==> debug.IsVisible()
      ensures debug != null ==> debug.text == old(debug.text) && debug.textLimit == old(debug.textLimit)
    {
      if debug != null {
        debug.Appear();
      }
    }

    /** `debug_screen_change_size`: a fresh screen for `rect`; the lines and the limit stay. */
    method ChangeSize(canvas: CanvasId, rect: Rect)
      modifies if debug != null then {debug} else {}
      ensures debug != null ==> fresh(debug.screen) && debug.text == old(debug.text)
      ensures debug != null ==> debug.textLimit == old(debug.textLimit)
      ensures debug != null ==>
        debug.screen.Value() == ScreenValue(canvas, DrawableObjectEssential(true, 0),
                                            DefaultParam.(dest := Point(rect.x, rect.y)),
                                            Point(rect.w, rect.h), DebugBackColor)
    {
      if debug != null {
        debug.ReplaceScreen(canvas, rect);
      }
    }

    /** `debug_screen_push_text`: the line goes through the screen's `push_text`; limit and screen stay. */
    method PushText(t: string)
      modifies if debug != null then {debug} else {}
      ensures debug != null ==>
        debug.text == PushSpec(old(debug.text), old(debug.textLimit), NewLine(t, debug.fontInfo, debug.rect),
                               debug.fontInfo.scale.y)
      ensures debug != null ==> debug.textLimit == old(debug.textLimit) && debug.screen == old(debug.screen)
    {
      if debug != null {
        debug.PushText(t);
      }
    }

    /** `debug_screen_change_color`: the screen's draw colour; its background colour, lines and limit stay. */
    method ChangeColor(color: Color)
      modifies if debug != null then {debug.screen} else {}
      ensures debug != null ==>
        debug.screen.Value() == old(debug.screen.Value()).(param := old(debug.screen.param).(color := color))
      ensures debug != null ==> debug.screen.GetColor() == color
      ensures debug != null ==> debug.text == old(debug.text) && debug.textLimit == old(debug.textLimit)
    {
      if debug != null {
        debug.SetBackColor(color);
      }
    }

    /** `debug_screen_set_limit`: only the limit changes. */
    method SetLimit(limit: nat)
      modifies if debug != null then {debug} else {}
      ensures debug != null ==> debug.textLimit == limit && debug.text == old(debug.text)
      ensures debug != null ==> debug.screen == old(debug.screen)
    {
      if debug != null {
        debug.SetTextLimit(limit);
      }
    }

    /** `debug_screen_draw`: without a screen, no host call is made. */
    method Draw(ctx: HostContext, stacker: ScreenStacker)
      modifies ctx, stacker
      ensures debug == null ==> ctx.log == old(ctx.log) && stacker.State() == old(stacker.State())
      ensures debug != null ==> ctx.log == old(ctx.log) + DrawCalls(old(stacker.State()), debug.screen.Value(), debug.text)
      ensures debug != null ==> stacker.State() == PopSpec(StackSpec(old(stacker.State()), debug.screen.Value())).0
      ensures WellStacked(old(stacker.State())) ==> stacker.State() == old(stacker.State())
    {
      if debug != null {
        ghost var before := stacker.State();
        debug.Draw(ctx, stacker);
        if WellStacked(before) {
          DrawReturnsToPreviousTarget(before, debug.screen.Value());
        }
      }
    }
  }
}
