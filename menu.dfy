/**
 * `VerticalMenu` (src/graphics/object/menu.rs): a row of vertical texts,
 * right to left, drawn into a sub-screen of their own. The menu's
 * visibility and depth are those of that sub-screen.
 */
module Menu {
  import opened Base
  import opened Graphics
  import opened Objects
  import opened SubScreens

  /** `Color::from_rgba_u32(0xff)`: opaque black. */
  const MenuBackColor: Color := Color(0.0, 0.0, 0.0, 1.0)

  function Max(a: real, b: real): real
  {
    if a >= b then a else b
  }

  /** Each item's height: its length in characters times the line height. */
  function Heights(items: seq<string>, lineHeight: real): (r: seq<real>)
    ensures |r| == |items|
    ensures forall i :: 0 <= i < |items| ==> r[i] == |items[i]| as real * lineHeight
  {
    seq(|items|, i requires 0 <= i < |items| => |items[i]| as real * lineHeight)
  }

  /** The fold of `max` over the heights, from 0. */
  function MaxFold(hs: seq<real>): (r: real)
    ensures r >= 0.0
    decreases |hs|
  {
    if hs == [] then 0.0 else Max(hs[|hs| - 1], MaxFold(hs[..|hs| - 1]))
  }

  /** The fold is the maximum: at least every height, and 0 or one of the heights. */
  lemma {:induction false} MaxFoldIsMaximum(hs: seq<real>)
    ensures forall i :: 0 <= i < |hs| ==> MaxFold(hs) >= hs[i]
    ensures MaxFold(hs) == 0.0 || exists i :: 0 <= i < |hs| && MaxFold(hs) == hs[i]
    decreases |hs|
  {
    if hs != [] {
      var n := |hs| - 1;
      var init := hs[..n];
      MaxFoldIsMaximum(init);
      assert forall i :: 0 <= i < n ==> init[i] == hs[i];
      if MaxFold(hs) != 0.0 && MaxFold(hs) != hs[n] {
        var i :| 0 <= i < n && MaxFold(init) == init[i];
        assert MaxFold(hs) == hs[i];
      }
    }
  }

  /** The tallest item, as `new` computes it for the menu's height. */
  function TallestItem(items: seq<string>, lineHeight: real): real
  {
    MaxFold(Heights(items, lineHeight))
  }

  /** The menu's area: one column per item plus the padding, as tall as the tallest item plus the padding. */
  function MenuArea(position: Point, padding: real, items: seq<string>, font: FontInformation): Rect
  {
    Rect(position.x, position.y, |items| as real * font.scale.x + padding, TallestItem(items, font.scale.y) + padding)
  }

  /** Where item `i` is placed: `i` columns left of the first item's column. */
  function ItemPosition(area: Rect, padding: real, font: FontInformation, i: nat): Point
  {
    Point(area.w - padding / 2.0 - font.scale.x - i as real * font.scale.x, padding / 2.0)
  }

  /** The `map` over the item strings in `VerticalMenu::new`, moving the column left after each item. */
  method BuildItems(area: Rect, padding: real, itemText: seq<string>, font: FontInformation)
    returns (items: seq<VerticalText>)
    ensures |items| == |itemText|
    ensures forall i :: 0 <= i < |items| ==> fresh(items[i])
    ensures forall i :: 0 <= i < |items| ==>
      items[i].GetText() == itemText[i] && items[i].GetPosition() == ItemPosition(area, padding, font, i) &&
      items[i].fontInfo == font && items[i].essential == DrawableObjectEssential(true, 0) &&
      FragmentsOf(items[i].fragments, itemText[i], font)
  {
    var textPosition := Point(area.w - padding / 2.0 - font.scale.x, padding / 2.0);
    items := [];
    var i := 0;
    while i < |itemText|
      invariant 0 <= i <= |itemText| && |items| == i
      invariant textPosition == ItemPosition(area, padding, font, i)
      invariant forall j :: 0 <= j < i ==> fresh(items[j])
      invariant forall j :: 0 <= j < i ==>
        items[j].GetText() == itemText[j] && items[j].GetPosition() == ItemPosition(area, padding, font, j) &&
        items[j].fontInfo == font && items[j].essential == DrawableObjectEssential(true, 0) &&
        FragmentsOf(items[j].fragments, itemText[j], font)
    {
      var vtext := new VerticalText(itemText[i], textPosition, 0, font);
      textPosition := Point(textPosition.x - font.scale.x, textPosition.y);
      items := items + [vtext];
      i := i + 1;
    }
  }

  /** What drawing the items issues, in order: each item's fragment loop. */
  function ItemsDrawn(items: seq<VerticalText>): seq<HostCall>
    reads items
    decreases |items|
  {
    if items == [] then []
    else
      var last := items[|items| - 1];
      ItemsDrawn(items[..|items| - 1]) + VerticalTextCalls(last.essential, last.fragments, last.param, last.rawText, last.fontInfo)
  }

  /** The loop over the items in `draw`. */
  method DrawItems(ctx: HostContext, items: seq<VerticalText>)
    modifies ctx
    ensures ctx.log == old(ctx.log) + ItemsDrawn(items)
  {
    var i := 0;
    while i < |items|
      invariant 0 <= i <= |items|
      invariant ctx.log == old(ctx.log) + ItemsDrawn(items[..i])
    {
      ghost var drawn := ItemsDrawn(items[..i]);
      ghost var next := VerticalTextCalls(items[i].essential, items[i].fragments, items[i].param, items[i].rawText, items[i].fontInfo);
      assert items[..i + 1][..i] == items[..i];
      assert ItemsDrawn(items[..i + 1]) == drawn + next;
      items[i].Draw(ctx);
      assert ctx.log == old(ctx.log) + drawn + next;
      i := i + 1;
    }
    assert items[..|items|] == items;
  }

  class VerticalMenu {
    const items: seq<VerticalText>
    const canvas: SubScreen

    /** `VerticalMenu::new`: one vertical text per string, in order, and a sub-screen covering them. */
    constructor (canvasId: CanvasId, position: Point, padding: real, itemText: seq<string>, font: FontInformation)
      ensures |items| == |itemText|
      ensures forall i :: 0 <= i < |items| ==> fresh(items[i])
      ensures forall i :: 0 <= i < |items| ==>
        items[i].GetText() == itemText[i] &&
        items[i].GetPosition() == ItemPosition(MenuArea(position, padding, itemText, font), padding, font, i)
      ensures fresh(canvas)
      ensures canvas.Value() == ScreenValue(canvasId, DrawableObjectEssential(true, 0),
                                            DefaultParam.(dest := position),
                                            Point(MenuArea(position, padding, itemText, font).w,
                                                  MenuArea(position, padding, itemText, font).h),
                                            MenuBackColor)
    {
      var area := MenuArea(position, padding, itemText, font);
      var built := BuildItems(area, padding, itemText, font);
      items := built;
      canvas := new SubScreen(canvasId, area, 0, MenuBackColor);
    }

    /**
     * `draw`: nothing while hidden; otherwise one `stack_screen` of the
     * canvas, every item, one `pop_screen`, then the canvas.
     */
    method Draw(ctx: HostContext, stacker: ScreenStacker)
      modifies ctx, stacker
      ensures !IsVisible() ==> ctx.log == old(ctx.log) && stacker.State() == old(stacker.State())
      ensures IsVisible() ==> stacker.State() == PopSpec(StackSpec(old(stacker.State()), canvas.Value())).0
      ensures IsVisible() ==> ctx.log == old(ctx.log) + SetupNewTarget(canvas.Value()) + ItemsDrawn(items)
                                         + PopCalls(StackSpec(old(stacker.State()), canvas.Value()))
                                         + [DrawCall(CanvasOf(canvas.canvas), canvas.param)]
    {
      if canvas.IsVisible() {
        stacker.StackScreen(ctx, canvas);
        DrawItems(ctx, items);
        var _ := stacker.PopScreen(ctx);
        canvas.Draw(ctx);
      }
    }

    method Hide()
      modifies canvas
      ensures canvas.Value() == old(canvas.Value()).(essential := Apply(old(canvas.essential), ComponentCall.Hide))
      ensures !IsVisible()
    {
      canvas.Hide();
    }

    method Appear()
      modifies canvas
      ensures canvas.Value() == old(canvas.Value()).(essential := Apply(old(canvas.essential), ComponentCall.Appear))
      ensures IsVisible()
    {
      canvas.Appear();
    }

    function IsVisible(): bool
      reads canvas
    {
      canvas.IsVisible()
    }

    method SetDrawingDepth(depth: Depth)
      modifies canvas
      ensures canvas.Value() == old(canvas.Value()).(essential := Apply(old(canvas.essential), ComponentCall.SetDrawingDepth(depth)))
      ensures GetDrawingDepth() == depth
    {
      canvas.SetDrawingDepth(depth);
    }

    function GetDrawingDepth(): Depth
      reads canvas
    {
      canvas.GetDrawingDepth()
    }
  }
}
