/**
 * The older revision of the drawable layer (src/graphics/mod.rs).
 *
 * Its comparators and `DrawableObjectEssential` are textually the same as
 * the later revision's and are the members of `Graphics`. What is its own
 * is an earlier `SubScreen`: a canvas with explicit `begin_drawing` and
 * `end_drawing` calls instead of a screen stack, whose `draw` issues the
 * host draw whether or not the screen is visible.
 */
module LegacyGraphics {
  import opened Base
  import opened Graphics

  class LegacySubScreen {
    /** The host canvas, created by the host from the rectangle's size. */
    const canvas: CanvasId
    var essential: DrawableObjectEssential
    var drawParam: DrawParam
    const size: Point
    const backColor: Color

    /** `SubScreen::new`: drawn at the rectangle's corner, visible, at `depth`. */
    constructor (canvas: CanvasId, pos: Rect, depth: Depth, backColor: Color)
      ensures this.canvas == canvas && this.backColor == backColor
      ensures essential == DrawableObjectEssential(true, depth)
      ensures drawParam == DefaultParam.(dest := Point(pos.x, pos.y))
      ensures size == Point(pos.w, pos.h)
    {
      this.canvas := canvas;
      essential := DrawableObjectEssential(true, depth);
      drawParam := DefaultParam.(dest := Point(pos.x, pos.y));
      size := Point(pos.w, pos.h);
      this.backColor := backColor;
    }

    /** Redirects drawing into the canvas, clears it, and sets canvas-local coordinates. */
    method BeginDrawing(ctx: HostContext)
      modifies ctx
      ensures ctx.log == old(ctx.log) + [SetCanvas(Some(canvas)), ClearTo(backColor), SetScreenCoordinates(size.x, size.y)]
    {
      ctx.Call(SetCanvas(Some(canvas)));
      ctx.Call(ClearTo(backColor));
      ctx.Call(SetScreenCoordinates(size.x, size.y));
    }

    /** Returns drawing to the window and its coordinates. */
    method EndDrawing(ctx: HostContext)
      modifies ctx
      ensures ctx.log == old(ctx.log) + [SetCanvas(None), SetWindowCoordinates]
    {
      ctx.Call(SetCanvas(None));
      ctx.Call(SetWindowCoordinates);
    }

    /** Draws the canvas at the draw parameters; the visible flag is not consulted. */
    method Draw(ctx: HostContext)
      modifies ctx
      ensures ctx.log == old(ctx.log) + [DrawCall(CanvasOf(canvas), drawParam)]
    {
      ctx.Call(DrawCall(CanvasOf(canvas), drawParam));
    }

    method Hide()
      modifies this
      ensures essential == Apply(old(essential), ComponentCall.Hide) && drawParam == old(drawParam)
    {
      essential := essential.(visible := false);
    }

    method Appear()
      modifies this
      ensures essential == Apply(old(essential), ComponentCall.Appear) && drawParam == old(drawParam)
    {
      essential := essential.(visible := true);
    }

    function IsVisible(): bool
      reads this
    {
      essential.visible
    }

    method SetDrawingDepth(depth: Depth)
      modifies this
      ensures essential == Apply(old(essential), ComponentCall.SetDrawingDepth(depth)) && drawParam == old(drawParam)
      ensures GetDrawingDepth() == depth
    {
      essential := essential.(drawingDepth := depth);
    }

    function GetDrawingDepth(): Depth
      reads this
    {
      essential.drawingDepth
    }

    method SetPosition(pos: Point)
      modifies this
      ensures drawParam == old(drawParam).(dest := pos) && essential == old(essential)
      ensures GetPosition() == pos
    {
      drawParam := drawParam.(dest := pos);
    }

    function GetPosition(): Point
      reads this
    {
      drawParam.dest
    }

    method MoveDiff(offset: Point)
      modifies this
      ensures drawParam == old(drawParam).(dest := Add(old(drawParam.dest), offset)) && essential == old(essential)
    {
      drawParam := drawParam.(dest := Point(drawParam.dest.x + offset.x, drawParam.dest.y + offset.y));
    }
  }
}
