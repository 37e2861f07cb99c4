/**
 * The drawable objects of src/graphics/object.rs: a plain texture, the
 * movable objects that follow a position function of elapsed ticks, the
 * wrapper that applies a list of effects every tick, and vertical text.
 *
 * A movable object's state is a value, `MovableState`, because the effects
 * of an `EffectableWrap` receive the object itself and may change it: an
 * effect is a function from the object's state to its new state and a
 * status. `MovableUniTexture`, `MovableText` and `MovableWrap` implement the
 * movable traits with the same bodies and differ only in what they own and
 * in what they report as their birth time; they are one class, `Movable`,
 * whose `Body` says which of the three it is.
 */
module Objects {
  import opened Base
  import opened Graphics

  /** What an effect reports after running: keep me, or drop me. */
  datatype EffectFnStatus = EffectContinue | EffectFinish

  /** `FontInformation`: the font, its scale and the text colour. */
  datatype FontInformation = FontInformation(font: FontId, scale: Point, color: Color)

  /**
   * What a position function can observe of the object it moves (the
   * `&dyn MovableObject` it is given): the getters, read before the move.
   */
  datatype ObjectView = ObjectView(
    position: Point, visible: bool, depth: Depth,
    mfSetTime: Clock, stopped: bool, birthTime: Clock)

  /** A position function: the object and the ticks since it was set. */
  type MoveFn = (ObjectView, Clock) -> Point

  /** `MovableEssential`: the position function, the tick it was set, the initial position. */
  datatype MovableEssential = MovableEssential(moveFunc: Option<MoveFn>, mfSetTime: Clock, initPosition: Point)

  /** `MovableEssential::clone(f)`: a copy that follows `f`, with the same timing and origin. */
  function CloneEssential(m: MovableEssential, f: Option<MoveFn>): (r: MovableEssential)
    ensures r == m.(moveFunc := f)
    ensures r.mfSetTime == m.mfSetTime && r.initPosition == m.initPosition
  {
    MovableEssential(f, m.mfSetTime, m.initPosition)
  }

  /* ---------------- Drawing gated by visibility ---------------- */

  /** The host calls of a `draw` that draws only when the object is visible. */
  function GatedDraw(e: DrawableObjectEssential, what: Drawn, p: DrawParam): (r: seq<HostCall>)
    ensures e.visible <==> r == [DrawCall(what, p)]
    ensures !e.visible <==> r == []
  {
    if e.visible then [DrawCall(what, p)] else []
  }

  /** After a `hide` and no later `appear`, a gated `draw` issues no host call. */
  lemma HiddenObjectDrawsNothing(e: DrawableObjectEssential, cs: seq<ComponentCall>, i: nat, what: Drawn, p: DrawParam)
    requires i < |cs| && cs[i].Hide?
    requires forall j :: i < j < |cs| ==> !cs[j].Appear?
    ensures GatedDraw(Run(e, cs), what, p) == []
  {
    HiddenUntilAppear(e, cs, i);
  }

  /** After an `appear` and no later `hide`, a gated `draw` issues exactly one host draw. */
  lemma AppearedObjectDraws(e: DrawableObjectEssential, cs: seq<ComponentCall>, i: nat, what: Drawn, p: DrawParam)
    requires i < |cs| && cs[i].Appear?
    requires forall j :: i < j < |cs| ==> !cs[j].Hide?
    ensures GatedDraw(Run(e, cs), what, p) == [DrawCall(what, p)]
  {
    VisibleUntilHide(e, cs, i);
  }

  /* ---------------- UniTexture ---------------- */

  /** `UniTexture`: an image drawn at its draw parameters while visible. */
  class UniTexture {
    const image: ImageId
    var essential: DrawableObjectEssential
    var param: DrawParam

    /** `UniTexture::new`: visible, at `pos`, at `depth`. */
    constructor (image: ImageId, pos: Point, depth: Depth)
      ensures this.image == image
      ensures essential == DrawableObjectEssential(true, depth)
      ensures param == DefaultParam.(dest := pos)
    {
      this.image := image;
      essential := DrawableObjectEssential(true, depth);
      param := DefaultParam.(dest := pos);
    }

    method Draw(ctx: HostContext)
      modifies ctx
      ensures ctx.log == old(ctx.log) + GatedDraw(essential, ImageOf(image), param)
    {
      if essential.visible {
        ctx.Call(DrawCall(ImageOf(image), param));
      }
    }

    method Hide()
      modifies this
      ensures essential == Apply(old(essential), ComponentCall.Hide) && param == old(param)
      ensures !IsVisible()
    {
      essential := essential.(visible := false);
    }

    method Appear()
      modifies this
      ensures essential == Apply(old(essential), ComponentCall.Appear) && param == old(param)
      ensures IsVisible()
    {
      essential := essential.(visible := true);
    }

    function IsVisible(): bool
      reads this
    {
      essential.visible
    }

    method SetDrawingDepth(depth: Depth)
      modifies this
      ensures essential == Apply(old(essential), ComponentCall.SetDrawingDepth(depth)) && param == old(param)
      ensures GetDrawingDepth() == depth && IsVisible() == old(IsVisible())
    {
      essential := essential.(drawingDepth := depth);
    }

    function GetDrawingDepth(): Depth
      reads this
    {
      essential.drawingDepth
    }

    method SetPosition(pos: Point)
      modifies this
      ensures param == old(param).(dest := pos) && essential == old(essential)
      ensures GetPosition() == pos
    {
      param := param.(dest := pos);
    }

    function GetPosition(): Point
      reads this
    {
      param.dest
    }

    method MoveDiff(offset: Point)
      modifies this
      ensures param == old(param).(dest := Add(old(param.dest), offset)) && essential == old(essential)
    {
      param := param.(dest := Point(param.dest.x + offset.x, param.dest.y + offset.y));
    }
  }

  /* ---------------- Movable objects as values ---------------- */

  /** What a movable object owns besides its drawable and movable records. */
  datatype Body =
    | TextureBody(image: ImageId, birthTime: Clock)              // MovableUniTexture
    | TextBody(text: string, font: FontInformation, birthTime: Clock) // MovableText
    | WrapBody(wrapped: Drawn)                                   // MovableWrap around a texture

  /**
   * The state of a movable object. For a `MovableWrap` the drawable record
   * and the draw parameters are those of the wrapped texture, to which every
   * drawable call is forwarded.
   */
  datatype MovableState = MovableState(
    body: Body, essential: DrawableObjectEssential, param: DrawParam, mv: MovableEssential)

  /** What `draw` draws. */
  function DrawnOf(b: Body): Drawn
  {
    match b
    case TextureBody(image, _) => ImageOf(image)
    case TextBody(text, _, _) => TextOf(text)
    case WrapBody(wrapped) => wrapped
  }

  /**
   * `get_birth_time`: the construction tick for a texture or a text, but
   * the tick the position function was last set for a `MovableWrap`.
   */
  function BirthTime(m: MovableState): (r: Clock)
    ensures m.body.WrapBody? ==> r == m.mv.mfSetTime
    ensures !m.body.WrapBody? ==> r == m.body.birthTime
  {
    match m.body
    case TextureBody(_, b) => b
    case TextBody(_, _, b) => b
    case WrapBody(_) => m.mv.mfSetTime
  }

  function ViewOf(m: MovableState): ObjectView
  {
    ObjectView(m.param.dest, m.essential.visible, m.essential.drawingDepth,
               m.mv.mfSetTime, m.mv.moveFunc.None?, BirthTime(m))
  }

  /** A drawable call (hide, appear, set_drawing_depth) on a movable object. */
  function ApplyCall(m: MovableState, c: ComponentCall): (r: MovableState)
    ensures r.essential == Apply(m.essential, c)
    ensures r.body == m.body && r.param == m.param && r.mv == m.mv
  {
    m.(essential := Apply(m.essential, c))
  }

  /** `set_position`: only the destination changes. */
  function SetPositionSpec(m: MovableState, pos: Point): (r: MovableState)
    ensures r.param.dest == pos && r.param.color == m.param.color
    ensures r.body == m.body && r.essential == m.essential && r.mv == m.mv
  {
    m.(param := m.param.(dest := pos))
  }

  /** `move_diff`: the destination moves by `offset`. */
  function MoveDiffSpec(m: MovableState, offset: Point): (r: MovableState)
    ensures r == SetPositionSpec(m, Add(m.param.dest, offset))
  {
    m.(param := m.param.(dest := Point(m.param.dest.x + offset.x, m.param.dest.y + offset.y)))
  }

  /**
   * The elapsed time `t - mf_set_time` is a `u64` subtraction: a caller
   * moving an object with a position function must not pass a tick before
   * the one the function was set at.
   */
  predicate CanMove(m: MovableState, t: Clock)
  {
    m.mv.moveFunc.None? || m.mv.mfSetTime <= t
  }

  /**
   * `move_with_func(t)`: with no position function nothing changes; with
   * one, the position becomes its value on the object and the ticks elapsed
   * since it was set, and nothing else changes.
   */
  function MoveWithFuncSpec(m: MovableState, t: Clock): (r: MovableState)
    requires CanMove(m, t)
    ensures m.mv.moveFunc.None? ==> r == m
    ensures m.mv.moveFunc.Some? ==> r.param.dest == m.mv.moveFunc.value(ViewOf(m), t - m.mv.mfSetTime)
    ensures r.body == m.body && r.essential == m.essential && r.mv == m.mv && r.param.color == m.param.color
  {
    match m.mv.moveFunc
    case None => m
    case Some(f) => SetPositionSpec(m, f(ViewOf(m), t - m.mv.mfSetTime))
  }

  /**
   * `override_move_func(f, now)`: the object follows `f` from tick `now`;
   * its timing becomes `now`, it is stopped exactly when `f` is None, and
   * its position and initial position are kept.
   */
  function OverrideSpec(m: MovableState, f: Option<MoveFn>, now: Clock): (r: MovableState)
    ensures r.mv.mfSetTime == now && (r.mv.moveFunc.None? <==> f.None?) && r.mv.moveFunc == f
    ensures r.mv.initPosition == m.mv.initPosition
    ensures r.body == m.body && r.essential == m.essential && r.param == m.param
  {
    m.(mv := MovableEssential(f, now, m.mv.initPosition))
  }

  /** Right after an override at `now`, moving `d` ticks later evaluates the new function at `d`. */
  lemma OverrideRestartsTheClock(m: MovableState, f: MoveFn, now: Clock, d: nat)
    ensures CanMove(OverrideSpec(m, Some(f), now), now + d)
    ensures MoveWithFuncSpec(OverrideSpec(m, Some(f), now), now + d).param.dest
         == f(ViewOf(OverrideSpec(m, Some(f), now)), d)
  {
  }

  /** Overriding with None stops the object: later moves change nothing, at any tick. */
  lemma StoppedObjectStaysPut(m: MovableState, now: Clock, t: Clock)
    ensures CanMove(OverrideSpec(m, None, now), t)
    ensures MoveWithFuncSpec(OverrideSpec(m, None, now), t) == OverrideSpec(m, None, now)
  {
  }

  /**
   * A `MovableWrap`'s birth time follows every override, while a texture's
   * or a text's stays the tick it was built at.
   */
  lemma BirthTimeUnderOverride(m: MovableState, f: Option<MoveFn>, now: Clock)
    ensures m.body.WrapBody? ==> BirthTime(OverrideSpec(m, f, now)) == now
    ensures !m.body.WrapBody? ==> BirthTime(OverrideSpec(m, f, now)) == BirthTime(m)
  {
  }

  /**
   * `boxed_movable_object_sort_with_depth`: the deeper object sorts first;
   * it is the drawable comparator on the two objects' depths.
   */
  function BoxedMovableObjectSortWithDepth(a: MovableState, b: MovableState): (r: Ordering)
    ensures r == Less <==> a.essential.drawingDepth > b.essential.drawingDepth
    ensures r == Greater <==> a.essential.drawingDepth < b.essential.drawingDepth
    ensures r == Equal <==> a.essential.drawingDepth == b.essential.drawingDepth
    ensures r == DrawableObjectSortWithDepth(a.essential.drawingDepth, b.essential.drawingDepth)
  {
    var (ad, bd) := (a.essential.drawingDepth, b.essential.drawingDepth);
    if ad > bd then Less else if ad < bd then Greater else Equal
  }

  /** The state `MovableText::new` builds: visible, at `pos`, in the font's colour, born at `now`. */
  function NewTextState(text: string, pos: Point, depth: Depth, mf: Option<MoveFn>, font: FontInformation, now: Clock): (r: MovableState)
    ensures DrawnOf(r.body) == TextOf(text) && BirthTime(r) == now && r.essential.visible
    ensures r.param.dest == pos && r.param.color == font.color && r.mv.initPosition == pos
  {
    MovableState(TextBody(text, font, now), DrawableObjectEssential(true, depth),
                 DrawParam(pos, font.color), MovableEssential(mf, now, pos))
  }

  /* ---------------- The movable objects ---------------- */

  /** `MovableUniTexture`, `MovableText` or `MovableWrap`, as its `body` says. */
  class Movable {
    var body: Body
    var essential: DrawableObjectEssential
    var param: DrawParam
    var mv: MovableEssential

    function State(): MovableState
      reads this
    {
      MovableState(body, essential, param, mv)
    }

    /** `MovableUniTexture::new`: visible, at `pos`, following `mf` from `now`, born at `now`. */
    constructor NewUniTexture(image: ImageId, pos: Point, depth: Depth, mf: Option<MoveFn>, now: Clock)
      ensures State() == MovableState(TextureBody(image, now), DrawableObjectEssential(true, depth),
                                      DefaultParam.(dest := pos), MovableEssential(mf, now, pos))
    {
      body := TextureBody(image, now);
      essential := DrawableObjectEssential(true, depth);
      param := DefaultParam.(dest := pos);
      mv := MovableEssential(mf, now, pos);
    }

    /** `MovableText::new`: as a texture, and drawn in the font's colour. */
    constructor NewText(text: string, pos: Point, depth: Depth, mf: Option<MoveFn>, font: FontInformation, now: Clock)
      ensures State() == NewTextState(text, pos, depth, mf, font, now)
    {
      body := TextBody(text, font, now);
      essential := DrawableObjectEssential(true, depth);
      param := DrawParam(pos, font.color);
      mv := MovableEssential(mf, now, pos);
    }

    /** `MovableWrap::new`: takes over the texture's state; its initial position is the texture's position. */
    constructor NewWrap(texture: UniTexture, mf: Option<MoveFn>, t: Clock)
      ensures State() == MovableState(WrapBody(ImageOf(texture.image)), texture.essential,
                                      texture.param, MovableEssential(mf, t, texture.param.dest))
    {
      body := WrapBody(ImageOf(texture.image));
      essential := texture.essential;
      param := texture.param;
      mv := MovableEssential(mf, t, texture.param.dest);
    }

    method Draw(ctx: HostContext)
      modifies ctx
      ensures ctx.log == old(ctx.log) + GatedDraw(essential, DrawnOf(body), param)
    {
      if essential.visible {
        ctx.Call(DrawCall(DrawnOf(body), param));
      }
    }

    method Hide()
      modifies this
      ensures State() == ApplyCall(old(State()), ComponentCall.Hide)
      ensures !IsVisible()
    {
      essential := essential.(visible := false);
    }

    method Appear()
      modifies this
      ensures State() == ApplyCall(old(State()), ComponentCall.Appear)
      ensures IsVisible()
    {
      essential := essential.(visible := true);
    }

    function IsVisible(): bool
      reads this
    {
      essential.visible
    }

    method SetDrawingDepth(depth: Depth)
      modifies this
      ensures State() == ApplyCall(old(State()), ComponentCall.SetDrawingDepth(depth))
      ensures GetDrawingDepth() == depth
    {
      essential := essential.(drawingDepth := depth);
    }

    function GetDrawingDepth(): Depth
      reads this
    {
      essential.drawingDepth
    }

    method SetPosition(pos: Point)
      modifies this
      ensures State() == SetPositionSpec(old(State()), pos)
      ensures GetPosition() == pos
    {
      param := param.(dest := pos);
    }

    function GetPosition(): Point
      reads this
    {
      param.dest
    }

    method MoveDiff(offset: Point)
      modifies this
      ensures State() == MoveDiffSpec(old(State()), offset)
    {
      param := param.(dest := Point(param.dest.x + offset.x, param.dest.y + offset.y));
    }

    function GetBirthTime(): (r: Clock)
      reads this
      ensures r == BirthTime(State())
    {
      match body
      case TextureBody(_, b) => b
      case TextBody(_, _, b) => b
      case WrapBody(_) => mv.mfSetTime
    }

    method MoveWithFunc(t: Clock)
      requires CanMove(State(), t)
      modifies this
      ensures State() == MoveWithFuncSpec(old(State()), t)
    {
      if mv.moveFunc.Some? {
        var f := mv.moveFunc.value;
        param := param.(dest := f(ViewOf(State()), t - mv.mfSetTime));
      }
    }

    method OverrideMoveFunc(f: Option<MoveFn>, now: Clock)
      modifies this
      ensures State() == OverrideSpec(old(State()), f, now)
      ensures MfStartTiming() == now && (IsStop() <==> f.None?)
    {
      mv := mv.(moveFunc := f, mfSetTime := now);
    }

    function MfStartTiming(): Clock
      reads this
    {
      mv.mfSetTime
    }

    function IsStop(): bool
      reads this
    {
      mv.moveFunc.None?
    }

    /** `MovableText::get_text`. */
    function GetText(): string
      requires body.TextBody?
      reads this
    {
      body.text
    }

    /** `MovableText::replace_text`: a new text, the font and its colour re-applied. */
    method ReplaceText(text: string)
      requires body.TextBody?
      modifies this
      ensures body == old(body).(text := text) && GetText() == text
      ensures param == old(param).(color := body.font.color)
      ensures essential == old(essential) && mv == old(mv)
    {
      body := body.(text := text);
      param := param.(color := body.font.color);
    }
  }

  /* ---------------- Effects ---------------- */

  /**
   * `GenericEffectFn`: given the wrapped object and the tick, an effect
   * changes the object as it likes and says whether to keep it.
   */
  type EffectFn = (MovableState, Clock) -> (MovableState, EffectFnStatus)

  /** The object after running the effects in order, ignoring what they report. */
  function FirstPass(m: MovableState, fs: seq<EffectFn>, t: Clock): MovableState
    decreases |fs|
  {
    if fs == [] then m else fs[|fs| - 1](FirstPass(m, fs[..|fs| - 1], t), t).0
  }

  /** Whether the `i`-th effect, run on the object as the effects before it have left it, says keep me. */
  predicate Continues(m: MovableState, fs: seq<EffectFn>, t: Clock, i: nat)
    requires i < |fs|
  {
    fs[i](FirstPass(m, fs[..i], t), t).1 != EffectFinish
  }

  /** The effects a `retain` pass over `fs`, starting from `m`, keeps. */
  function RetainList(m: MovableState, fs: seq<EffectFn>, t: Clock): (r: seq<EffectFn>)
    ensures |r| <= |fs|
    decreases |fs|
  {
    if fs == [] then []
    else
      var prev := RetainList(m, fs[..|fs| - 1], t);
      if Continues(m, fs, t, |fs| - 1) then prev + [fs[|fs| - 1]] else prev
  }

  /** The positions in `fs` of the effects that `retain` keeps. */
  function KeptIndices(m: MovableState, fs: seq<EffectFn>, t: Clock): seq<nat>
    decreases |fs|
  {
    if fs == [] then []
    else
      var prev := KeptIndices(m, fs[..|fs| - 1], t);
      if Continues(m, fs, t, |fs| - 1) then prev + [|fs| - 1] else prev
  }

  /**
   * `effect(t)`: every effect runs once in order, then `retain` runs every
   * effect a second time, in order, on the object as the first pass left
   * it, and keeps those that did not report `EffectFinish`.
   */
  function EffectSpec(m: MovableState, fs: seq<EffectFn>, t: Clock): (MovableState, seq<EffectFn>)
  {
    var m1 := FirstPass(m, fs, t);
    (FirstPass(m1, fs, t), RetainList(m1, fs, t))
  }

  /** Running `a` then `b` is running `a + b`. */
  lemma {:induction false} FirstPassAppend(m: MovableState, a: seq<EffectFn>, b: seq<EffectFn>, t: Clock)
    ensures FirstPass(m, a + b, t) == FirstPass(FirstPass(m, a, t), b, t)
    decreases |b|
  {
    if b == [] {
      assert a + b == a;
    } else {
      var n := |b| - 1;
      assert (a + b)[..|a + b| - 1] == a + b[..n];
      assert (a + b)[|a + b| - 1] == b[n];
      FirstPassAppend(m, a, b[..n], t);
    }
  }

  /** A prefix of the effects sees the same states as the whole list. */
  lemma FirstPassPrefix(m: MovableState, fs: seq<EffectFn>, t: Clock, n: nat, i: nat)
    requires i < n <= |fs|
    ensures Continues(m, fs[..n], t, i) == Continues(m, fs, t, i)
  {
    assert fs[..n][..i] == fs[..i];
    assert fs[..n][i] == fs[i];
  }

  /**
   * One `effect` call runs the whole effect list twice: the object ends as
   * if the list had run two times in a row.
   */
  lemma EffectRunsListTwice(m: MovableState, fs: seq<EffectFn>, t: Clock)
    ensures EffectSpec(m, fs, t).0 == FirstPass(m, fs + fs, t)
  {
    FirstPassAppend(m, fs, fs, t);
  }

  /**
   * After `retain`, the list holds exactly the effects whose second run
   * reported `EffectContinue`, in their original relative order.
   */
  lemma {:induction false} RetainKeepsExactlyContinuing(m: MovableState, fs: seq<EffectFn>, t: Clock)
    ensures |RetainList(m, fs, t)| == |KeptIndices(m, fs, t)|
    ensures forall j :: 0 <= j < |KeptIndices(m, fs, t)| ==>
      KeptIndices(m, fs, t)[j] < |fs| && RetainList(m, fs, t)[j] == fs[KeptIndices(m, fs, t)[j]]
    ensures forall j, k :: 0 <= j < k < |KeptIndices(m, fs, t)| ==> KeptIndices(m, fs, t)[j] < KeptIndices(m, fs, t)[k]
    ensures forall i :: 0 <= i < |fs| ==> (i in KeptIndices(m, fs, t) <==> Continues(m, fs, t, i))
    decreases |fs|
  {
    if fs != [] {
      var n := |fs| - 1;
      var pre := fs[..n];
      RetainKeepsExactlyContinuing(m, pre, t);
      forall i | 0 <= i < n
        ensures Continues(m, pre, t, i) == Continues(m, fs, t, i)
      {
        FirstPassPrefix(m, fs, t, n, i);
      }
      forall j | 0 <= j < |KeptIndices(m, pre, t)|
        ensures fs[KeptIndices(m, pre, t)[j]] == pre[KeptIndices(m, pre, t)[j]]
      {
      }
    }
  }

  /** When every second run says keep me, `retain` keeps the whole list. */
  lemma {:induction false} AllContinuingKeepsAll(m: MovableState, fs: seq<EffectFn>, t: Clock)
    requires forall i :: 0 <= i < |fs| ==> Continues(m, fs, t, i)
    ensures RetainList(m, fs, t) == fs
    decreases |fs|
  {
    if fs != [] {
      var n := |fs| - 1;
      forall i | 0 <= i < n
        ensures Continues(m, fs[..n], t, i)
      {
        FirstPassPrefix(m, fs, t, n, i);
      }
      AllContinuingKeepsAll(m, fs[..n], t);
      assert fs[..n] + [fs[n]] == fs;
    }
  }

  /** When every second run says drop me, `retain` empties the list. */
  lemma {:induction false} NoneContinuingEmptiesList(m: MovableState, fs: seq<EffectFn>, t: Clock)
    requires forall i :: 0 <= i < |fs| ==> !Continues(m, fs, t, i)
    ensures RetainList(m, fs, t) == []
    decreases |fs|
  {
    if fs != [] {
      var n := |fs| - 1;
      forall i | 0 <= i < n
        ensures !Continues(m, fs[..n], t, i)
      {
        FirstPassPrefix(m, fs, t, n, i);
      }
      NoneContinuingEmptiesList(m, fs[..n], t);
    }
  }

  /** A single effect: the object goes through it twice, and it stays if its second run says so. */
  lemma SingleEffectRunsTwice(m: MovableState, f: EffectFn, t: Clock)
    ensures EffectSpec(m, [f], t).0 == f(f(m, t).0, t).0
    ensures EffectSpec(m, [f], t).1 == if f(f(m, t).0, t).1 != EffectFinish then [f] else []
  {
    assert [f][..0] == [];
    assert FirstPass(m, [f], t) == f(m, t).0;
    assert FirstPass(f(m, t).0, [f], t) == f(f(m, t).0, t).0;
  }

  /** An effect that moves the object by `d` each time it runs. */
  function Shift(d: Point, status: EffectFnStatus): EffectFn
  {
    (s: MovableState, t: Clock) => (MoveDiffSpec(s, d), status)
  }

  /**
   * A shifting effect moves the object by twice its offset in one `effect`
   * call; a one-shot shift (reporting `EffectFinish`) is dropped, but only
   * after moving the object twice.
   */
  lemma ShiftMovesTwice(m: MovableState, d: Point, status: EffectFnStatus, t: Clock)
    ensures EffectSpec(m, [Shift(d, status)], t).0.param.dest == Add(Add(m.param.dest, d), d)
    ensures status == EffectContinue ==> EffectSpec(m, [Shift(d, status)], t).1 == [Shift(d, status)]
    ensures status == EffectFinish ==> EffectSpec(m, [Shift(d, status)], t).1 == []
  {
    SingleEffectRunsTwice(m, Shift(d, status), t);
  }

  /* ---------------- EffectableWrap ---------------- */

  /** `EffectableWrap`: a movable object and the effects applied to it. */
  class EffectableWrap {
    var movable: MovableState
    var effects: seq<EffectFn>

    /** `EffectableWrap::new`. */
    constructor (movable: MovableState, effects: seq<EffectFn>)
      ensures this.movable == movable && this.effects == effects
    {
      this.movable := movable;
      this.effects := effects;
    }

    method Draw(ctx: HostContext)
      modifies ctx
      ensures ctx.log == old(ctx.log) + GatedDraw(movable.essential, DrawnOf(movable.body), movable.param)
    {
      if movable.essential.visible {
        ctx.Call(DrawCall(DrawnOf(movable.body), movable.param));
      }
    }

    method Hide()
      modifies this
      ensures movable == ApplyCall(old(movable), ComponentCall.Hide) && effects == old(effects)
    {
      movable := movable.(essential := movable.essential.(visible := false));
    }

    method Appear()
      modifies this
      ensures movable == ApplyCall(old(movable), ComponentCall.Appear) && effects == old(effects)
    {
      movable := movable.(essential := movable.essential.(visible := true));
    }

    function IsVisible(): bool
      reads this
    {
      movable.essential.visible
    }

    method SetDrawingDepth(depth: Depth)
      modifies this
      ensures movable == ApplyCall(old(movable), ComponentCall.SetDrawingDepth(depth)) && effects == old(effects)
      ensures GetDrawingDepth() == depth
    {
      movable := movable.(essential := movable.essential.(drawingDepth := depth));
    }

    function GetDrawingDepth(): Depth
      reads this
    {
      movable.essential.drawingDepth
    }

    method SetPosition(pos: Point)
      modifies this
      ensures movable == SetPositionSpec(old(movable), pos) && effects == old(effects)
    {
      movable := movable.(param := movable.param.(dest := pos));
    }

    function GetPosition(): Point
      reads this
    {
      movable.param.dest
    }

    method MoveDiff(offset: Point)
      modifies this
      ensures movable == MoveDiffSpec(old(movable), offset) && effects == old(effects)
    {
      movable := MoveDiffSpec(movable, offset);
    }

    /** Forwarded to the wrapped object. */
    function GetBirthTime(): (r: Clock)
      reads this
      ensures r == BirthTime(movable)
    {
      BirthTime(movable)
    }

    /** Forwarded to the wrapped object. */
    method MoveWithFunc(t: Clock)
      requires CanMove(movable, t)
      modifies this
      ensures movable == MoveWithFuncSpec(old(movable), t) && effects == old(effects)
    {
      movable := MoveWithFuncSpec(movable, t);
    }

    /** Forwarded to the wrapped object. */
    method OverrideMoveFunc(f: Option<MoveFn>, now: Clock)
      modifies this
      ensures movable == OverrideSpec(old(movable), f, now) && effects == old(effects)
      ensures MfStartTiming() == now && (IsStop() <==> f.None?)
    {
      movable := OverrideSpec(movable, f, now);
    }

    function MfStartTiming(): Clock
      reads this
    {
      movable.mv.mfSetTime
    }

    function IsStop(): bool
      reads this
    {
      movable.mv.moveFunc.None?
    }

    /** `add_effect`: the new effects go after the existing ones. */
    method AddEffect(l: seq<EffectFn>)
      modifies this
      ensures effects == old(effects) + l && movable == old(movable)
    {
      effects := effects + l;
    }

    /** `clear_effect`. */
    method ClearEffect()
      modifies this
      ensures effects == [] && movable == old(movable)
    {
      effects := [];
    }

    /** `effect(t)`: a pass over the list, then a `retain` pass over it. */
    method Effect(t: Clock)
      modifies this
      ensures (movable, effects) == EffectSpec(old(movable), old(effects), t)
    {
      var fs := effects;
      var i := 0;
      while i < |fs|
        invariant 0 <= i <= |fs| && effects == fs
        invariant movable == FirstPass(old(movable), fs[..i], t)
      {
        assert fs[..i + 1][..i] == fs[..i];
        movable := fs[i](movable, t).0;
        i := i + 1;
      }
      assert fs[..|fs|] == fs;
      ghost var m1 := movable;
      var kept := [];
      i := 0;
      while i < |fs|
        invariant 0 <= i <= |fs|
        invariant movable == FirstPass(m1, fs[..i], t)
        invariant kept == RetainList(m1, fs[..i], t)
      {
        assert fs[..i + 1][..i] == fs[..i];
        assert fs[..i + 1][i] == fs[i];
        var (next, status) := fs[i](movable, t);
        movable := next;
        if status != EffectFinish {
          kept := kept + [fs[i]];
        }
        i := i + 1;
      }
      effects := kept;
    }
  }

  /* ---------------- VerticalText ---------------- */

  /** One glyph of a vertical text: a character set in the text's font. */
  datatype Fragment = Fragment(ch: char, font: FontId, scale: Point)

  /** One fragment per character of `text`, in order, each set in `info`'s font and scale. */
  predicate FragmentsOf(fragments: seq<Fragment>, text: string, info: FontInformation)
  {
    |fragments| == |text| &&
    forall i :: 0 <= i < |text| ==> fragments[i] == Fragment(text[i], info.font, info.scale)
  }

  /** The loop over `text.chars()` in `VerticalText::new` and `replace_text`. */
  method BuildFragments(text: string, info: FontInformation) returns (fragments: seq<Fragment>)
    ensures FragmentsOf(fragments, text, info)
  {
    fragments := [];
    var i := 0;
    while i < |text|
      invariant 0 <= i <= |text|
      invariant FragmentsOf(fragments, text[..i], info)
    {
      fragments := fragments + [Fragment(text[i], info.font, info.scale)];
      i := i + 1;
    }
    assert text[..|text|] == text;
  }

  /**
   * The host calls of the fragment loop in `VerticalText::draw`: while the
   * remaining height is at least one line, a fragment is drawn and the
   * destination moves one line down; the loop stops at the first fragment
   * for which less than a line of height remains.
   */
  function FragmentDraws(fs: seq<Fragment>, p: DrawParam, step: real, height: real): (r: seq<HostCall>)
    ensures |r| <= |fs|
    decreases |fs|
  {
    if fs == [] || height < step then []
    else [DrawCall(TextOf([fs[0].ch]), p)] + FragmentDraws(fs[1..], p.(dest := Point(p.dest.x, p.dest.y + step)), step, height - step)
  }

  /** `n as f32 * y`, as `n` lines of height `y` laid end to end. */
  function Scaled(n: nat, y: real): (r: real)
    ensures y >= 0.0 ==> r >= 0.0
    ensures y > 0.0 ==> (r >= y <==> n > 0)
  {
    if n == 0 then 0.0 else Scaled(n - 1, y) + y
  }

  /**
   * What `VerticalText::draw` issues: nothing while hidden; otherwise the
   * fragment loop, starting from a height of the text's length in lines.
   */
  function VerticalTextCalls(e: DrawableObjectEssential, fs: seq<Fragment>, p: DrawParam, text: string,
                             info: FontInformation): seq<HostCall>
  {
    if e.visible then FragmentDraws(fs, p, info.scale.y, Scaled(|text|, info.scale.y)) else []
  }

  /**
   * With a positive line height and at least as many lines of height as
   * fragments, every fragment is drawn, the `i`-th one `i` lines below the
   * destination.
   */
  lemma {:induction false} AllFragmentsDrawn(fs: seq<Fragment>, p: DrawParam, step: real, k: nat)
    requires step > 0.0 && |fs| <= k
    ensures |FragmentDraws(fs, p, step, Scaled(k, step))| == |fs|
    ensures forall i :: 0 <= i < |fs| ==>
      FragmentDraws(fs, p, step, Scaled(k, step))[i]
        == DrawCall(TextOf([fs[i].ch]), p.(dest := Point(p.dest.x, p.dest.y + Scaled(i, step))))
    decreases |fs|
  {
    if fs != [] {
      var q := p.(dest := Point(p.dest.x, p.dest.y + step));
      AllFragmentsDrawn(fs[1..], q, step, k - 1);
      var r := FragmentDraws(fs, p, step, Scaled(k, step));
      var rest := FragmentDraws(fs[1..], q, step, Scaled(k - 1, step));
      assert r == [DrawCall(TextOf([fs[0].ch]), p)] + rest;
      forall i | 0 <= i < |fs|
        ensures r[i] == DrawCall(TextOf([fs[i].ch]), p.(dest := Point(p.dest.x, p.dest.y + Scaled(i, step))))
      {
        if i > 0 {
          assert r[i] == rest[i - 1];
        }
      }
    }
  }

  /** A visible vertical text whose fragments are its characters draws every one of them, one line apart. */
  lemma VisibleTextDrawsEveryCharacter(e: DrawableObjectEssential, text: string, p: DrawParam, info: FontInformation,
                                       fs: seq<Fragment>)
    requires e.visible && info.scale.y > 0.0 && FragmentsOf(fs, text, info)
    ensures |VerticalTextCalls(e, fs, p, text, info)| == |text|
    ensures forall i :: 0 <= i < |text| ==>
      VerticalTextCalls(e, fs, p, text, info)[i]
        == DrawCall(TextOf([text[i]]), p.(dest := Point(p.dest.x, p.dest.y + Scaled(i, info.scale.y))))
  {
    AllFragmentsDrawn(fs, p, info.scale.y, |text|);
    forall i | 0 <= i < |text|
      ensures VerticalTextCalls(e, fs, p, text, info)[i]
        == DrawCall(TextOf([text[i]]), p.(dest := Point(p.dest.x, p.dest.y + Scaled(i, info.scale.y))))
    {
      assert fs[i].ch == text[i];
    }
  }

  /** An empty text, or a hidden one, draws nothing. */
  lemma EmptyOrHiddenTextDrawsNothing(e: DrawableObjectEssential, fs: seq<Fragment>, p: DrawParam, text: string,
                                      info: FontInformation)
    requires !e.visible || (text == "" && info.scale.y > 0.0)
    ensures VerticalTextCalls(e, fs, p, text, info) == []
  {
  }

  /** `VerticalText`: a string drawn one character under the other. */
  class VerticalText {
    var essential: DrawableObjectEssential
    var fragments: seq<Fragment>
    const fontInfo: FontInformation
    var param: DrawParam
    var rawText: string

    /** `VerticalText::new`: visible, at `pos`, in the font's colour, one fragment per character. */
    constructor (text: string, pos: Point, depth: Depth, fontInfo: FontInformation)
      ensures essential == DrawableObjectEssential(true, depth)
      ensures param == DrawParam(pos, fontInfo.color) && this.fontInfo == fontInfo
      ensures GetText() == text && FragmentsOf(fragments, text, fontInfo)
    {
      var fs := BuildFragments(text, fontInfo);
      essential := DrawableObjectEssential(true, depth);
      fragments := fs;
      this.fontInfo := fontInfo;
      param := DrawParam(pos, fontInfo.color);
      rawText := text;
    }

    function GetText(): string
      reads this
    {
      rawText
    }

    /** `replace_text`: the new text and its fragments; nothing else changes. */
    method ReplaceText(text: string)
      modifies this
      ensures GetText() == text && FragmentsOf(fragments, text, fontInfo)
      ensures essential == old(essential) && param == old(param)
    {
      fragments := BuildFragments(text, fontInfo);
      rawText := text;
    }

    /** `draw`: while visible, one fragment per line from the destination down, for as many lines as the text is long. */
    method Draw(ctx: HostContext)
      modifies ctx
      ensures ctx.log == old(ctx.log) + VerticalTextCalls(essential, fragments, param, rawText, fontInfo)
    {
      var p := param;
      var step := fontInfo.scale.y;
      var height := Scaled(|rawText|, step);
      if essential.visible {
        var i := 0;
        while i < |fragments| && height >= step
          invariant 0 <= i <= |fragments|
          invariant ctx.log + FragmentDraws(fragments[i..], p, step, height)
                 == old(ctx.log) + FragmentDraws(fragments, param, step, Scaled(|rawText|, step))
        {
          assert fragments[i..][1..] == fragments[i + 1..];
          assert FragmentDraws(fragments[i..], p, step, height)
              == [DrawCall(TextOf([fragments[i].ch]), p)]
                 + FragmentDraws(fragments[i + 1..], p.(dest := Point(p.dest.x, p.dest.y + step)), step, height - step);
          ctx.Call(DrawCall(TextOf([fragments[i].ch]), p));
          p := p.(dest := Point(p.dest.x, p.dest.y + step));
          height := height - step;
          i := i + 1;
        }
        assert FragmentDraws(fragments[i..], p, step, height) == [];
      }
    }

    method Hide()
      modifies this
      ensures essential == Apply(old(essential), ComponentCall.Hide)
      ensures param == old(param) && rawText == old(rawText) && fragments == old(fragments)
    {
      essential := essential.(visible := false);
    }

    method Appear()
      modifies this
      ensures essential == Apply(old(essential), ComponentCall.Appear)
      ensures param == old(param) && rawText == old(rawText) && fragments == old(fragments)
    {
      essential := essential.(visible := true);
    }

    function IsVisible(): bool
      reads this
    {
      essential.visible
    }

    method SetDrawingDepth(depth: Depth)
      modifies this
      ensures essential == Apply(old(essential), ComponentCall.SetDrawingDepth(depth))
      ensures param == old(param) && rawText == old(rawText) && fragments == old(fragments)
    {
      essential := essential.(drawingDepth := depth);
    }

    function GetDrawingDepth(): Depth
      reads this
    {
      essential.drawingDepth
    }

    method SetPosition(pos: Point)
      modifies this
      ensures param == old(param).(dest := pos)
      ensures essential == old(essential) && rawText == old(rawText) && fragments == old(fragments)
    {
      param := param.(dest := pos);
    }

    function GetPosition(): Point
      reads this
    {
      param.dest
    }

    method MoveDiff(offset: Point)
      modifies this
      ensures param == old(param).(dest := Add(old(param.dest), offset))
      ensures essential == old(essential) && rawText == old(rawText) && fragments == old(fragments)
    {
      param := param.(dest := Point(param.dest.x + offset.x, param.dest.y + offset.y));
    }
  }
}
