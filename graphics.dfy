/**
 * The drawable contracts of src/graphics.rs: the visibility/depth record
 * every drawable embeds, the depth comparators used to sort drawables, the
 * hide/appear contract of `DrawableComponent`, and the default methods of
 * `DrawableObject`.
 *
 * The traits themselves are not modelled as traits: the comparators take
 * the two depths they read, the hide/appear contract is stated over the
 * embedded record, and the defaults are stated for any implementing state.
 */
module Graphics {
  import opened Base
  import Device

  /** `DrawableObjectEssential`; its `new(visible, depth)` is this constructor. */
  datatype DrawableObjectEssential = DrawableObjectEssential(visible: bool, drawingDepth: Depth)

  /**
   * `drawable_object_sort_with_depth` on the depths of its two arguments:
   * the deeper object sorts first.
   */
  function DrawableObjectSortWithDepth(ad: Depth, bd: Depth): (r: Ordering)
    ensures r == Less <==> ad > bd
    ensures r == Greater <==> ad < bd
    ensures r == Equal <==> ad == bd
  {
    if ad > bd then Less else if ad < bd then Greater else Equal
  }

  /** `boxed_drawable_object_sort_with_depth`: the same order for boxed objects. */
  function BoxedDrawableObjectSortWithDepth(ad: Depth, bd: Depth): (r: Ordering)
    ensures r == DrawableObjectSortWithDepth(ad, bd)
  {
    if ad > bd then Less else if ad < bd then Greater else Equal
  }

  /** The comparator is a total order: antisymmetric, transitive, Equal only on equal keys. */
  lemma ComparatorIsTotalOrder(a: Depth, b: Depth, c: Depth)
    ensures DrawableObjectSortWithDepth(a, b) == Less <==> DrawableObjectSortWithDepth(b, a) == Greater
    ensures DrawableObjectSortWithDepth(a, b) == Equal <==> DrawableObjectSortWithDepth(b, a) == Equal
    ensures DrawableObjectSortWithDepth(a, b) != Greater && DrawableObjectSortWithDepth(b, c) != Greater
      ==> DrawableObjectSortWithDepth(a, c) != Greater
  {
  }

  /** A sequence of depths in the order a sort with the comparator leaves it. */
  predicate SortedByComparator(ds: seq<Depth>)
  {
    forall i :: 0 <= i < |ds| - 1 ==> DrawableObjectSortWithDepth(ds[i], ds[i + 1]) != Greater
  }

  /** Sorting with the comparator puts the deepest first: depths never increase. */
  lemma {:induction false} SortedPutsDeepestFirst(ds: seq<Depth>)
    requires SortedByComparator(ds)
    ensures forall i, j :: 0 <= i <= j < |ds| ==> ds[i] >= ds[j]
  {
    if |ds| > 1 {
      assert SortedByComparator(ds[1..]) by {
        forall i | 0 <= i < |ds[1..]| - 1
          ensures DrawableObjectSortWithDepth(ds[1..][i], ds[1..][i + 1]) != Greater
        {
          assert ds[1..][i] == ds[i + 1] && ds[1..][i + 1] == ds[i + 2];
        }
      }
      SortedPutsDeepestFirst(ds[1..]);
      forall i, j | 0 <= i <= j < |ds|
        ensures ds[i] >= ds[j]
      {
        if 0 < i {
          assert ds[i] == ds[1..][i - 1] && ds[j] == ds[1..][j - 1];
        } else if 0 < j {
          assert ds[1] == ds[1..][0] && ds[j] == ds[1..][j - 1];
          assert ds[0] >= ds[1];
        }
      }
    }
  }

  /* ---------------- The hide/appear contract ---------------- */

  /** The `DrawableComponent` calls that change the embedded record. */
  datatype ComponentCall = Hide | Appear | SetDrawingDepth(depth: Depth)

  /** The effect each call has on the record: hide clears, appear sets, depth stores. */
  function Apply(e: DrawableObjectEssential, c: ComponentCall): (r: DrawableObjectEssential)
    ensures c.Hide? ==> r == e.(visible := false)
    ensures c.Appear? ==> r == e.(visible := true)
    ensures c.SetDrawingDepth? ==> r == e.(drawingDepth := c.depth)
  {
    match c
    case Hide => e.(visible := false)
    case Appear => e.(visible := true)
    case SetDrawingDepth(d) => e.(drawingDepth := d)
  }

  /** The record after a sequence of calls, in order. */
  function Run(e: DrawableObjectEssential, cs: seq<ComponentCall>): DrawableObjectEssential
    decreases |cs|
  {
    if cs == [] then e else Run(Apply(e, cs[0]), cs[1..])
  }

  /** With no Appear in `cs`, a hidden record stays hidden. */
  lemma {:induction false} StaysHidden(e: DrawableObjectEssential, cs: seq<ComponentCall>)
    requires !e.visible
    requires forall j :: 0 <= j < |cs| ==> !cs[j].Appear?
    ensures !Run(e, cs).visible
    decreases |cs|
  {
    if cs != [] {
      assert forall j :: 0 <= j < |cs[1..]| ==> cs[1..][j] == cs[j + 1];
      StaysHidden(Apply(e, cs[0]), cs[1..]);
    }
  }

  /** With no Hide in `cs`, a visible record stays visible. */
  lemma {:induction false} StaysVisible(e: DrawableObjectEssential, cs: seq<ComponentCall>)
    requires e.visible
    requires forall j :: 0 <= j < |cs| ==> !cs[j].Hide?
    ensures Run(e, cs).visible
    decreases |cs|
  {
    if cs != [] {
      assert forall j :: 0 <= j < |cs[1..]| ==> cs[1..][j] == cs[j + 1];
      StaysVisible(Apply(e, cs[0]), cs[1..]);
    }
  }

  /**
   * The contract of `hide` (src/graphics.rs:17-20): after a Hide with no
   * later Appear, the object is not visible, so `draw` draws nothing.
   */
  lemma {:induction false} HiddenUntilAppear(e: DrawableObjectEssential, cs: seq<ComponentCall>, i: nat)
    requires i < |cs| && cs[i].Hide?
    requires forall j :: i < j < |cs| ==> !cs[j].Appear?
    ensures !Run(e, cs).visible
    decreases i
  {
    assert forall j :: 0 <= j < |cs[1..]| ==> cs[1..][j] == cs[j + 1];
    if i == 0 {
      StaysHidden(Apply(e, cs[0]), cs[1..]);
    } else {
      HiddenUntilAppear(Apply(e, cs[0]), cs[1..], i - 1);
    }
  }

  /** The contract of `appear` (src/graphics.rs:22-25): visible after an Appear with no later Hide. */
  lemma {:induction false} VisibleUntilHide(e: DrawableObjectEssential, cs: seq<ComponentCall>, i: nat)
    requires i < |cs| && cs[i].Appear?
    requires forall j :: i < j < |cs| ==> !cs[j].Hide?
    ensures Run(e, cs).visible
    decreases i
  {
    assert forall j :: 0 <= j < |cs[1..]| ==> cs[1..][j] == cs[j + 1];
    if i == 0 {
      StaysVisible(Apply(e, cs[0]), cs[1..]);
    } else {
      VisibleUntilHide(Apply(e, cs[0]), cs[1..], i - 1);
    }
  }

  /** Hiding twice and appearing once leaves the object visible: hiding does not nest. */
  lemma HideHideAppear(e: DrawableObjectEssential)
    ensures Run(e, [Hide, Hide, Appear]).visible
    ensures Run(e, [Hide, Hide, Appear]).drawingDepth == e.drawingDepth
  {
    assert [Hide, Hide, Appear][1..] == [Hide, Appear];
    assert [Hide, Appear][1..] == [Appear];
  }

  /* ---------------- DrawableObject defaults ---------------- */

  /** The `DrawableObject` / `DrawableComponent` methods that have default bodies. */
  datatype DefaultCall =
    | SetPosition(pos: Point)
    | MoveDiff(offset: Point)
    | VirtualKeyEvent(event: Device.KeyboardEvent, vkey: Device.VirtualKey)
    | MouseButtonEvent(mouseEvent: Device.MouseButtonEvent, button: Device.MouseButton, point: Point)

  /** A default method body, applied to an implementing object's state `S`. */
  function DefaultBody<S>(self: S, c: DefaultCall): S
  {
    match c
    case SetPosition(_) => self
    case MoveDiff(_) => self
    case VirtualKeyEvent(_, _) => self
    case MouseButtonEvent(_, _, _) => self
  }

  /** The default `get_position`. */
  function DefaultGetPosition<S>(self: S): Point
  {
    Origin
  }

  function RunDefaults<S>(self: S, cs: seq<DefaultCall>): S
    decreases |cs|
  {
    if cs == [] then self else RunDefaults(DefaultBody(self, cs[0]), cs[1..])
  }

  /**
   * An object relying on the defaults is unchanged by any sequence of
   * set_position, move_diff, key and mouse event calls, and reports the
   * origin as its position throughout.
   */
  lemma {:induction false} DefaultsChangeNothing<S>(self: S, cs: seq<DefaultCall>)
    ensures RunDefaults(self, cs) == self
    ensures DefaultGetPosition(RunDefaults(self, cs)) == Origin
    decreases |cs|
  {
    if cs != [] {
      DefaultsChangeNothing(DefaultBody(self, cs[0]), cs[1..]);
    }
  }
}
