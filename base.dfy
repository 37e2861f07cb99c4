/**
 * Types shared by every part of the model: the logical clock, draw depth,
 * exact points and colours, the parameters of a host draw call, and the
 * host rendering context, whose calls are recorded in an append-only log.
 */
module Base {

  datatype Option<+T> = None | Some(value: T)

  /**
   * The result of an operation whose failure aborts the program in the
   * source (`unwrap` on a missing entry, `panic!`): the panic is made an
   * explicit value so that the aborting path can be stated and proved.
   */
  datatype Result<+T> = Ok(value: T) | Panic(message: string)

  /** The same for operations that return nothing. */
  datatype Outcome = Completed | Aborted(message: string)

  /** The logical clock (`Clock = u64` in src/core.rs): a tick count. */
  type Clock = nat

  /** A drawing depth, the source's `i8`. */
  type Depth = d: int | -128 <= d < 128

  /** The three results of a Rust comparator (`std::cmp::Ordering`). */
  datatype Ordering = Less | Equal | Greater

  /** A point or vector; floating point is replaced by exact reals. */
  datatype Point = Point(x: real, y: real)

  const Origin: Point := Point(0.0, 0.0)

  function Add(p: Point, q: Point): Point
  {
    Point(p.x + q.x, p.y + q.y)
  }

  /** A rectangle: its corner and its extent. */
  datatype Rect = Rect(x: real, y: real, w: real, h: real)

  /** An RGBA colour; only the alpha component is ever read on its own. */
  datatype Color = Color(r: real, g: real, b: real, a: real)

  /** ggez's `Color::WHITE`, the colour of a default `DrawParam`. */
  const White: Color := Color(1.0, 1.0, 1.0, 1.0)

  /**
   * The part of a ggez `DrawParam` the model follows: the destination and
   * the colour. Scale, rotation, crop and offset are plain stores and are
   * not modelled.
   */
  datatype DrawParam = DrawParam(dest: Point, color: Color)

  const DefaultParam: DrawParam := DrawParam(Origin, White)

  /** Host resources are opaque handles. */
  type ImageId = nat
  type CanvasId = nat
  type FontId = nat

  /** What a host draw call draws. */
  datatype Drawn =
    | ImageOf(image: ImageId)
    | TextOf(text: string)
    | CanvasOf(canvas: CanvasId)

  /** One call into the host rendering context. */
  datatype HostCall =
    | DrawCall(what: Drawn, param: DrawParam)
    | SetCanvas(canvas: Option<CanvasId>)
    | ClearTo(color: Color)
    | SetScreenCoordinates(width: real, height: real)
    | SetWindowCoordinates

  /** The ggez context as far as drawing goes: the calls made on it so far. */
  class HostContext {
    var log: seq<HostCall>

    constructor ()
      ensures log == []
    {
      log := [];
    }

    method Call(c: HostCall)
      modifies this
      ensures log == old(log) + [c]
    {
      log := log + [c];
    }
  }
}
