/**
 * The option type used for nullable handles.
 */
module Wrappers {

  datatype Option<+T> = None | Some(value: T)
}

/**
 * Integer stand-ins for the floating-point geometry of the compositor: a
 * point, a size and a rectangle given by its top-left corner and its size.
 */
module Geometry {

  datatype Point = Point(x: int, y: int)

  datatype Size = Size(width: int, height: int)

  /** A rectangle in output-global coordinates. */
  datatype Rect = Rect(topLeft: Point, size: Size)

  /** A size is valid when neither dimension is negative. */
  predicate IsValid(s: Size) {
    s.width >= 0 && s.height >= 0
  }

  /** The size a default-constructed size object has, which is not valid. */
  const InvalidSize: Size := Size(-1, -1)

  /** A default-constructed rectangle: at the origin, with size (0, 0). */
  const NullRect: Rect := Rect(Point(0, 0), Size(0, 0))

  /** The vector from `q` to `p`. */
  function Minus(p: Point, q: Point): Point {
    Point(p.x - q.x, p.y - q.y)
  }
}
