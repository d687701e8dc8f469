/** Exact stand-ins for the engine's value types used by the grass generator:
    points and directions in world space, a 2D size, a ray, and the optional
    result of a physics query. Coordinates are reals with exact equality. */
module Geometry {

  /** A point or direction in world space (y is the vertical axis). */
  datatype Vector3 = Vector3(x: real, y: real, z: real)

  /** A pair of reals; the generator uses it as the footprint's width (x) and depth (y). */
  datatype Vector2 = Vector2(x: real, y: real)

  /** The unit vector pointing straight down. */
  const Down: Vector3 := Vector3(0.0, -1.0, 0.0)

  /** A half-line from an origin along a direction. */
  datatype Ray = Ray(origin: Vector3, direction: Vector3)

  /** The result of a query that may find nothing. */
  datatype Option<+T> = None | Some(value: T)

  function Abs(r: real): (a: real)
    ensures a >= 0.0 && (a == r || a == -r)
  {
    if r < 0.0 then -r else r
  }
}
