/**
 * The slice of the graphics library's vector maths that the game logic uses:
 * three-component vectors over the reals and axis-aligned bounding boxes with
 * the closed-interval overlap test.
 */
module Geometry {

  datatype Vector3 = Vector3(x: real, y: real, z: real)

  function Add(a: Vector3, b: Vector3): Vector3 {
    Vector3(a.x + b.x, a.y + b.y, a.z + b.z)
  }

  function Sub(a: Vector3, b: Vector3): Vector3 {
    Vector3(a.x - b.x, a.y - b.y, a.z - b.z)
  }

  function Scale(a: Vector3, k: real): Vector3 {
    Vector3(a.x * k, a.y * k, a.z * k)
  }

  const Zero: Vector3 := Vector3(0.0, 0.0, 0.0)

  /** The library's `Vector3::forward()`. */
  const Forward: Vector3 := Vector3(0.0, 0.0, 1.0)

  datatype BoundingBox = BoundingBox(min: Vector3, max: Vector3)

  /** The closed interval [lo1, hi1] meets the closed interval [lo2, hi2]. */
  predicate IntervalsMeet(lo1: real, hi1: real, lo2: real, hi2: real) {
    hi1 >= lo2 && lo1 <= hi2
  }

  /**
   * `check_collision_boxes`: two boxes collide when their closed extents meet
   * on every axis; touching faces count as a collision.
   */
  predicate CheckCollisionBoxes(a: BoundingBox, b: BoundingBox) {
    && IntervalsMeet(a.min.x, a.max.x, b.min.x, b.max.x)
    && IntervalsMeet(a.min.y, a.max.y, b.min.y, b.max.y)
    && IntervalsMeet(a.min.z, a.max.z, b.min.z, b.max.z)
  }

  /** The collision test does not depend on the order of its arguments. */
  lemma CollisionIsSymmetric(a: BoundingBox, b: BoundingBox)
    ensures CheckCollisionBoxes(a, b) <==> CheckCollisionBoxes(b, a)
  {
  }
}
