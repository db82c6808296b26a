/** Static scene objects: cuboids with a centre, a size and a colour. */
module Objects {
  import opened Geometry

  /** The colours the scene uses; only drawing looks at them. */
  datatype Color = Green | Red | DarkGray

  /** A box given by its centre `pos` and its full extent `size` on each axis. */
  datatype Cuboid = Cuboid(pos: Vector3, size: Vector3, color: Color)

  /** `Cuboid::new`: keeps exactly the centre, size and colour it is given. */
  function NewCuboid(pos: Vector3, size: Vector3, color: Color): (c: Cuboid)
    ensures c.pos == pos && c.size == size && c.color == color
  {
    Cuboid(pos, size, color)
  }

  /** `Cuboid::get_bounding_box`: the box spans half the size on each side of the centre. */
  function GetBoundingBox(c: Cuboid): (b: BoundingBox)
    ensures b.max.x - b.min.x == c.size.x
    ensures b.max.y - b.min.y == c.size.y
    ensures b.max.z - b.min.z == c.size.z
    ensures (b.min.x + b.max.x) / 2.0 == c.pos.x
    ensures (b.min.y + b.max.y) / 2.0 == c.pos.y
    ensures (b.min.z + b.max.z) / 2.0 == c.pos.z
  {
    var half := Scale(c.size, 0.5);
    BoundingBox(Sub(c.pos, half), Add(c.pos, half))
  }

  /** A cuboid with non-negative sizes has a well-formed bounding box. */
  lemma BoundingBoxOrdered(c: Cuboid)
    requires c.size.x >= 0.0 && c.size.y >= 0.0 && c.size.z >= 0.0
    ensures var b := GetBoundingBox(c);
      b.min.x <= b.max.x && b.min.y <= b.max.y && b.min.z <= b.max.z
  {
  }

  /** `Movable::move_to`: sets the centre, keeps size and colour. */
  function MoveTo(c: Cuboid, p: Vector3): (r: Cuboid)
    ensures r.pos == p
    ensures r.size == c.size && r.color == c.color
  {
    c.(pos := p)
  }

  /** Moving a cuboid translates its bounding box by the change of centre. */
  lemma MoveToTranslatesBox(c: Cuboid, p: Vector3)
    ensures var d := Sub(p, c.pos);
      && GetBoundingBox(MoveTo(c, p)).min == Add(GetBoundingBox(c).min, d)
      && GetBoundingBox(MoveTo(c, p)).max == Add(GetBoundingBox(c).max, d)
  {
  }
}
