/**
 * The game channel's message vocabulary: the planar vector carried on the
 * wire, the tagged packet union as its callers use it, and the local match
 * outcome.
 *
 * A packet is generic over its float carrier `F`: the byte codec works on
 * opaque 32-bit words, the game logic on the real numbers the floats denote.
 */
module Protocol {
  import opened Geometry

  /** An unsigned 8-bit integer (`u8`). */
  type U8 = x: int | 0 <= x < 256

  /** `ChannelVector2`: a point or direction on the ground plane. */
  datatype ChannelVector2<F> = ChannelVector2(x: F, z: F)

  /** `Packet`: one message of the wire protocol. */
  datatype Packet<F> =
    | Player(pos: ChannelVector2<F>, target: ChannelVector2<F>)
    | Time(time: U8)
    | Health(health: U8)

  /** `Winner`: the match outcome as one client sees it. */
  datatype Winner = Player | Enemy | None

  /** `From<Vector3> for ChannelVector2`: keeps x and z, drops the height. */
  function FromVector3(v: Vector3): (r: ChannelVector2<real>)
    ensures r.x == v.x && r.z == v.z
  {
    ChannelVector2(v.x, v.z)
  }

  /** The conversion sees only the ground-plane components: height never matters. */
  lemma FromVector3IgnoresHeight(v: Vector3, w: Vector3)
    ensures FromVector3(v) == FromVector3(w) <==> v.x == w.x && v.z == w.z
  {
  }
}
