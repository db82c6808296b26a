/**
 * The client's player record: camera (eye position and look-at target), body
 * cuboid and health; replication of that record over the channel; and the
 * axis-separated collision resolution of a frame's displacement.
 */
module Players {
  import opened Results
  import opened Geometry
  import opened Objects
  import opened Protocol
  import opened ChannelErrors

  const CameraHeight: real := 3.2
  const PlayerHeight: real := 3.5
  const PlayerHeightHalf: real := PlayerHeight / 2.0
  const PlayerUnit: real := 1.0
  const MaxHealth: U8 := 100
  const HitDamage: U8 := 10

  /** The eye and the point it looks at; up vector and field of view are fixed. */
  datatype Camera = Camera(position: Vector3, target: Vector3)

  datatype Player = Player(camera: Camera, velocity: Vector3, body: Cuboid, health: U8)

  /** The size of every player's body. */
  const BodySize: Vector3 := Vector3(PlayerUnit, PlayerHeight, PlayerUnit)

  /** `Player::get_bounding_box`: a 1 x 1 column under the eye, from the floor to full height. */
  function BoundingBoxAt(pos: Vector3): (b: BoundingBox)
    ensures b.min.y == 0.0 && b.max.y == PlayerHeight
    ensures b.max.x - b.min.x == PlayerUnit && b.max.z - b.min.z == PlayerUnit
    ensures (b.min.x + b.max.x) / 2.0 == pos.x && (b.min.z + b.max.z) / 2.0 == pos.z
  {
    var half := PlayerUnit / 2.0;
    BoundingBox(Vector3(pos.x - half, 0.0, pos.z - half), Vector3(pos.x + half, PlayerHeight, pos.z + half))
  }

  /** The collision box does not depend on the eye's height. */
  lemma BoundingBoxIgnoresHeight(pos: Vector3, y: real)
    ensures BoundingBoxAt(pos.(y := y)) == BoundingBoxAt(pos)
  {
  }

  /** The drawn body stands exactly where the collision box is. */
  predicate BodyMatchesCamera(p: Player) {
    GetBoundingBox(p.body) == BoundingBoxAt(p.camera.position)
  }

  /** `Player::move_body`: put the body under the eye, standing on the floor. */
  function MoveBody(p: Player): (r: Player)
    ensures r.body.pos == Vector3(p.camera.position.x, PlayerHeightHalf, p.camera.position.z)
    ensures r.camera == p.camera && r.health == p.health && r.velocity == p.velocity
    ensures r.body.size == p.body.size && r.body.color == p.body.color
    ensures p.body.size == BodySize ==> BodyMatchesCamera(r)
  {
    p.(body := MoveTo(p.body, Vector3(p.camera.position.x, PlayerHeightHalf, p.camera.position.z)))
  }

  /** `Player::default`: full health, at rest, eye at 3.2 above the origin looking along +z. */
  function Default(): (p: Player)
    ensures p.health == MaxHealth && p.velocity == Zero
    ensures p.camera.position == Vector3(0.0, CameraHeight, 0.0) && p.camera.target == Forward
    ensures p.body.pos == Vector3(0.0, PlayerHeightHalf, 0.0) && p.body.size == BodySize
  {
    var camera := Camera(Vector3(0.0, CameraHeight, 0.0), Forward);
    Player.Player(camera, Zero, NewCuboid(Vector3(0.0, PlayerHeightHalf, 0.0), BodySize, Green), MaxHealth)
  }

  /** A default player's body stands exactly where its collision box is. */
  lemma DefaultBodyMatchesCamera()
    ensures BodyMatchesCamera(Default())
  {
    DefaultBodyBox();
    DefaultEyeBox();
  }

  /** The unit column at the origin, from the floor to full height. */
  const OriginColumn: BoundingBox := BoundingBox(Vector3(-0.5, 0.0, -0.5), Vector3(0.5, PlayerHeight, 0.5))

  lemma DefaultBodyBox()
    ensures GetBoundingBox(Default().body) == OriginColumn
  {
  }

  lemma DefaultEyeBox()
    ensures BoundingBoxAt(Default().camera.position) == OriginColumn
  {
  }

  /** Some obstacle's box collides with `b`, scanning the obstacles in order and stopping at the first hit. */
  function AnyCollision(b: BoundingBox, objects: seq<Cuboid>): bool
  {
    if |objects| == 0 then false
    else if CheckCollisionBoxes(b, GetBoundingBox(objects[0])) then true
    else AnyCollision(b, objects[1..])
  }

  /** Some obstacle, at whatever position in the list, collides with `b`. */
  predicate Blocked(b: BoundingBox, objects: seq<Cuboid>) {
    exists i :: 0 <= i < |objects| && CheckCollisionBoxes(b, GetBoundingBox(objects[i]))
  }

  /** The early-exit scan finds a collision exactly when one exists. */
  lemma {:induction false} AnyCollisionExists(b: BoundingBox, objects: seq<Cuboid>)
    ensures AnyCollision(b, objects) <==> Blocked(b, objects)
  {
    if objects != [] {
      AnyCollisionExists(b, objects[1..]);
      if CheckCollisionBoxes(b, GetBoundingBox(objects[0])) {
      } else {
        forall i | 0 < i < |objects|
          ensures objects[i] == objects[1..][i - 1]
        {
        }
      }
    }
  }

  /**
   * `Player::displacement_after_collision`: test the eye moved along x alone
   * and drop the x motion if that box meets an obstacle; then, independently,
   * test the unmoved eye moved along z alone and drop the z motion likewise.
   */
  function DisplacementAfterCollision(position: Vector3, d: Vector3, objects: seq<Cuboid>): (r: Vector3)
    ensures r.y == d.y
    ensures r.x == d.x || r.x == 0.0
    ensures r.z == d.z || r.z == 0.0
  {
    var xBlocked := AnyCollision(BoundingBoxAt(position.(x := position.x + d.x)), objects);
    var zBlocked := AnyCollision(BoundingBoxAt(position.(z := position.z + d.z)), objects);
    Vector3(if xBlocked then 0.0 else d.x, d.y, if zBlocked then 0.0 else d.z)
  }

  /**
   * The x motion is dropped exactly when the box moved along x alone meets
   * some obstacle, and the z motion exactly when the box moved along z alone
   * does.
   */
  lemma DisplacementAxes(position: Vector3, d: Vector3, objects: seq<Cuboid>)
    ensures var r := DisplacementAfterCollision(position, d, objects);
      && (d.x != 0.0 ==> (r.x == 0.0 <==> Blocked(BoundingBoxAt(position.(x := position.x + d.x)), objects)))
      && (d.z != 0.0 ==> (r.z == 0.0 <==> Blocked(BoundingBoxAt(position.(z := position.z + d.z)), objects)))
  {
    AnyCollisionExists(BoundingBoxAt(position.(x := position.x + d.x)), objects);
    AnyCollisionExists(BoundingBoxAt(position.(z := position.z + d.z)), objects);
  }

  /** A motion that survives resolution leaves the single-axis box clear of every obstacle. */
  lemma SurvivingMotionIsClear(position: Vector3, d: Vector3, objects: seq<Cuboid>, i: nat)
    requires i < |objects|
    ensures var r := DisplacementAfterCollision(position, d, objects);
      && (r.x != 0.0 ==> !CheckCollisionBoxes(BoundingBoxAt(position.(x := position.x + r.x)), GetBoundingBox(objects[i])))
      && (r.z != 0.0 ==> !CheckCollisionBoxes(BoundingBoxAt(position.(z := position.z + r.z)), GetBoundingBox(objects[i])))
  {
    AnyCollisionExists(BoundingBoxAt(position.(x := position.x + d.x)), objects);
    AnyCollisionExists(BoundingBoxAt(position.(z := position.z + d.z)), objects);
  }

  /** The z decision never looks at the x motion, and the x decision never looks at the z motion. */
  lemma AxesAreIndependent(position: Vector3, d: Vector3, e: Vector3, objects: seq<Cuboid>)
    ensures d.z == e.z ==>
      DisplacementAfterCollision(position, d, objects).z == DisplacementAfterCollision(position, e, objects).z
    ensures d.x == e.x ==>
      DisplacementAfterCollision(position, d, objects).x == DisplacementAfterCollision(position, e, objects).x
  {
  }

  /** With nothing to hit, the displacement passes through unchanged. */
  lemma NoObstaclesNoChange(position: Vector3, d: Vector3)
    ensures DisplacementAfterCollision(position, d, []) == d
  {
  }

  /** The obstacle of the corner example: a unit block whose near corner is at (1, 1). */
  const CornerBlock: Cuboid := Cuboid(Vector3(1.5, 1.0, 1.5), Vector3(1.0, 1.0, 1.0), Red)

  /** The box of `CornerBlock`: from (1, 0.5, 1) to (2, 1.5, 2). */
  lemma CornerBlockBox()
    ensures GetBoundingBox(CornerBlock) == BoundingBox(Vector3(1.0, 0.5, 1.0), Vector3(2.0, 1.5, 2.0))
  {
  }

  /** A box whose far corner on the ground plane is short of (1, 1) on one axis misses `CornerBlock`. */
  lemma MissesCornerBlock(b: BoundingBox)
    requires b.max.x < 1.0 || b.max.z < 1.0
    ensures !AnyCollision(b, [CornerBlock])
  {
    CornerBlockBox();
    SingleObstacle(b, CornerBlock);
  }

  /** Against a single obstacle, the scan is the one collision test. */
  lemma SingleObstacle(b: BoundingBox, c: Cuboid)
    ensures AnyCollision(b, [c]) == CheckCollisionBoxes(b, GetBoundingBox(c))
  {
    assert |[c][1..]| == 0;
  }

  /**
   * Resolving the axes separately does not keep the diagonal move clear: from
   * the origin, moving by 0.9 along x alone or along z alone misses
   * `CornerBlock`, so the move by (0.9, 0, 0.9) is kept whole, and it ends
   * overlapping the block.
   */
  lemma DiagonalMoveCanEnterCorner()
    ensures DisplacementAfterCollision(Vector3(0.0, CameraHeight, 0.0), Vector3(0.9, 0.0, 0.9), [CornerBlock])
      == Vector3(0.9, 0.0, 0.9)
    ensures CheckCollisionBoxes(BoundingBoxAt(Vector3(0.9, CameraHeight, 0.9)), GetBoundingBox(CornerBlock))
  {
    DiagonalMoveKeptWhole();
    DiagonalMoveEndsInBlock();
  }

  lemma DiagonalMoveKeptWhole()
    ensures DisplacementAfterCollision(Vector3(0.0, CameraHeight, 0.0), Vector3(0.9, 0.0, 0.9), [CornerBlock])
      == Vector3(0.9, 0.0, 0.9)
  {
    MissesCornerBlock(BoundingBoxAt(Vector3(0.9, CameraHeight, 0.0)));
    MissesCornerBlock(BoundingBoxAt(Vector3(0.0, CameraHeight, 0.9)));
  }

  lemma DiagonalMoveEndsInBlock()
    ensures CheckCollisionBoxes(BoundingBoxAt(Vector3(0.9, CameraHeight, 0.9)), GetBoundingBox(CornerBlock))
  {
    CornerBlockBox();
  }

  /** `Player::write_stats`: the packet carrying the eye's and target's ground-plane coordinates. */
  function WriteStats(p: Player): (packet: Packet<real>)
    ensures packet.Player?
    ensures packet.pos.x == p.camera.position.x && packet.pos.z == p.camera.position.z
    ensures packet.target.x == p.camera.target.x && packet.target.z == p.camera.target.z
  {
    Packet.Player(FromVector3(p.camera.position), FromVector3(p.camera.target))
  }

  /**
   * `Player::read_stats`: a received `Player` packet overwrites the x and z
   * of the eye and target and moves the body under the eye; anything else,
   * packet or error, is an `Err` that changes nothing.
   */
  function ReadStats(p: Player, received: Result<Packet<real>, ChannelError>): (r: (Player, Result<(), ()>))
    ensures r.1.Ok? <==> received.Ok? && received.value.Player?
    ensures r.1.Err? ==> r.0 == p
    ensures r.1.Ok? ==>
      var pos := received.value.pos;
      var target := received.value.target;
      && r.0.camera.position == Vector3(pos.x, p.camera.position.y, pos.z)
      && r.0.camera.target == Vector3(target.x, p.camera.target.y, target.z)
      && r.0.body.pos == Vector3(pos.x, PlayerHeightHalf, pos.z)
      && r.0.health == p.health && r.0.velocity == p.velocity && r.0.body.size == p.body.size
  {
    match received
    case Ok(Player(pos, target)) =>
      var camera := Camera(p.camera.position.(x := pos.x, z := pos.z), p.camera.target.(x := target.x, z := target.z));
      (MoveBody(p.(camera := camera)), Ok(()))
    case _ => (p, Err(()))
  }

  /** Replication: a replica that reads what a player wrote agrees with it on the ground plane. */
  lemma StatsRoundTrip(p: Player, replica: Player)
    ensures var r := ReadStats(replica, Ok(WriteStats(p)));
      && r.1.Ok?
      && r.0.camera.position.x == p.camera.position.x && r.0.camera.position.z == p.camera.position.z
      && r.0.camera.target.x == p.camera.target.x && r.0.camera.target.z == p.camera.target.z
  {
  }

  /** `Player::write_health`. */
  function WriteHealth(p: Player): (packet: Packet<real>)
    ensures packet.Health? && packet.health == p.health
  {
    Health(p.health)
  }

  /**
   * `Player::read_health`: a received `Health(h)` sets the health to exactly
   * `h`; anything else is an `Err` that changes nothing.
   */
  function ReadHealth(p: Player, received: Result<Packet<real>, ChannelError>): (r: (Player, Result<(), ()>))
    ensures r.1.Ok? <==> received.Ok? && received.value.Health?
    ensures r.1.Ok? ==> r.0 == p.(health := received.value.health)
    ensures r.1.Err? ==> r.0 == p
  {
    match received
    case Ok(Health(h)) => (p.(health := h), Ok(()))
    case _ => (p, Err(()))
  }

  /** A replica that reads a player's health packet takes on exactly that health. */
  lemma HealthRoundTrip(p: Player, replica: Player)
    ensures ReadHealth(replica, Ok(WriteHealth(p))) == (replica.(health := p.health), Ok(()))
  {
  }

  /** `Player::decrease_health`: one hit takes exactly 10; the u8 subtraction must not underflow. */
  function DecreaseHealth(p: Player): (r: Player)
    requires p.health >= HitDamage
    ensures r.health + HitDamage == p.health
    ensures r == p.(health := r.health)
  {
    p.(health := p.health - HitDamage)
  }

  /** `n` hits in a row. */
  function AfterHits(p: Player, n: nat): Player
    requires n * HitDamage <= p.health
    decreases n
  {
    if n == 0 then p else AfterHits(DecreaseHealth(p), n - 1)
  }

  /** Ten hits take a full-health player exactly to zero, and never below. */
  lemma {:induction false} HitsFromFullHealth(p: Player, n: nat)
    requires n * HitDamage <= p.health
    ensures AfterHits(p, n).health == p.health - n * HitDamage
    ensures p.health == MaxHealth && n == 10 ==> AfterHits(p, n).health == 0
    decreases n
  {
    if n > 0 {
      HitsFromFullHealth(DecreaseHealth(p), n - 1);
    }
  }

  /** The per-frame intent the look and velocity code hands to the mover. */
  datatype Motion = Motion(forward: Vector3, velocity: Vector3, dt: real, fire: bool)

  /**
   * `Player::update` with the look rotation and the velocity integration
   * taken as given: aim along `forward`, move by `velocity * dt` after
   * collision resolution, carry the target along, and report whether a shot
   * was fired.
   */
  function Update(p: Player, objects: seq<Cuboid>, m: Motion): (r: (Player, bool))
    ensures var moved := DisplacementAfterCollision(p.camera.position, Scale(m.velocity, m.dt), objects);
      && r.0.camera.position == Add(p.camera.position, moved)
      && Sub(r.0.camera.target, r.0.camera.position) == m.forward
    ensures r.0.health == p.health && r.0.velocity == m.velocity
    ensures p.body.size == BodySize ==> BodyMatchesCamera(r.0)
    ensures r.1 == m.fire
  {
    var aimed := Add(p.camera.position, m.forward);
    var moved := DisplacementAfterCollision(p.camera.position, Scale(m.velocity, m.dt), objects);
    var camera := Camera(Add(p.camera.position, moved), Add(aimed, moved));
    (MoveBody(p.(camera := camera, velocity := m.velocity)), m.fire)
  }
}
