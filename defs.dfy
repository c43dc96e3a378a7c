// Shared definitions of common/Defs.{hh,cc}: identifier types, building and
// resource kinds, the building type table and the two distance measures.
module Defs {
  import opened Common

  newtype u8 = x: int | 0 <= x < 0x100
  newtype u16 = x: int | 0 <= x < 0x1_0000
  newtype u32 = x: int | 0 <= x < 0x1_0000_0000

  /** Valid client ids are > 0; 0 is the neutral player that owns trees. */
  type PlayerId = u16
  const PLAYER_NEUTRAL: PlayerId := 0

  /** Object ids as they travel in orders. */
  type ObjectId = u32

  /** The GameObject id of an entity in the simulation: the value of the
      entity counter when it was created. Ids are never reused, so an id
      also serves as the entity's handle. */
  type EntityId = nat

  /** A grid coordinate (glm::uvec2, Map::Pos). */
  datatype Pos = Pos(x: nat, y: nat)

  /** An integer 3-vector (glm::uvec3 for positions, offsets of blocks). */
  datatype Vec3 = Vec3(x: int, y: int, z: int)

  /** A fixed-point 3-vector (fvec3); Fixed is modelled by real. */
  datatype FVec3 = FVec3(x: real, y: real, z: real)

  /** The building kinds, in the order of the four rows of the size table. */
  datatype BuildingType = Main | Store | Miner | Tower

  function BuildingTypeOrdinal(t: BuildingType): (n: nat)
    ensures n < BUILDING_MAX
  {
    match t
    case Main => 0
    case Store => 1
    case Miner => 2
    case Tower => 3
  }

  const BUILDING_MAX: nat := 4

  /** The enumerator with ordinal `n`, if there is one. */
  function BuildingTypeFromOrdinal(n: nat): (r: Option<BuildingType>)
    ensures r.Some? <==> n < BUILDING_MAX
    ensures r.Some? ==> BuildingTypeOrdinal(r.value) == n
  {
    if n == 0 then Some(Main)
    else if n == 1 then Some(Store)
    else if n == 2 then Some(Miner)
    else if n == 3 then Some(Tower)
    else None
  }

  lemma BuildingTypeOrdinalRoundTrip(t: BuildingType)
    ensures BuildingTypeFromOrdinal(BuildingTypeOrdinal(t)) == Some(t)
  {
  }

  /** RESOURCE_IRON is the only resource; RESOURCE_MAX == 1. */
  datatype ResourceType = Iron

  const RESOURCE_MAX: nat := 1

  function ResourceIndex(r: ResourceType): (i: nat)
    ensures i < RESOURCE_MAX
  {
    0
  }

  /** A construction block: the resource it is made of and its offset from
      the building's position. */
  datatype Block = Block(resource: ResourceType, pos: Vec3)

  /** What the game knows about each building kind: its size, the blocks that
      make it up (in delivery order) and its cost per resource. */
  datatype BuildingTypeInfo = BuildingTypeInfo(size: Vec3, blocks: seq<Block>, costs: seq<nat>)

  /** The sizes of common/Defs.cc, row by row. */
  function TableSize(t: BuildingType): Vec3
  {
    match t
    case Main => Vec3(5, 5, 3)
    case Store => Vec3(2, 2, 4)
    case Miner => Vec3(1, 1, 1)
    case Tower => Vec3(1, 1, 3)
  }

  /** buildingTypeInfo[]: the blocks and costs are not part of the shown
      table, so the table as a whole is a parameter of the model. */
  datatype TypeTable = TypeTable(main: BuildingTypeInfo, store: BuildingTypeInfo,
                                 miner: BuildingTypeInfo, tower: BuildingTypeInfo)
  {
    function Info(t: BuildingType): BuildingTypeInfo
    {
      match t
      case Main => main
      case Store => store
      case Miner => miner
      case Tower => tower
    }

    /** The sizes agree with common/Defs.cc and there is one cost per resource. */
    predicate Valid()
    {
      forall t: BuildingType ::
        Info(t).size == TableSize(t) && |Info(t).costs| == RESOURCE_MAX
    }
  }

  /** sqDistance: the squared Euclidean distance of two grid points, computed
      with max - min so that the unsigned differences never underflow. */
  function SqDistance(a: Pos, b: Pos): (d: nat)
    ensures d == 0 <==> a == b
  {
    var dx: nat := Max(a.x, b.x) - Min(a.x, b.x);
    var dy: nat := Max(a.y, b.y) - Min(a.y, b.y);
    SquareZero(dx);
    SquareZero(dy);
    dx * dx + dy * dy
  }

  lemma SquareZero(n: nat)
    ensures n * n >= 0 && (n * n == 0 <==> n == 0)
  {
    if n > 0 {
      assert n * n >= n;
    }
  }

  lemma SqDistanceSymmetric(a: Pos, b: Pos)
    ensures SqDistance(a, b) == SqDistance(b, a)
  {
  }

  /** manhattanDistance: |dx| + |dy|. fvec2 is a 3-vector, whose z is ignored. */
  function ManhattanDistance(a: FVec3, b: FVec3): (d: real)
    ensures d >= 0.0
    ensures d == 0.0 <==> a.x == b.x && a.y == b.y
  {
    AbsReal(a.x - b.x) + AbsReal(a.y - b.y)
  }

  lemma ManhattanSymmetric(a: FVec3, b: FVec3)
    ensures ManhattanDistance(a, b) == ManhattanDistance(b, a)
  {
  }

  lemma ManhattanTriangle(a: FVec3, b: FVec3, c: FVec3)
    ensures ManhattanDistance(a, c) <= ManhattanDistance(a, b) + ManhattanDistance(b, c)
  {
  }

  /** A point whose x is an integer plus one half is never at Manhattan
      distance 0 from a point with integral x. The source asserts that
      every flying object travels a positive distance; this is why its
      launches satisfy that assertion. */
  lemma HalfOffsetDistance(a: FVec3, b: FVec3, k: int, m: int)
    requires a.x == k as real + 0.5 && b.x == m as real
    ensures ManhattanDistance(a, b) > 0.0
  {
    if k >= m {
      assert a.x - b.x >= 0.5;
    } else {
      assert k + 1 <= m;
      assert a.x - b.x <= -0.5;
    }
  }
}
