// The components of game/SimComponents.hh. The entity store of the
// simulation (see SimState) maps an entity's id to one Entity value holding
// its components; a component update is the replacement of that value.
module Components {
  import opened Common
  import opened Defs

  // ---- flying objects ----

  /** FlyingObject: a transfer from `from` to `to`; `progress` runs from 0 to
      past 1 over the flight, `lastProgress` is its value one tick earlier. */
  datatype Flight = Flight(lastProgress: real, progress: real, from: FVec3, to: FVec3, distance: real)

  /** The FlyingObject constructor, which asserts a positive distance. */
  function NewFlight(from: FVec3, to: FVec3): (f: Flight)
    requires ManhattanDistance(from, to) > 0.0
    ensures f.progress == 0.0 && f.lastProgress == 0.0
    ensures f.distance > 0.0 && f.distance == ManhattanDistance(to, from)
    ensures f.from == from && f.to == to
  {
    Flight(0.0, 0.0, from, to, ManhattanDistance(from, to))
  }

  /** What a flying object carries: FlyingResource, FlyingBlock (with the
      handle of the building it is for) or Rocket. */
  datatype Cargo =
    | ResourceCargo(resource: ResourceType, amount: nat)
    | BlockCargo(target: EntityId, block: Block)
    | RocketCargo

  // ---- buildings ----

  /** Building: its kind, the grid point it stands on and that point's
      height (together glm::uvec3 position), whether it is finished, the
      blocks delivered so far and the handles of the flying blocks on their
      way to it. */
  datatype Building = Building(
    btype: BuildingType,
    at: Pos,
    height: nat,
    finished: bool,
    blocks: seq<Block>,
    incoming: seq<EntityId>)

  /** Every block the type needs has been delivered. */
  predicate Complete(need: seq<Block>, have: seq<Block>)
  {
    forall i | 0 <= i < |need| :: need[i] in have
  }

  /** The Building constructor: a building created finished already holds
      all of its type's blocks; an unfinished one holds none. */
  function NewBuilding(info: BuildingTypeInfo, t: BuildingType, at: Pos, height: nat, finished: bool): (b: Building)
    ensures b.btype == t && b.at == at && b.height == height && b.finished == finished
    ensures finished ==> Complete(info.blocks, b.blocks)
    ensures !finished ==> b.blocks == []
    ensures b.incoming == []
  {
    Building(t, at, height, finished, if finished then info.blocks else [], [])
  }

  /** Building::addBlock: a finished building ignores the block; otherwise
      the block is appended and the building is finished exactly when every
      block of its type is present. */
  method AddBlock(b: Building, info: BuildingTypeInfo, blk: Block) returns (r: Building)
    ensures b.finished ==> r == b
    ensures !b.finished ==> r == b.(blocks := b.blocks + [blk], finished := r.finished)
    ensures !b.finished ==> (r.finished <==> Complete(info.blocks, b.blocks + [blk]))
  {
    if b.finished {
      return b;
    }
    var blocks := b.blocks + [blk];
    var finished := true;
    var i := 0;
    while i < |info.blocks|
      invariant 0 <= i <= |info.blocks|
      invariant finished <==> forall k | 0 <= k < i :: info.blocks[k] in blocks
    {
      if info.blocks[i] !in blocks {
        finished := false;
      }
      i := i + 1;
    }
    r := b.(blocks := blocks, finished := finished);
  }

  /** The block carried by the live flying block `id`, if there is one: a
      FlyingBlock handle is valid while its entity exists. */
  function Carried(store: map<EntityId, Entity>, id: EntityId): Option<Block>
  {
    if id in store && store[id].body.FlyingBody? && store[id].body.cargo.BlockCargo? then
      Some(store[id].body.cargo.block)
    else
      None
  }

  /** Some live incoming flying block carries `blk`. */
  predicate InFlight(store: map<EntityId, Entity>, incoming: seq<EntityId>, blk: Block)
  {
    exists i | 0 <= i < |incoming| :: Carried(store, incoming[i]) == Some(blk)
  }

  /** A block is needed when the type lists it, it has not been delivered
      and no live incoming flying block carries it. */
  predicate Needed(b: Building, info: BuildingTypeInfo, store: map<EntityId, Entity>, blk: Block)
  {
    blk !in b.blocks && !InFlight(store, b.incoming, blk) && blk in info.blocks
  }

  /** Building::isBlockNeeded(block). */
  method IsBlockNeeded(b: Building, info: BuildingTypeInfo, store: map<EntityId, Entity>, blk: Block)
    returns (needed: bool)
    ensures needed <==> blk !in b.blocks && !InFlight(store, b.incoming, blk) && blk in info.blocks
  {
    if blk in b.blocks {
      return false;
    }
    var i := 0;
    while i < |b.incoming|
      invariant 0 <= i <= |b.incoming|
      invariant forall k | 0 <= k < i :: Carried(store, b.incoming[k]) != Some(blk)
    {
      if Carried(store, b.incoming[i]) == Some(blk) {
        return false;
      }
      i := i + 1;
    }
    needed := blk in info.blocks;
  }

  /** Building::isBlockNeeded(): some block of the type is still needed. */
  method AnyBlockNeeded(b: Building, info: BuildingTypeInfo, store: map<EntityId, Entity>)
    returns (any: bool)
    ensures any <==> exists k | 0 <= k < |info.blocks| :: Needed(b, info, store, info.blocks[k])
  {
    var i := 0;
    while i < |info.blocks|
      invariant 0 <= i <= |info.blocks|
      invariant forall k | 0 <= k < i :: !Needed(b, info, store, info.blocks[k])
    {
      var needed := IsBlockNeeded(b, info, store, info.blocks[i]);
      if needed {
        return true;
      }
      i := i + 1;
    }
    any := false;
  }

  /** Building::nextNeededBlock: the first needed block in the type's order.
      The source asserts that the building is unfinished and that some
      block is needed. */
  method NextNeededBlock(b: Building, info: BuildingTypeInfo, store: map<EntityId, Entity>)
    returns (blk: Block, ghost k: nat)
    requires !b.finished
    requires exists j | 0 <= j < |info.blocks| :: Needed(b, info, store, info.blocks[j])
    ensures k < |info.blocks| && blk == info.blocks[k] && Needed(b, info, store, blk)
    ensures forall j | 0 <= j < k :: !Needed(b, info, store, info.blocks[j])
  {
    var i := 0;
    while i < |info.blocks|
      invariant 0 <= i <= |info.blocks|
      invariant forall j | 0 <= j < i :: !Needed(b, info, store, info.blocks[j])
    {
      var needed := IsBlockNeeded(b, info, store, info.blocks[i]);
      if needed {
        return info.blocks[i], i;
      }
      i := i + 1;
    }
    assert false;
  }

  /** A delivered block is no longer needed. */
  lemma DeliveredNotNeeded(b: Building, info: BuildingTypeInfo, store: map<EntityId, Entity>, blk: Block)
    requires !b.finished
    ensures !Needed(b.(blocks := b.blocks + [blk]), info, store, blk)
  {
    assert (b.blocks + [blk])[|b.blocks|] == blk;
  }

  /** A block registered as incoming while its flying entity is alive is
      not needed again, and no other block's need changes. */
  lemma IncomingNotNeeded(b: Building, info: BuildingTypeInfo, store: map<EntityId, Entity>, id: EntityId, blk: Block)
    requires Carried(store, id) == Some(blk)
    ensures !Needed(b.(incoming := b.incoming + [id]), info, store, blk)
    ensures forall other | other != blk ::
              Needed(b.(incoming := b.incoming + [id]), info, store, other) == Needed(b, info, store, other)
  {
    var inc := b.incoming + [id];
    assert inc[|b.incoming|] == id;
    forall other | other != blk
      ensures InFlight(store, inc, other) == InFlight(store, b.incoming, other)
    {
      if InFlight(store, b.incoming, other) {
        var i :| 0 <= i < |b.incoming| && Carried(store, b.incoming[i]) == Some(other);
        assert inc[i] == b.incoming[i];
      }
      if InFlight(store, inc, other) {
        var i :| 0 <= i < |inc| && Carried(store, inc[i]) == Some(other);
        assert i < |b.incoming| && b.incoming[i] == inc[i];
      }
    }
  }

  /** A finished building needs no block: every block its type lists has
      been delivered. */
  lemma CompleteNeedsNothing(b: Building, info: BuildingTypeInfo, store: map<EntityId, Entity>)
    requires Complete(info.blocks, b.blocks)
    ensures forall blk :: !Needed(b, info, store, blk)
  {
    forall blk | blk in info.blocks
      ensures blk in b.blocks
    {
      var i :| 0 <= i < |info.blocks| && info.blocks[i] == blk;
    }
  }

  /** Building::isUsable: finished, and the grid point it stands on holds
      no water. */
  predicate IsUsable(b: Building, water: real)
  {
    b.finished && water == 0.0
  }

  /** A building placed unfinished is not usable, and one placed finished is
      usable exactly on a dry point. */
  lemma UsableWhenPlaced(info: BuildingTypeInfo, t: BuildingType, at: Pos, height: nat, water: real)
    ensures !IsUsable(NewBuilding(info, t, at, height, false), water)
    ensures IsUsable(NewBuilding(info, t, at, height, true), water) <==> water == 0.0
  {
  }

  // ---- main buildings ----

  /** Where std::find stops: the first position holding `e`. */
  function IndexOf(queue: seq<EntityId>, e: EntityId): (k: nat)
    requires e in queue
    ensures k < |queue| && queue[k] == e && e !in queue[..k]
  {
    if queue[0] == e then 0
    else
      var k := IndexOf(queue[1..], e);
      assert queue[..k + 1] == [queue[0]] + queue[1..][..k];
      k + 1
  }

  /** MainBuilding::removeFromQueue: the first occurrence of `e` leaves the
      queue and the rest keep their order (the source asserts `e` is
      queued). */
  function RemoveFirst(queue: seq<EntityId>, e: EntityId): (r: seq<EntityId>)
    requires e in queue
    ensures r == queue[..IndexOf(queue, e)] + queue[IndexOf(queue, e) + 1..]
  {
    if queue[0] == e then
      queue[1..]
    else
      var rest := RemoveFirst(queue[1..], e);
      var k := IndexOf(queue[1..], e);
      assert queue[..k + 1] == [queue[0]] + queue[1..][..k];
      assert queue[k + 2..] == queue[1..][k + 1..];
      [queue[0]] + rest
  }

  /** removeFromQueue removes exactly one `e` and nothing else. */
  lemma RemoveFirstPermutes(queue: seq<EntityId>, e: EntityId)
    requires e in queue
    ensures |RemoveFirst(queue, e)| == |queue| - 1
    ensures multiset(RemoveFirst(queue, e)) == multiset(queue) - multiset{e}
  {
    var k := IndexOf(queue, e);
    var a, b := queue[..k], queue[k + 1..];
    assert queue == a + [e] + b;
    calc {
      multiset(queue);
      multiset(a + [e] + b);
      multiset(a) + multiset{e} + multiset(b);
    }
    assert multiset(RemoveFirst(queue, e)) == multiset(a) + multiset(b);
  }

  /** Removing the head of a queue leaves its tail. */
  lemma RemoveHead(queue: seq<EntityId>)
    requires |queue| > 0
    ensures RemoveFirst(queue, queue[0]) == queue[1..]
  {
  }

  // ---- entities ----

  /** What an entity is made of besides its GameObject. A building carries
      MainBuilding (the build queue and the time of the last launch) or
      MinerBuilding (the resource it mines and the amount stored) as its
      role. */
  datatype Role =
    | Plain
    | MainRole(queue: seq<EntityId>, timeLastLaunch: real)
    | MinerRole(resource: ResourceType, amountStored: real)

  datatype Body =
    | BuildingBody(building: Building, role: Role)
    | TreeBody(at: Pos, height: nat)
    | FlyingBody(flight: Flight, cargo: Cargo)

  /** An entity: the owner of its GameObject and its other components. */
  datatype Entity = Entity(owner: PlayerId, body: Body)

  /** The role addBuilding assigns to a building of type `t`. */
  function RoleOf(t: BuildingType): (r: Role)
    ensures r.MainRole? <==> t == Main
    ensures r.MinerRole? <==> t == Miner
    ensures r.MainRole? ==> r.queue == [] && r.timeLastLaunch == 0.0
    ensures r.MinerRole? ==> r.amountStored == 0.0
  {
    match t
    case Main => MainRole([], 0.0)
    case Miner => MinerRole(Iron, 0.0)
    case _ => Plain
  }
}
