// SimState of game/SimState.cc: everything the next state of the game is
// computed from. Entities live in a finite map from their GameObject id to
// their components; the grid is the Map of grid.dfy.
module SimStates {
  import opened Common
  import opened Defs
  import opened Settings
  import opened Orders
  import opened TerrainRules
  import opened Grid
  import opened Components

  // ---- players ----

  /** A player's stock, one amount per resource type. */
  datatype PlayerState = PlayerState(info: PlayerInfo, resources: seq<nat>)

  /** The PlayerState constructor: 30 of every resource. */
  function NewPlayerState(info: PlayerInfo): (p: PlayerState)
    ensures p.info == info && |p.resources| == RESOURCE_MAX
    ensures forall r | 0 <= r < RESOURCE_MAX :: p.resources[r] == 30
  {
    PlayerState(info, seq(RESOURCE_MAX, _ => 30))
  }

  /** haveResources: the stock covers every cost. */
  predicate HaveResources(p: PlayerState, costs: seq<nat>)
    requires |p.resources| == RESOURCE_MAX && |costs| == RESOURCE_MAX
  {
    forall r | 0 <= r < RESOURCE_MAX :: costs[r] <= p.resources[r]
  }

  /** takeResources: every cost is deducted. */
  function TakeResources(p: PlayerState, costs: seq<nat>): (q: PlayerState)
    requires |p.resources| == RESOURCE_MAX && |costs| == RESOURCE_MAX
    requires HaveResources(p, costs)
    ensures q.info == p.info && |q.resources| == RESOURCE_MAX
    ensures forall r | 0 <= r < RESOURCE_MAX :: q.resources[r] + costs[r] == p.resources[r]
  {
    p.(resources := seq(RESOURCE_MAX, r requires 0 <= r < RESOURCE_MAX => p.resources[r] - costs[r]))
  }

  /** giveResources: `amount` more of one resource, nothing else changes. */
  function GiveResources(p: PlayerState, resource: ResourceType, amount: nat): (q: PlayerState)
    requires |p.resources| == RESOURCE_MAX
    ensures q.info == p.info && |q.resources| == RESOURCE_MAX
    ensures forall r | 0 <= r < RESOURCE_MAX ::
              q.resources[r] == p.resources[r] + (if r == ResourceIndex(resource) then amount else 0)
  {
    p.(resources := p.resources[ResourceIndex(resource) := p.resources[ResourceIndex(resource)] + amount])
  }

  /** A player can afford `costs` exactly when paying them leaves a stock
      of no negative amount. */
  lemma HaveResourcesExact(p: PlayerState, costs: seq<nat>)
    requires |p.resources| == RESOURCE_MAX && |costs| == RESOURCE_MAX
    ensures HaveResources(p, costs) <==>
            exists q: PlayerState :: |q.resources| == RESOURCE_MAX &&
              forall r | 0 <= r < RESOURCE_MAX :: q.resources[r] + costs[r] == p.resources[r]
  {
    if HaveResources(p, costs) {
      var q := TakeResources(p, costs);
      assert forall r | 0 <= r < RESOURCE_MAX :: q.resources[r] + costs[r] == p.resources[r];
    }
  }

  /** Taking what a player can afford and giving it back restores the stock. */
  lemma TakeGiveRoundTrip(p: PlayerState, costs: seq<nat>, resource: ResourceType)
    requires |p.resources| == RESOURCE_MAX && |costs| == RESOURCE_MAX && HaveResources(p, costs)
    ensures GiveResources(TakeResources(p, costs), resource, costs[ResourceIndex(resource)]) == p
  {
    var q := GiveResources(TakeResources(p, costs), resource, costs[ResourceIndex(resource)]);
    assert q.resources == p.resources;
  }

  /** The ids of a player list. */
  function Ids(infos: seq<PlayerInfo>): set<PlayerId>
  {
    set i | 0 <= i < |infos| :: infos[i].id
  }

  /** Entry `i` is the first entry of the list with its id. */
  predicate FirstWithId(infos: seq<PlayerInfo>, i: nat)
    requires i < |infos|
  {
    forall j | 0 <= j < i :: infos[j].id != infos[i].id
  }

  /** The players registered from a list: std::map::emplace adds an entry
      for an id not seen before and keeps the first entry of an id listed
      twice. */
  function Registered(infos: seq<PlayerInfo>): map<PlayerId, PlayerState>
  {
    if infos == [] then map[]
    else
      var m := Registered(infos[..|infos| - 1]);
      var last := infos[|infos| - 1];
      if last.id in m then m else m[last.id := NewPlayerState(last)]
  }

  /** Every listed id is registered, and no other. */
  lemma {:induction false} RegisteredKeys(infos: seq<PlayerInfo>)
    ensures Registered(infos).Keys == Ids(infos)
  {
    if infos != [] {
      var n := |infos| - 1;
      RegisteredKeys(infos[..n]);
      IdsExtend(infos, n);
      assert infos[..n + 1] == infos;
    }
  }

  /** Each id is registered with the first entry that lists it. */
  lemma {:induction false} RegisteredFirst(infos: seq<PlayerInfo>, i: nat)
    requires i < |infos| && FirstWithId(infos, i)
    ensures infos[i].id in Registered(infos) && Registered(infos)[infos[i].id] == NewPlayerState(infos[i])
  {
    var n := |infos| - 1;
    var pre := infos[..n];
    RegisteredKeys(pre);
    IdsPrefix(infos, n);
    if i < n {
      assert pre[i] == infos[i];
      assert FirstWithId(pre, i);
      RegisteredFirst(pre, i);
    }
  }

  /** Every registered player starts with a full stock table. */
  lemma {:induction false} RegisteredStock(infos: seq<PlayerInfo>)
    ensures forall id | id in Registered(infos) :: |Registered(infos)[id].resources| == RESOURCE_MAX
  {
    if infos != [] {
      RegisteredStock(infos[..|infos| - 1]);
    }
  }

  /** SimState::playersFromSettings. */
  method PlayersFromSettings(infos: seq<PlayerInfo>) returns (players: map<PlayerId, PlayerState>)
    ensures players == Registered(infos)
  {
    players := map[];
    var n := 0;
    while n < |infos|
      invariant n <= |infos|
      invariant players == Registered(infos[..n])
    {
      assert infos[..n + 1][..n] == infos[..n];
      if infos[n].id !in players {
        players := players[infos[n].id := NewPlayerState(infos[n])];
      }
      n := n + 1;
    }
    assert infos[..n] == infos;
  }

  /** The ids of a prefix are the ids of its entries. */
  lemma IdsPrefix(infos: seq<PlayerInfo>, n: nat)
    requires n <= |infos|
    ensures forall i | 0 <= i < n :: infos[i].id in Ids(infos[..n])
    ensures forall id | id in Ids(infos[..n]) :: exists i | 0 <= i < n :: infos[i].id == id
  {
    forall i | 0 <= i < n
      ensures infos[i].id in Ids(infos[..n])
    {
      assert infos[..n][i] == infos[i];
    }
    forall id | id in Ids(infos[..n])
      ensures exists i | 0 <= i < n :: infos[i].id == id
    {
      var i :| 0 <= i < n && infos[..n][i].id == id;
      assert infos[i] == infos[..n][i];
    }
  }

  /** The ids of one more entry. */
  lemma IdsExtend(infos: seq<PlayerInfo>, n: nat)
    requires n < |infos|
    ensures Ids(infos[..n + 1]) == Ids(infos[..n]) + {infos[n].id}
  {
    var a, b := infos[..n], infos[..n + 1];
    forall id | id in Ids(b)
      ensures id in Ids(a) + {infos[n].id}
    {
      var i :| 0 <= i < |b| && b[i].id == id;
      if i < n {
        assert a[i] == b[i];
      }
    }
    forall id | id in Ids(a)
      ensures id in Ids(b)
    {
      var i :| 0 <= i < |a| && a[i].id == id;
      assert b[i] == a[i];
    }
    assert b[n] == infos[n];
  }

  // ---- geometry of buildings ----

  /** The x and y extent of a building type (BuildingTypeInfo::size). */
  function Extent(t: BuildingType): (s: Pos)
    ensures s.x == TableSize(t).x && s.y == TableSize(t).y
  {
    match t
    case Main => Pos(5, 5)
    case Store => Pos(2, 2)
    case Miner => Pos(1, 1)
    case Tower => Pos(1, 1)
  }

  /** The middle of the top of a building, where its launches start and
      resource transfers aim: position + (size.x / 2, size.y / 2, size.z). */
  function Top(b: Building): FVec3
  {
    FVec3(b.at.x as real + TableSize(b.btype).x as real / 2.0,
          b.at.y as real + TableSize(b.btype).y as real / 2.0,
          b.height as real + TableSize(b.btype).z as real)
  }

  /** Where a block lands: the building's position plus the block's offset. */
  function BlockTarget(b: Building, blk: Block): FVec3
  {
    FVec3((b.at.x + blk.pos.x) as real, (b.at.y + blk.pos.y) as real, (b.height + blk.pos.z) as real)
  }

  /** The grid point under a non-negative position (Fixed::toInt). */
  function CellOf(v: FVec3): (c: Pos)
    requires v.x >= 0.0 && v.y >= 0.0
    ensures c.x as real <= v.x < c.x as real + 1.0 && c.y as real <= v.y < c.y as real + 1.0
  {
    Pos(v.x.Floor, v.y.Floor)
  }

  /** The lowest coordinate of the margin canPlaceBuilding inspects. */
  function MarginStart(n: nat): nat
  {
    if n > 0 then n - 1 else 0
  }

  /** The first coordinate findClosestBuilding scans. */
  function ScanStart(n: nat, range: nat): nat
  {
    if n >= range then n - range else 0
  }

  // ---- the entity store ----

  /** A reference to an entity that was alive when it was taken: the id is
      no larger than the counter, and if the entity still exists it is a
      building (ids are never reused). */
  ghost predicate BuildingRef(store: map<EntityId, Entity>, counter: nat, q: EntityId)
  {
    q <= counter && (q in store ==> store[q].body.BuildingBody?)
  }

  /** What the systems rely on of an entity. A building's owner is a
      player, and its MainBuilding or MinerBuilding component matches its
      type; the build queue holds buildings. A flying object travels a
      positive distance and has not yet landed; a resource or rocket aims
      at a non-negative position, a rocket at a point of the grid, and a
      block flies to a building. */
  ghost predicate Sound(e: Entity, players: set<PlayerId>, store: map<EntityId, Entity>, counter: nat, sizeX: nat, sizeY: nat)
  {
    match e.body
    case BuildingBody(b, role) =>
      e.owner in players &&
      (role.MainRole? <==> b.btype == Main) && (role.MinerRole? <==> b.btype == Miner) &&
      (role.MainRole? ==> forall q | q in role.queue :: BuildingRef(store, counter, q))
    case TreeBody(_, _) => true
    case FlyingBody(f, cargo) =>
      f.distance > 0.0 && 0.0 <= f.progress <= 1.0 &&
      (cargo.BlockCargo? ==> BuildingRef(store, counter, cargo.target)) &&
      (!cargo.BlockCargo? ==> f.to.x >= 0.0 && f.to.y >= 0.0) &&
      (cargo.RocketCargo? ==> f.to.x.Floor < sizeX && f.to.y.Floor < sizeY)
  }

  /** Every stored entity has an id handed out by the counter and is sound. */
  ghost predicate StoreOk(players: set<PlayerId>, store: map<EntityId, Entity>, counter: nat, sizeX: nat, sizeY: nat)
  {
    forall id | id in store :: 0 < id <= counter && Sound(store[id], players, store, counter, sizeX, sizeY)
  }

  /** A new entity under the next id leaves every other entity sound. */
  lemma StoreAdd(players: set<PlayerId>, store: map<EntityId, Entity>, counter: nat, sizeX: nat, sizeY: nat, e: Entity)
    requires StoreOk(players, store, counter, sizeX, sizeY)
    requires Sound(e, players, store[counter + 1 := e], counter + 1, sizeX, sizeY)
    ensures counter + 1 !in store
    ensures StoreOk(players, store[counter + 1 := e], counter + 1, sizeX, sizeY)
  {
    var s := store[counter + 1 := e];
    forall id | id in s
      ensures 0 < id <= counter + 1 && Sound(s[id], players, s, counter + 1, sizeX, sizeY)
    {
      if id != counter + 1 {
        var x := store[id];
        assert forall q | BuildingRef(store, counter, q) :: BuildingRef(s, counter + 1, q);
        match x.body
        case BuildingBody(b, role) =>
        case TreeBody(_, _) =>
        case FlyingBody(f, cargo) =>
      }
    }
  }

  /** Replacing an entity by a sound one of the same kind (a building by a
      building) keeps the store sound. */
  lemma StoreReplace(players: set<PlayerId>, store: map<EntityId, Entity>, counter: nat, sizeX: nat, sizeY: nat,
                     id: EntityId, e: Entity)
    requires StoreOk(players, store, counter, sizeX, sizeY) && id in store
    requires store[id].body.BuildingBody? <==> e.body.BuildingBody?
    requires Sound(e, players, store[id := e], counter, sizeX, sizeY)
    ensures StoreOk(players, store[id := e], counter, sizeX, sizeY)
  {
    var s := store[id := e];
    assert forall q | BuildingRef(store, counter, q) :: BuildingRef(s, counter, q);
    forall k | k in s
      ensures 0 < k <= counter && Sound(s[k], players, s, counter, sizeX, sizeY)
    {
      if k != id {
        match store[k].body
        case BuildingBody(b, role) =>
        case TreeBody(_, _) =>
        case FlyingBody(f, cargo) =>
      }
    }
  }

  /** Destroying entities keeps the store sound: a reference to a destroyed
      entity is simply no longer alive. */
  lemma StoreRemove(players: set<PlayerId>, store: map<EntityId, Entity>, counter: nat, sizeX: nat, sizeY: nat,
                    gone: set<EntityId>)
    requires StoreOk(players, store, counter, sizeX, sizeY)
    ensures StoreOk(players, Without(store, gone), counter, sizeX, sizeY)
  {
    var s := Without(store, gone);
    assert forall q | BuildingRef(store, counter, q) :: BuildingRef(s, counter, q);
    forall k | k in s
      ensures 0 < k <= counter && Sound(s[k], players, s, counter, sizeX, sizeY)
    {
      match store[k].body
      case BuildingBody(b, role) =>
      case TreeBody(_, _) =>
      case FlyingBody(f, cargo) =>
    }
  }

  /** The store after EntityManager::destroy of every id in `gone`. */
  function Without(store: map<EntityId, Entity>, gone: set<EntityId>): (r: map<EntityId, Entity>)
    ensures forall id :: id in r <==> id in store && id !in gone
    ensures forall id | id in r :: r[id] == store[id]
  {
    map id | id in store && id !in gone :: store[id]
  }

  /** How many trees the SimState constructor plants. */
  const NUM_TREES: nat := 20

  /** The entity addBuilding creates. */
  function BuildingEntity(owner: PlayerId, info: BuildingTypeInfo, t: BuildingType, at: Pos, height: nat, finished: bool): Entity
  {
    Entity(owner, BuildingBody(NewBuilding(info, t, at, height, finished), RoleOf(t)))
  }

  /** A grid point at its height, as a position (fvec3(p, height)). */
  function Spot(q: Pos, height: nat): FVec3
  {
    FVec3(q.x as real, q.y as real, height as real)
  }

  predicate IsBuilding(store: map<EntityId, Entity>, id: EntityId)
  {
    id in store && store[id].body.BuildingBody?
  }

  predicate FinishedBuilding(store: map<EntityId, Entity>, id: EntityId, t: BuildingType)
  {
    IsBuilding(store, id) && store[id].body.building.finished && store[id].body.building.btype == t
  }

  /** MainBuilding::build (`clear`: the queue becomes just `id`) or
      MainBuilding::queueBuild (`id` joins the end of the queue). */
  function QueueBuild(e: Entity, id: EntityId, clear: bool): (r: Entity)
    requires e.body.BuildingBody? && e.body.role.MainRole?
    ensures r.owner == e.owner && r.body.BuildingBody? && r.body.building == e.body.building && r.body.role.MainRole?
    ensures r.body.role.timeLastLaunch == e.body.role.timeLastLaunch
    ensures id in r.body.role.queue && |r.body.role.queue| == (if clear then 1 else |e.body.role.queue| + 1)
    ensures clear ==> r.body.role.queue[0] == id
    ensures !clear ==> r.body.role.queue[..|e.body.role.queue|] == e.body.role.queue && r.body.role.queue[|e.body.role.queue|] == id
  {
    var q := if clear then [id] else e.body.role.queue + [id];
    e.(body := e.body.(role := e.body.role.(queue := q)))
  }

  /** One coordinate of the ATTACK target: v + rand() % 10 - 5, clamped
      into [0, size). The rocket lands at most 5 points before and 4 after
      the ordered point. */
  function AttackCoord(v: nat, roll: nat, size: nat): (c: nat)
    requires v < size
    ensures c < size && -5 <= c - v <= 4
    ensures 0 <= v + roll % 10 - 5 < size ==> c == v + roll % 10 - 5
  {
    var d := v + roll % 10 - 5;
    if d < 0 then 0 else if d >= size then size - 1 else d
  }

  // ---- miners' stock ----

  /** Every miner of the store holds less than 2 + dt. */
  ghost predicate MinersBounded(store: map<EntityId, Entity>, dt: real)
  {
    forall id | id in store && store[id].body.BuildingBody? && store[id].body.role.MinerRole? ::
      0.0 <= store[id].body.role.amountStored < 2.0 + dt
  }

  /** Some finished main building in `store` belongs to `owner`. */
  ghost predicate HasMain(store: map<EntityId, Entity>, owner: PlayerId)
  {
    exists id | id in store :: store[id].owner == owner && store[id].body.BuildingBody? &&
                               store[id].body.building.btype == Main && store[id].body.building.finished
  }

  /** `after` still holds every entity of `before`, unchanged. */
  ghost predicate KeepsAll(before: map<EntityId, Entity>, after: map<EntityId, Entity>)
  {
    forall k | k in before :: k in after && after[k] == before[k]
  }

  /** A new entity under a fresh id keeps every entity, and every miner's
      stock when it is no miner itself. */
  lemma FreshKeeps(a: map<EntityId, Entity>, id: EntityId, e: Entity)
    requires id !in a && !(e.body.BuildingBody? && e.body.role.MinerRole?)
    ensures KeepsAll(a, a[id := e]) && MinersKept(a, a[id := e])
  {
  }

  /** A store that keeps every entity of `a` keeps its main buildings. */
  lemma HasMainKept(a: map<EntityId, Entity>, b: map<EntityId, Entity>, owner: PlayerId)
    requires KeepsAll(a, b)
    requires HasMain(a, owner)
    ensures HasMain(b, owner)
  {
    var id :| id in a && a[id].owner == owner && a[id].body.BuildingBody? &&
              a[id].body.building.btype == Main && a[id].body.building.finished;
    assert b[id] == a[id];
  }

  /** How many of `outcomes` succeeded. */
  function Count(outcomes: seq<bool>): (n: nat)
    ensures n <= |outcomes|
    ensures n == 0 <==> forall i | 0 <= i < |outcomes| :: !outcomes[i]
  {
    if |outcomes| == 0 then 0
    else Count(outcomes[..|outcomes| - 1]) + (if outcomes[|outcomes| - 1] then 1 else 0)
  }

  /** One more outcome is counted when it succeeded. */
  lemma {:induction false} CountSnoc(outcomes: seq<bool>, b: bool)
    ensures Count(outcomes + [b]) == Count(outcomes) + (if b then 1 else 0)
  {
    assert (outcomes + [b])[..|outcomes|] == outcomes;
  }

  /** Every miner of `after` holds what it held in `before`, or nothing. */
  ghost predicate MinersKept(before: map<EntityId, Entity>, after: map<EntityId, Entity>)
  {
    forall id | id in after && after[id].body.BuildingBody? && after[id].body.role.MinerRole? ::
      after[id].body.role.amountStored == 0.0 ||
      (id in before && before[id].body.BuildingBody? && before[id].body.role.MinerRole? &&
       after[id].body.role.amountStored == before[id].body.role.amountStored)
  }

  /** A change that keeps the miners' stock keeps them bounded. */
  lemma MinersKeptBounded(before: map<EntityId, Entity>, after: map<EntityId, Entity>, dt: real)
    requires dt >= 0.0 && MinersBounded(before, dt) && MinersKept(before, after)
    ensures MinersBounded(after, dt)
  {
  }

  /** Keeping the miners' stock is transitive. */
  lemma MinersKeptTrans(a: map<EntityId, Entity>, b: map<EntityId, Entity>, c: map<EntityId, Entity>)
    requires MinersKept(a, b) && MinersKept(b, c)
    ensures MinersKept(a, c)
  {
  }

  // ---- the state ----

  /** A SimState as a value: the players, the entity store and its
      counter, the grid with its growing set, the time and the water
      level. */
  datatype World = World(players: map<PlayerId, PlayerState>, entities: map<EntityId, Entity>, counter: nat,
                         ground: Ground, time: real, waterLevel: nat)

  /** The buildings of a store with their owners. */
  function SitesOf(entities: map<EntityId, Entity>): map<EntityId, (PlayerId, Building)>
  {
    map id | id in entities && entities[id].body.BuildingBody? :: (entities[id].owner, entities[id].body.building)
  }

  class SimState {
    const settings: GameSettings
    /** buildingTypeInfo[]. */
    const table: TypeTable
    /** GridPoint::usable, which is not part of this model. */
    const usable: GridPoint -> bool
    const grid: Map
    var players: map<PlayerId, PlayerState>
    var entities: map<EntityId, Entity>
    var entityCounter: nat
    var time: real
    var waterLevel: nat

    ghost predicate Valid()
      reads this, grid, grid.points
    {
      grid.Valid() && table.Valid() && grid.DryAbove(waterLevel) && time >= 0.0 &&
      (forall pl | pl in players :: |players[pl].resources| == RESOURCE_MAX) &&
      StoreOk(players.Keys, entities, entityCounter, grid.sizeX, grid.sizeY)
    }

    /** The buildings of the store with their owners. */
    ghost function Sites(): map<EntityId, (PlayerId, Building)>
      reads this
    {
      SitesOf(entities)
    }

    /** The state as a value. */
    ghost function Now(): World
      reads this, grid, grid.points
      requires grid.Sized()
    {
      World(players, entities, entityCounter, grid.Snapshot(), time, waterLevel)
    }

    /** A valid state is coherent. */
    lemma NowCoherent()
      requires Valid()
      ensures Coherent(Now())
    {
    }

    /** What Valid demands of a state, on values: the grid covers exactly
        the map, every player holds one stock per resource and the store
        is sound. */
    ghost predicate Coherent(w: World)
    {
      table.Valid() && (forall q :: q in w.ground.cells <==> grid.InMap(q)) &&
      (forall pl | pl in w.players :: |w.players[pl].resources| == RESOURCE_MAX) &&
      StoreOk(w.players.Keys, w.entities, w.counter, grid.sizeX, grid.sizeY)
    }

    /** The SimState constructor up to the placement of spawn points and
        trees: the map generated from the noise heights `raw`, one player
        per listed player, no entities, time and water level 0. */
    constructor (settings: GameSettings, table: TypeTable, usable: GridPoint -> bool, conn: Connectivity,
                 raw: seq<seq<nat>>)
      requires settings.mapW > 0 && settings.mapH > 0 && table.Valid()
      requires |raw| == settings.mapW as nat && forall i | 0 <= i < |raw| :: |raw[i]| == settings.mapH as nat
      ensures Valid() && fresh(grid) && fresh(grid.points)
      ensures this.settings == settings && this.table == table && this.usable == usable
      ensures grid.sizeX == settings.mapW as nat && grid.sizeY == settings.mapH as nat
      ensures players == Registered(settings.players) && players.Keys == Ids(settings.players)
      ensures entities == map[] && entityCounter == 0 && time == 0.0 && waterLevel == 0
    {
      this.settings := settings;
      this.table := table;
      this.usable := usable;
      var m;
      ghost var floor;
      m, floor := Map.Generate(settings.mapW as nat, settings.mapH as nat, settings.heightLimit as nat, raw, conn);
      grid := m;
      var ps := PlayersFromSettings(settings.players);
      RegisteredKeys(settings.players);
      RegisteredStock(settings.players);
      players := ps;
      entities := map[];
      entityCounter := 0;
      time := 0.0;
      waterLevel := 0;
      new;
      assert grid.DryAbove(0);
    }

    // ---- queries ----

    /** Every point of the margin rectangle [p - 1, p + size] is on the map,
        at p's height and usable. */
    ghost predicate Placeable(t: BuildingType, p: Pos)
      reads this, grid, grid.points
      requires grid.Sized()
    {
      PlaceableIn(grid.Cells(), t, p)
    }

    /** Placeable on the grid `cells`. */
    ghost predicate PlaceableIn(cells: imap<Pos, GridPoint>, t: BuildingType, p: Pos)
    {
      var s := Extent(t);
      p.x + s.x < grid.sizeX && p.y + s.y < grid.sizeY && p in cells &&
      forall x: nat, y: nat | MarginStart(p.x) <= x <= p.x + s.x && MarginStart(p.y) <= y <= p.y + s.y ::
        Pos(x, y) in cells && cells[Pos(x, y)].height == cells[p].height && usable(cells[Pos(x, y)])
    }

    /** Placeable read off the array. */
    lemma PlaceableAt(t: BuildingType, p: Pos)
      requires grid.Sized()
      ensures Placeable(t, p) <==>
                var s := Extent(t);
                p.x + s.x < grid.sizeX && p.y + s.y < grid.sizeY &&
                forall x: nat, y: nat | MarginStart(p.x) <= x <= p.x + s.x && MarginStart(p.y) <= y <= p.y + s.y ::
                  grid.points[x, y].height == grid.points[p.x, p.y].height && usable(grid.points[x, y])
    {
      grid.SnapshotAt(grid.Snapshot());
    }

    /** SimState::canPlaceBuilding. */
    method CanPlaceBuilding(t: BuildingType, p: Pos) returns (ok: bool)
      requires grid.Sized()
      ensures ok <==> Placeable(t, p)
    {
      PlaceableAt(t, p);
      if !grid.InMap(p) {
        return false;
      }
      var s := Extent(t);
      var height := grid.points[p.x, p.y].height;
      var x := MarginStart(p.x);
      while x < p.x + s.x + 1
        invariant MarginStart(p.x) <= x <= p.x + s.x + 1
        invariant x > MarginStart(p.x) ==> p.y + s.y < grid.sizeY
        invariant x <= grid.sizeX
        invariant forall i: nat, j: nat | MarginStart(p.x) <= i < x && MarginStart(p.y) <= j <= p.y + s.y ::
                    grid.points[i, j].height == height && usable(grid.points[i, j])
      {
        if x >= grid.sizeX {
          return false;
        }
        var y := MarginStart(p.y);
        while y < p.y + s.y + 1
          invariant MarginStart(p.y) <= y <= p.y + s.y + 1 && y <= grid.sizeY
          invariant forall j: nat | MarginStart(p.y) <= j < y :: grid.points[x, j].height == height && usable(grid.points[x, j])
        {
          if y >= grid.sizeY {
            return false;
          }
          if grid.points[x, y].height != height {
            return false;
          }
          if !usable(grid.points[x, y]) {
            return false;
          }
          y := y + 1;
        }
        x := x + 1;
      }
      ok := true;
    }

    /** SimState::findClosestBuilding: the entity on the scanned cell closest
        to `p` that is a finished building of type `t` owned by `owner`
        within `range`; of equally close cells the first visited (x outer,
        y inner) wins. `at` is the cell it was found on. */
    method FindClosestBuilding(t: BuildingType, owner: PlayerId, p: Pos, range: nat)
      returns (r: Option<EntityId>, ghost at: Pos)
      requires grid.Sized()
      ensures Closest(grid.Cells(), grid.sizeX, grid.sizeY, Sites(), t, owner, p, range, r, at)
      ensures r.Some? ==> grid.InMap(at) && grid.points[at.x, at.y].entity == r
    {
      ghost var cells, sites := grid.Cells(), Sites();
      r, at := None, p;
      var minDistance := 0;
      var x := ScanStart(p.x, range);
      while x < p.x + range && x < grid.sizeX
        invariant ScanStart(p.x, range) <= x
        invariant Best(cells, grid.sizeX, grid.sizeY, sites, t, owner, p, range, x, ScanStart(p.y, range), r, at)
        invariant r.Some? ==> minDistance == SqDistance(p, at) && at in cells && cells[at].entity == r
      {
        r, at, minDistance := ClosestInColumn(cells, sites, t, owner, p, range, x, r, at, minDistance);
        x := x + 1;
      }
      BestDone(cells, grid.sizeX, grid.sizeY, sites, t, owner, p, range, x, r, at);
      assert r.Some? ==> grid.points[at.x, at.y] == cells[at];
    }

    /** The inner loop of findClosestBuilding, over column `x`. */
    method ClosestInColumn(ghost cells: imap<Pos, GridPoint>, ghost sites: map<EntityId, (PlayerId, Building)>,
                           t: BuildingType, owner: PlayerId, p: Pos, range: nat, x: nat,
                           r0: Option<EntityId>, ghost at0: Pos, min0: nat)
      returns (r: Option<EntityId>, ghost at: Pos, minDistance: nat)
      requires grid.Sized() && x < grid.sizeX && ScanStart(p.x, range) <= x < p.x + range
      requires sites == Sites() && cells == grid.Cells()
      requires Best(cells, grid.sizeX, grid.sizeY, sites, t, owner, p, range, x, ScanStart(p.y, range), r0, at0)
      requires r0.Some? ==> min0 == SqDistance(p, at0) && at0 in cells && cells[at0].entity == r0
      ensures Best(cells, grid.sizeX, grid.sizeY, sites, t, owner, p, range, x + 1, ScanStart(p.y, range), r, at)
      ensures r.Some? ==> minDistance == SqDistance(p, at) && at in cells && cells[at].entity == r
    {
      r, at, minDistance := r0, at0, min0;
      var y := ScanStart(p.y, range);
      while y < p.y + range && y < grid.sizeY
        invariant ScanStart(p.y, range) <= y
        invariant Best(cells, grid.sizeX, grid.sizeY, sites, t, owner, p, range, x, y, r, at)
        invariant r.Some? ==> minDistance == SqDistance(p, at) && at in cells && cells[at].entity == r
      {
        r, at, minDistance := ClosestAt(cells, sites, t, owner, p, range, x, y, r, at, minDistance);
        y := y + 1;
      }
      BestNextColumn(cells, grid.sizeX, grid.sizeY, sites, t, owner, p, range, x, y, r, at);
    }

    /** The body of the inner loop of findClosestBuilding, at (x, y): a
        candidate strictly closer than the best so far replaces it. */
    method ClosestAt(ghost cells: imap<Pos, GridPoint>, ghost sites: map<EntityId, (PlayerId, Building)>,
                     t: BuildingType, owner: PlayerId, p: Pos, range: nat, x: nat, y: nat,
                     r0: Option<EntityId>, ghost at0: Pos, min0: nat)
      returns (r: Option<EntityId>, ghost at: Pos, minDistance: nat)
      requires grid.Sized() && x < grid.sizeX && y < grid.sizeY && ScanStart(p.x, range) <= x < p.x + range
      requires ScanStart(p.y, range) <= y < p.y + range
      requires sites == Sites() && cells == grid.Cells()
      requires Best(cells, grid.sizeX, grid.sizeY, sites, t, owner, p, range, x, y, r0, at0)
      requires r0.Some? ==> min0 == SqDistance(p, at0) && at0 in cells && cells[at0].entity == r0
      ensures Best(cells, grid.sizeX, grid.sizeY, sites, t, owner, p, range, x, y + 1, r, at)
      ensures r.Some? ==> minDistance == SqDistance(p, at) && at in cells && cells[at].entity == r
    {
      var g := grid.points[x, y];
      CandidateHere(cells, sites, x, y, t, owner, p, range);
      var distance := SqDistance(p, Pos(x, y));
      if FinishedOf(entities, g.entity, t, owner) && distance <= range * range && (r0.None? || distance < min0) {
        BestTake(cells, grid.sizeX, grid.sizeY, sites, t, owner, p, range, x, y, r0, at0);
        r, at, minDistance := g.entity, Pos(x, y), distance;
      } else {
        BestSkip(cells, grid.sizeX, grid.sizeY, sites, t, owner, p, range, x, y, r0, at0);
        r, at, minDistance := r0, at0, min0;
      }
    }

    /** What the loop of findClosestBuilding tests at (x, y) is CandidateAt. */
    lemma CandidateHere(cells: imap<Pos, GridPoint>, sites: map<EntityId, (PlayerId, Building)>, x: nat, y: nat,
                        t: BuildingType, owner: PlayerId, p: Pos, range: nat)
      requires grid.Sized() && x < grid.sizeX && y < grid.sizeY && sites == Sites() && cells == grid.Cells()
      ensures Pos(x, y) in cells && cells[Pos(x, y)] == grid.points[x, y]
      ensures CandidateAt(cells, sites, Pos(x, y), t, owner, p, range) <==>
              FinishedOf(entities, grid.points[x, y].entity, t, owner) && SqDistance(p, Pos(x, y)) <= range * range
    {
      assert grid.InMap(Pos(x, y));
    }

    // ---- creating entities ----

    /** SimState::addBuilding: a new building under the next id, with the
        component of its type, occupying the rectangle forRectangle(p, size)
        of the grid. */
    method AddBuilding(owner: PlayerId, t: BuildingType, p: Pos, finished: bool) returns (id: EntityId)
      requires Valid() && owner in players
      requires grid.InMap(Pos(p.x + Extent(t).x, p.y + Extent(t).y))
      modifies this, grid.points
      ensures Valid()
      ensures players == old(players) && time == old(time) && waterLevel == old(waterLevel)
      ensures id == old(entityCounter) + 1 && entityCounter == id && id !in old(entities)
      ensures entities == old(entities)[id := BuildingEntity(owner, table.Info(t), t, p, old(grid.points[p.x, p.y].height), finished)]
      ensures grid.Snapshot() == Map.Marked(old(grid.Snapshot()), p, Extent(t), id)
    {
      id := AddEntity(BuildingEntity(owner, table.Info(t), t, p, grid.points[p.x, p.y].height, finished));
      grid.MarkRect(p, Extent(t), id);
    }

    /** The state AddBuilding leaves, from the state `w0` before it, is Added. */
    lemma AddedNow(w0: World, owner: PlayerId, t: BuildingType, p: Pos, finished: bool, id: EntityId)
      requires grid.Sized() && p in w0.ground.cells && id == w0.counter + 1 && entityCounter == id
      requires players == w0.players && time == w0.time && waterLevel == w0.waterLevel
      requires entities == w0.entities[id := BuildingEntity(owner, table.Info(t), t, p, w0.ground.cells[p].height, finished)]
      requires grid.Snapshot() == Map.Marked(w0.ground, p, Extent(t), id)
      ensures Now() == Added(w0, owner, t, p, finished)
    {
    }

    /** SimState::placeTree: a neutral tree on a usable point. */
    method PlaceTree(p: Pos, ghost w0: World) returns (id: EntityId)
      requires Valid() && grid.InMap(p) && usable(grid.points[p.x, p.y]) && w0 == Now()
      modifies this, grid.points
      ensures Valid()
      ensures players == old(players) && time == old(time) && waterLevel == old(waterLevel)
      ensures id == old(entityCounter) + 1 && entityCounter == id && id !in old(entities)
      ensures entities == old(entities)[id := Entity(PLAYER_NEUTRAL, TreeBody(p, old(grid.points[p.x, p.y].height)))]
      ensures forall i: nat, j: nat | i < grid.sizeX && j < grid.sizeY ::
                grid.points[i, j] == if Pos(i, j) == p then Map.Occupied(old(grid.points[i, j]), id) else old(grid.points[i, j])
      ensures grid.Snapshot() == Map.Marked(old(grid.Snapshot()), p, Pos(0, 0), id)
      ensures KeepsAll(old(entities), entities) && MinersKept(old(entities), entities)
      ensures Now() == Planted(w0, p)
    {
      ghost var g0 := w0.ground;
      grid.SnapshotAt(g0);
      id := AddEntity(Entity(PLAYER_NEUTRAL, TreeBody(p, grid.points[p.x, p.y].height)));
      grid.SetEntity(p, id);
      forall i: nat, j: nat | i < grid.sizeX && j < grid.sizeY
        ensures Pos(i, j) in g0.cells && grid.points[i, j] == if Map.InRect(Pos(i, j), p, Pos(0, 0)) then Map.Occupied(g0.cells[Pos(i, j)], id) else g0.cells[Pos(i, j)]
      {
        assert Map.InRect(Pos(i, j), p, Pos(0, 0)) <==> Pos(i, j) == p;
      }
      grid.MarkedBridge(g0, p, Pos(0, 0), id);
      FreshKeeps(w0.entities, id, Entity(PLAYER_NEUTRAL, TreeBody(p, g0.cells[p].height)));
      PlantedNow(w0, p, id);
    }

    /** The state PlaceTree leaves, from the state `w0` before it, is Planted. */
    lemma PlantedNow(w0: World, p: Pos, id: EntityId)
      requires grid.Sized() && p in w0.ground.cells && id == w0.counter + 1 && entityCounter == id
      requires players == w0.players && time == w0.time && waterLevel == w0.waterLevel
      requires entities == w0.entities[id := Entity(PLAYER_NEUTRAL, TreeBody(p, w0.ground.cells[p].height))]
      requires grid.Snapshot() == Map.Marked(w0.ground, p, Pos(0, 0), id)
      ensures Now() == Planted(w0, p)
    {
    }

    /** The grid point a pair of rand() draws picks: (rand() % mapW, rand() % mapH). */
    function Drawn(d: Pos): (q: Pos)
      requires grid.sizeX > 0 && grid.sizeY > 0
      ensures grid.InMap(q)
    {
      Pos(d.x % grid.sizeX, d.y % grid.sizeY)
    }

    /** `k` is the first of `draws` at which a main building can be placed
        on the grid `cells`. */
    ghost predicate FirstFit(cells: imap<Pos, GridPoint>, draws: seq<Pos>, k: nat)
      requires grid.sizeX > 0 && grid.sizeY > 0
    {
      k < |draws| && PlaceableIn(cells, Main, Drawn(draws[k])) &&
      forall i | 0 <= i < k :: !PlaceableIn(cells, Main, Drawn(draws[i]))
    }

    /** The point `q` of the grid `cells` is usable. */
    ghost predicate UsableIn(cells: imap<Pos, GridPoint>, q: Pos)
    {
      q in cells && usable(cells[q])
    }

    /** `k` is the first of `draws` that lands on a usable point of the
        grid `cells`. */
    ghost predicate FirstFree(cells: imap<Pos, GridPoint>, draws: seq<Pos>, k: nat)
      requires grid.sizeX > 0 && grid.sizeY > 0
    {
      k < |draws| && UsableIn(cells, Drawn(draws[k])) &&
      forall i | 0 <= i < k :: !UsableIn(cells, Drawn(draws[i]))
    }

    /** One spawn placement of the SimState constructor from `w`, leaving
        `w'`: `placed` exactly when some draw fits a main building on the
        grid of `w`, and then the first that fits gets `owner`'s finished
        main building (Added); otherwise nothing changes. */
    ghost predicate SpawnStep(w: World, owner: PlayerId, draws: seq<Pos>, placed: bool, w': World)
    {
      grid.sizeX > 0 && grid.sizeY > 0 &&
      (placed <==> exists k | 0 <= k < |draws| :: PlaceableIn(w.ground.cells, Main, Drawn(draws[k]))) &&
      (!placed ==> w' == w) &&
      (placed ==> exists k: nat :: FirstFit(w.ground.cells, draws, k) && w' == Added(w, owner, Main, Drawn(draws[k]), true))
    }

    /** One tree placement of the SimState constructor from `w`, leaving
        `w'`: `placed` exactly when some draw lands on a usable point of the
        grid of `w`, and then the first such point gets a tree (Planted);
        otherwise nothing changes. */
    ghost predicate TreeStep(w: World, draws: seq<Pos>, placed: bool, w': World)
    {
      grid.sizeX > 0 && grid.sizeY > 0 &&
      (placed <==> exists k | 0 <= k < |draws| :: UsableIn(w.ground.cells, Drawn(draws[k]))) &&
      (!placed ==> w' == w) &&
      (placed ==> exists k: nat :: FirstFree(w.ground.cells, draws, k) && w' == Planted(w, Drawn(draws[k])))
    }

    /** A placed spawn is the owner's finished main building, under the next id. */
    lemma SpawnedMain(w: World, owner: PlayerId, draws: seq<Pos>, w': World)
      requires SpawnStep(w, owner, draws, true, w')
      ensures w'.counter == w.counter + 1 && HasMain(w'.entities, owner)
    {
      var k: nat :| FirstFit(w.ground.cells, draws, k) && w' == Added(w, owner, Main, Drawn(draws[k]), true);
      AddedMain(w, owner, Drawn(draws[k]));
    }

    /** A finished main building added for `owner` is one of its main buildings. */
    lemma AddedMain(w: World, owner: PlayerId, p: Pos)
      requires p in w.ground.cells
      ensures Added(w, owner, Main, p, true).counter == w.counter + 1
      ensures HasMain(Added(w, owner, Main, p, true).entities, owner)
    {
      var e := BuildingEntity(owner, table.Info(Main), Main, p, w.ground.cells[p].height, true);
      assert Added(w, owner, Main, p, true).entities[w.counter + 1] == e;
    }

    /** The spawn loop of the SimState constructor as the states between its
        steps: the i-th listed player's placement takes `spawns[i]` to
        `spawns[i + 1]` as SpawnStep says. */
    ghost predicate SpawnTrace(spawnDraws: seq<seq<Pos>>, spawned: seq<bool>, spawns: seq<World>)
    {
      |spawned| <= |settings.players| && |spawned| <= |spawnDraws| && |spawns| == |spawned| + 1 &&
      forall i | 0 <= i < |spawned| :: SpawnStep(spawns[i], settings.players[i].id, spawnDraws[i], spawned[i], spawns[i + 1])
    }

    /** One more spawn on a spawn trace. */
    lemma SpawnTraceSnoc(spawnDraws: seq<seq<Pos>>, spawned: seq<bool>, spawns: seq<World>, ok: bool, w: World)
      requires SpawnTrace(spawnDraws, spawned, spawns) && |spawned| < |settings.players| && |spawned| < |spawnDraws|
      requires SpawnStep(spawns[|spawned|], settings.players[|spawned|].id, spawnDraws[|spawned|], ok, w)
      ensures SpawnTrace(spawnDraws, spawned + [ok], spawns + [w])
    {
      var s', t' := spawned + [ok], spawns + [w];
      forall i | 0 <= i < |s'|
        ensures SpawnStep(t'[i], settings.players[i].id, spawnDraws[i], s'[i], t'[i + 1])
      {
        if i < |spawned| {
          SpawnStepSame(spawns[i], t'[i], settings.players[i].id, spawnDraws[i], spawned[i], s'[i], spawns[i + 1], t'[i + 1]);
        } else {
          SpawnStepSame(spawns[i], t'[i], settings.players[i].id, spawnDraws[i], ok, s'[i], w, t'[i + 1]);
        }
      }
    }

    /** SpawnStep on equal arguments. */
    lemma SpawnStepSame(w: World, v: World, owner: PlayerId, draws: seq<Pos>, placed: bool, placed': bool, w': World, v': World)
      requires SpawnStep(w, owner, draws, placed, w') && v == w && placed' == placed && v' == w'
      ensures SpawnStep(v, owner, draws, placed', v')
    {
    }

    /** The tree loop of the SimState constructor as the states between its
        steps: the i-th tree's placement takes `plants[i]` to `plants[i + 1]`
        as TreeStep says. */
    ghost predicate TreeTrace(treeDraws: seq<seq<Pos>>, planted: seq<bool>, plants: seq<World>)
    {
      |planted| <= |treeDraws| && |plants| == |planted| + 1 &&
      forall i | 0 <= i < |planted| :: TreeStep(plants[i], treeDraws[i], planted[i], plants[i + 1])
    }

    /** One more tree on a tree trace. */
    lemma TreeTraceSnoc(treeDraws: seq<seq<Pos>>, planted: seq<bool>, plants: seq<World>, ok: bool, w: World)
      requires TreeTrace(treeDraws, planted, plants) && |planted| < |treeDraws|
      requires TreeStep(plants[|planted|], treeDraws[|planted|], ok, w)
      ensures TreeTrace(treeDraws, planted + [ok], plants + [w])
    {
      var s', t' := planted + [ok], plants + [w];
      forall i | 0 <= i < |s'|
        ensures TreeStep(t'[i], treeDraws[i], s'[i], t'[i + 1])
      {
        if i < |planted| {
          TreeStepSame(plants[i], t'[i], treeDraws[i], planted[i], s'[i], plants[i + 1], t'[i + 1]);
        } else {
          TreeStepSame(plants[i], t'[i], treeDraws[i], ok, s'[i], w, t'[i + 1]);
        }
      }
    }

    /** TreeStep on equal arguments. */
    lemma TreeStepSame(w: World, v: World, draws: seq<Pos>, placed: bool, placed': bool, w': World, v': World)
      requires TreeStep(w, draws, placed, w') && v == w && placed' == placed && v' == w'
      ensures TreeStep(v, draws, placed', v')
    {
    }

    /** Every listed player whose spawn was placed (`spawned[i]`) owns a
        finished main building in `store`. */
    ghost predicate MainsPlaced(store: map<EntityId, Entity>, spawned: seq<bool>)
    {
      |spawned| <= |settings.players| &&
      forall i | 0 <= i < |spawned| && spawned[i] :: HasMain(store, settings.players[i].id)
    }

    /** MainsPlaced survives a change that keeps every entity. */
    lemma MainsPlacedKept(a: map<EntityId, Entity>, b: map<EntityId, Entity>, spawned: seq<bool>)
      requires MainsPlaced(a, spawned) && KeepsAll(a, b)
      ensures MainsPlaced(b, spawned)
    {
      forall i | 0 <= i < |spawned| && spawned[i]
        ensures HasMain(b, settings.players[i].id)
      {
        HasMainKept(a, b, settings.players[i].id);
      }
    }

    /** One more spawn keeps MainsPlaced when, if placed, its player now
        owns a finished main building. */
    lemma MainsPlacedSnoc(a: map<EntityId, Entity>, b: map<EntityId, Entity>, spawned: seq<bool>, ok: bool)
      requires MainsPlaced(a, spawned) && KeepsAll(a, b) && |spawned| < |settings.players|
      requires ok ==> HasMain(b, settings.players[|spawned|].id)
      ensures MainsPlaced(b, spawned + [ok])
    {
      MainsPlacedKept(a, b, spawned);
      assert forall i | 0 <= i < |spawned| :: (spawned + [ok])[i] == spawned[i];
    }

    /** The rejection loop of the SimState constructor's spawn placement:
        the first draw where a main building can be placed. */
    method FirstPlaceable(draws: seq<Pos>) returns (found: bool, k: nat)
      requires grid.Sized()
      ensures found ==> k < |draws| && Placeable(Main, Drawn(draws[k]))
      ensures forall i | 0 <= i < |draws| && (!found || i < k) :: !Placeable(Main, Drawn(draws[i]))
    {
      k := 0;
      while k < |draws|
        invariant k <= |draws|
        invariant forall i | 0 <= i < k :: !Placeable(Main, Drawn(draws[i]))
      {
        found := CanPlaceBuilding(Main, Drawn(draws[k]));
        if found {
          return;
        }
        k := k + 1;
      }
      found := false;
    }

    /** The spawn placement of the SimState constructor for one player: the
        first drawn point where a main building can be placed gets the
        player's finished main building. When no draw fits, nothing is
        placed (the source keeps drawing). */
    method PlaceSpawn(owner: PlayerId, draws: seq<Pos>, ghost w0: World) returns (placed: bool, ghost k: nat)
      requires Valid() && owner in players && w0 == Now()
      modifies this, grid.points
      ensures Valid()
      ensures players == old(players) && time == old(time) && waterLevel == old(waterLevel)
      ensures forall i | 0 <= i < |draws| && (!placed || i < k) :: !old(Placeable(Main, Drawn(draws[i])))
      ensures !placed ==> entities == old(entities) && entityCounter == old(entityCounter)
      ensures placed ==> k < |draws| && old(Placeable(Main, Drawn(draws[k]))) && entityCounter == old(entityCounter) + 1 &&
                         entities == old(entities)[entityCounter := BuildingEntity(owner, table.Info(Main), Main, Drawn(draws[k]),
                                                                               old(grid.At(Drawn(draws[k]))).height, true)]
      ensures KeepsAll(old(entities), entities) && MinersKept(old(entities), entities)
      ensures SpawnStep(w0, owner, draws, placed, Now())
    {
      grid.SnapshotAt(w0.ground);
      var found, n := FirstPlaceable(draws);
      placed, k := found, n;
      assert grid.Cells() == w0.ground.cells;
      assert forall i | 0 <= i < |draws| :: Placeable(Main, Drawn(draws[i])) == PlaceableIn(w0.ground.cells, Main, Drawn(draws[i]));
      if found {
        var p := Drawn(draws[n]);
        ghost var e := BuildingEntity(owner, table.Info(Main), Main, p, grid.points[p.x, p.y].height, true);
        assert w0.ground.cells[p] == grid.points[p.x, p.y];
        assert grid.Snapshot() == w0.ground;
        var id := AddBuilding(owner, Main, p, true);
        assert entities == w0.entities[id := e] && grid.Snapshot() == Map.Marked(w0.ground, p, Extent(Main), id);
        FreshKeeps(w0.entities, id, e);
        AddedNow(w0, owner, Main, p, true, id);
      }
      SpawnStepOf(w0, owner, draws, found, n, Now());
    }

    /** What PlaceSpawn establishes, as a SpawnStep. */
    lemma SpawnStepOf(w: World, owner: PlayerId, draws: seq<Pos>, found: bool, k: nat, w': World)
      requires grid.sizeX > 0 && grid.sizeY > 0
      requires found ==> k < |draws| && PlaceableIn(w.ground.cells, Main, Drawn(draws[k])) &&
                         (forall i | 0 <= i < k :: !PlaceableIn(w.ground.cells, Main, Drawn(draws[i]))) &&
                         w' == Added(w, owner, Main, Drawn(draws[k]), true)
      requires !found ==> (forall i | 0 <= i < |draws| :: !PlaceableIn(w.ground.cells, Main, Drawn(draws[i]))) && w' == w
      ensures SpawnStep(w, owner, draws, found, w')
    {
      if found {
        assert FirstFit(w.ground.cells, draws, k);
      }
    }

    /** The rejection loop of the SimState constructor's tree placement:
        the first draw that lands on a usable point. */
    method FirstUsable(draws: seq<Pos>) returns (found: bool, k: nat)
      requires grid.Sized()
      ensures found ==> k < |draws| && usable(grid.At(Drawn(draws[k])))
      ensures forall i | 0 <= i < |draws| && (!found || i < k) :: !usable(grid.At(Drawn(draws[i])))
    {
      k := 0;
      while k < |draws|
        invariant k <= |draws|
        invariant forall i | 0 <= i < k :: !usable(grid.At(Drawn(draws[i])))
      {
        var q := Drawn(draws[k]);
        if usable(grid.points[q.x, q.y]) {
          return true, k;
        }
        k := k + 1;
      }
      found := false;
    }

    /** The tree placement of the SimState constructor for one tree: the
        first drawn usable point gets a tree. When no draw is usable,
        nothing is placed (the source keeps drawing). */
    method PlaceTreeDrawn(draws: seq<Pos>, ghost w0: World) returns (placed: bool, ghost k: nat)
      requires Valid() && w0 == Now()
      modifies this, grid.points
      ensures Valid()
      ensures players == old(players) && time == old(time) && waterLevel == old(waterLevel)
      ensures forall i | 0 <= i < |draws| && (!placed || i < k) :: !usable(old(grid.At(Drawn(draws[i]))))
      ensures !placed ==> entities == old(entities) && entityCounter == old(entityCounter)
      ensures placed ==> k < |draws| && usable(old(grid.At(Drawn(draws[k])))) && entityCounter == old(entityCounter) + 1 &&
                         entities == old(entities)[entityCounter := Entity(PLAYER_NEUTRAL, TreeBody(Drawn(draws[k]), old(grid.At(Drawn(draws[k]))).height))]
      ensures KeepsAll(old(entities), entities) && MinersKept(old(entities), entities)
      ensures TreeStep(w0, draws, placed, Now())
    {
      grid.SnapshotAt(w0.ground);
      var found, n := FirstUsable(draws);
      placed, k := found, n;
      assert forall i | 0 <= i < |draws| :: UsableIn(w0.ground.cells, Drawn(draws[i])) == usable(grid.At(Drawn(draws[i])));
      if found {
        var p := Drawn(draws[n]);
        ghost var e := Entity(PLAYER_NEUTRAL, TreeBody(p, grid.points[p.x, p.y].height));
        assert w0.ground.cells[p] == grid.points[p.x, p.y];
        assert grid.Snapshot() == w0.ground;
        var id := PlaceTree(p, w0);
      }
      TreeStepOf(w0, draws, found, n, Now());
    }

    /** What PlaceTreeDrawn establishes, as a TreeStep. */
    lemma TreeStepOf(w: World, draws: seq<Pos>, found: bool, k: nat, w': World)
      requires grid.sizeX > 0 && grid.sizeY > 0
      requires found ==> k < |draws| && UsableIn(w.ground.cells, Drawn(draws[k])) &&
                         (forall i | 0 <= i < k :: !UsableIn(w.ground.cells, Drawn(draws[i]))) &&
                         w' == Planted(w, Drawn(draws[k]))
      requires !found ==> (forall i | 0 <= i < |draws| :: !UsableIn(w.ground.cells, Drawn(draws[i]))) && w' == w
      ensures TreeStep(w, draws, found, w')
    {
      if found {
        assert FirstFree(w.ground.cells, draws, k);
      }
    }

    /** The rest of the SimState constructor: one spawn per listed player,
        in list order, then 20 trees; `spawnDraws[i]` and `treeDraws[i]` are
        the rand() draws of each rejection loop. The spawns run from the
        state before as SpawnTrace says, `spawned[i]` telling whether the
        i-th player got a main building, and the trees from where they left
        off as TreeTrace says, `planted[i]` telling whether the i-th tree
        was placed. Every placed object gets the next id, and every player
        whose spawn was placed owns a finished main building. */
    method Populate(spawnDraws: seq<seq<Pos>>, treeDraws: seq<seq<Pos>>)
      returns (placed: nat, ghost spawned: seq<bool>, ghost spawns: seq<World>, ghost planted: seq<bool>, ghost plants: seq<World>)
      requires Valid() && players.Keys == Ids(settings.players)
      requires |spawnDraws| == |settings.players| && |treeDraws| == NUM_TREES
      modifies this, grid.points
      ensures Valid()
      ensures players == old(players) && time == old(time) && waterLevel == old(waterLevel)
      ensures placed <= |settings.players| + NUM_TREES && entityCounter == old(entityCounter) + placed
      ensures old(entities).Keys <= entities.Keys && MinersKept(old(entities), entities)
      ensures SpawnTrace(spawnDraws, spawned, spawns) && |spawned| == |settings.players| && spawns[0] == old(Now())
      ensures TreeTrace(treeDraws, planted, plants) && |planted| == NUM_TREES && plants[0] == spawns[|spawned|] && plants[NUM_TREES] == Now()
      ensures placed == Count(spawned) + Count(planted)
      ensures MainsPlaced(entities, spawned)
    {
      ghost var before := entities;
      var n, m;
      n, spawned, spawns := PlaceSpawns(spawnDraws);
      ghost var mid := entities;
      m, planted, plants := PlaceTrees(treeDraws);
      MainsPlacedKept(mid, entities, spawned);
      MinersKeptTrans(before, mid, entities);
      placed := n + m;
    }

    /** What the spawn loop keeps: the first `|spawned|` players are
        visited, one SpawnStep each, from `w0` to the current state. */
    ghost predicate SpawnedSoFar(spawnDraws: seq<seq<Pos>>, before: map<EntityId, Entity>, w0: World,
                                 placed: nat, spawned: seq<bool>, spawns: seq<World>)
      reads this, grid, grid.points
    {
      && grid.Sized()
      && players == w0.players && time == w0.time && waterLevel == w0.waterLevel
      && placed == Count(spawned) && entityCounter == w0.counter + placed
      && KeepsAll(before, entities) && MinersKept(before, entities)
      && SpawnTrace(spawnDraws, spawned, spawns) && MainsPlaced(entities, spawned)
      && spawns[0] == w0 && spawns[|spawned|] == Now()
    }

    /** One pass of the spawn loop: the main building of player `i`. */
    method SpawnNext(spawnDraws: seq<seq<Pos>>, ghost before: map<EntityId, Entity>, ghost w0: World,
                     i: nat, placed: nat, ghost spawned: seq<bool>, ghost spawns: seq<World>)
      returns (placed': nat, ghost spawned': seq<bool>, ghost spawns': seq<World>)
      requires Valid() && players.Keys == Ids(settings.players) && |spawnDraws| == |settings.players|
      requires i == |spawned| < |settings.players| && SpawnedSoFar(spawnDraws, before, w0, placed, spawned, spawns)
      modifies this, grid.points
      ensures Valid()
      ensures |spawned'| == |spawned| + 1 && SpawnedSoFar(spawnDraws, before, w0, placed', spawned', spawns')
    {
      ghost var mid := entities;
      var owner := settings.players[i].id;
      assert owner in Ids(settings.players);
      var ok, _ := PlaceSpawn(owner, spawnDraws[i], spawns[i]);
      ghost var w := Now();
      placed' := placed;
      if ok {
        SpawnedMain(spawns[i], owner, spawnDraws[i], w);
        placed' := placed + 1;
      }
      MainsPlacedSnoc(mid, entities, spawned, ok);
      MinersKeptTrans(before, mid, entities);
      SpawnTraceSnoc(spawnDraws, spawned, spawns, ok, w);
      CountSnoc(spawned, ok);
      spawned', spawns' := spawned + [ok], spawns + [w];
    }

    /** The spawn loop of the SimState constructor: one SpawnStep per
        listed player, in list order. */
    method PlaceSpawns(spawnDraws: seq<seq<Pos>>) returns (placed: nat, ghost spawned: seq<bool>, ghost spawns: seq<World>)
      requires Valid() && players.Keys == Ids(settings.players) && |spawnDraws| == |settings.players|
      modifies this, grid.points
      ensures Valid()
      ensures players == old(players) && time == old(time) && waterLevel == old(waterLevel)
      ensures placed == Count(spawned) && entityCounter == old(entityCounter) + placed
      ensures KeepsAll(old(entities), entities) && MinersKept(old(entities), entities)
      ensures SpawnTrace(spawnDraws, spawned, spawns) && MainsPlaced(entities, spawned)
      ensures |spawned| == |settings.players| && spawns[0] == old(Now()) && spawns[|spawned|] == Now()
    {
      ghost var before := entities;
      ghost var w0 := Now();
      placed, spawned, spawns := 0, [], [w0];
      var i := 0;
      while i < |settings.players|
        invariant i == |spawned| <= |settings.players| && Valid()
        invariant SpawnedSoFar(spawnDraws, before, w0, placed, spawned, spawns)
      {
        placed, spawned, spawns := SpawnNext(spawnDraws, before, w0, i, placed, spawned, spawns);
        i := i + 1;
      }
    }

    /** What the tree loop keeps: the first `|planted|` trees are visited,
        one TreeStep each, from `w0` to the current state. */
    ghost predicate PlantedSoFar(treeDraws: seq<seq<Pos>>, before: map<EntityId, Entity>, w0: World,
                                 placed: nat, planted: seq<bool>, plants: seq<World>)
      reads this, grid, grid.points
    {
      && grid.Sized()
      && players == w0.players && time == w0.time && waterLevel == w0.waterLevel
      && placed == Count(planted) && entityCounter == w0.counter + placed
      && KeepsAll(before, entities) && MinersKept(before, entities)
      && TreeTrace(treeDraws, planted, plants)
      && plants[0] == w0 && plants[|planted|] == Now()
    }

    /** One pass of the tree loop: tree number `i`. */
    method TreeNext(treeDraws: seq<seq<Pos>>, ghost before: map<EntityId, Entity>, ghost w0: World,
                    i: nat, placed: nat, ghost planted: seq<bool>, ghost plants: seq<World>)
      returns (placed': nat, ghost planted': seq<bool>, ghost plants': seq<World>)
      requires Valid() && |treeDraws| == NUM_TREES
      requires i == |planted| < NUM_TREES && PlantedSoFar(treeDraws, before, w0, placed, planted, plants)
      modifies this, grid.points
      ensures Valid()
      ensures |planted'| == |planted| + 1 && PlantedSoFar(treeDraws, before, w0, placed', planted', plants')
    {
      ghost var mid := entities;
      var ok, _ := PlaceTreeDrawn(treeDraws[i], plants[i]);
      ghost var w := Now();
      placed' := if ok then placed + 1 else placed;
      MinersKeptTrans(before, mid, entities);
      TreeTraceSnoc(treeDraws, planted, plants, ok, w);
      CountSnoc(planted, ok);
      planted', plants' := planted + [ok], plants + [w];
    }

    /** The tree loop of the SimState constructor: one TreeStep for each
        of the 20 trees. */
    method PlaceTrees(treeDraws: seq<seq<Pos>>) returns (placed: nat, ghost planted: seq<bool>, ghost plants: seq<World>)
      requires Valid() && |treeDraws| == NUM_TREES
      modifies this, grid.points
      ensures Valid()
      ensures players == old(players) && time == old(time) && waterLevel == old(waterLevel)
      ensures placed == Count(planted) && entityCounter == old(entityCounter) + placed
      ensures KeepsAll(old(entities), entities) && MinersKept(old(entities), entities)
      ensures TreeTrace(treeDraws, planted, plants)
      ensures |planted| == NUM_TREES && plants[0] == old(Now()) && plants[NUM_TREES] == Now()
    {
      ghost var before := entities;
      ghost var w0 := Now();
      placed, planted, plants := 0, [], [w0];
      var i := 0;
      while i < NUM_TREES
        invariant i == |planted| <= NUM_TREES && Valid()
        invariant PlantedSoFar(treeDraws, before, w0, placed, planted, plants)
      {
        placed, planted, plants := TreeNext(treeDraws, before, w0, i, placed, planted, plants);
        i := i + 1;
      }
    }

    /** entities.create() with a GameObject carrying ++entityCounter: the
        entity is stored under the next id; every entity stays sound. */
    method AddEntity(e: Entity) returns (id: EntityId)
      requires Valid() && Sound(e, players.Keys, entities[entityCounter + 1 := e], entityCounter + 1, grid.sizeX, grid.sizeY)
      modifies this
      ensures Valid()
      ensures players == old(players) && time == old(time) && waterLevel == old(waterLevel)
      ensures id == old(entityCounter) + 1 && entityCounter == id && id !in old(entities)
      ensures entities == old(entities)[id := e]
    {
      StoreAdd(players.Keys, entities, entityCounter, grid.sizeX, grid.sizeY, e);
      entityCounter := entityCounter + 1;
      id := entityCounter;
      entities := entities[id := e];
    }

    /** A new flying object owned by `owner`: the common part of
        addFlyingResource, addFlyingBlock and addRocket. */
    method AddFlying(owner: PlayerId, from: FVec3, to: FVec3, cargo: Cargo) returns (id: EntityId)
      requires Valid() && ManhattanDistance(from, to) > 0.0
      requires cargo.BlockCargo? ==> BuildingRef(entities, entityCounter, cargo.target)
      requires !cargo.BlockCargo? ==> to.x >= 0.0 && to.y >= 0.0
      requires cargo.RocketCargo? ==> to.x.Floor < grid.sizeX && to.y.Floor < grid.sizeY
      modifies this
      ensures Valid()
      ensures players == old(players) && time == old(time) && waterLevel == old(waterLevel)
      ensures id == old(entityCounter) + 1 && entityCounter == id && id !in old(entities)
      ensures entities == old(entities)[id := Entity(owner, FlyingBody(NewFlight(from, to), cargo))]
    {
      id := AddEntity(Entity(owner, FlyingBody(NewFlight(from, to), cargo)));
    }

    /** SimState::addFlyingResource: from the top of one building to the top
        of another, owned by the sender's owner. */
    method AddFlyingResource(from: EntityId, to: EntityId, resource: ResourceType, amount: nat) returns (id: EntityId)
      requires Valid() && IsBuilding(entities, from) && IsBuilding(entities, to)
      requires ManhattanDistance(Top(entities[from].body.building), Top(entities[to].body.building)) > 0.0
      modifies this
      ensures Valid()
      ensures players == old(players) && time == old(time) && waterLevel == old(waterLevel)
      ensures id == old(entityCounter) + 1 && entityCounter == id && id !in old(entities)
      ensures entities == old(entities)[id := Entity(old(entities)[from].owner,
                FlyingBody(NewFlight(Top(old(entities)[from].body.building), Top(old(entities)[to].body.building)),
                           ResourceCargo(resource, amount)))]
    {
      id := AddFlying(entities[from].owner, Top(entities[from].body.building), Top(entities[to].body.building),
                      ResourceCargo(resource, amount));
    }

    /** SimState::addFlyingBlock: from the top of the sending building to
        the block's place on the receiving one. */
    method AddFlyingBlock(from: EntityId, to: EntityId, blk: Block) returns (id: EntityId)
      requires Valid() && from != to && IsBuilding(entities, from) && IsBuilding(entities, to)
      requires ManhattanDistance(Top(entities[from].body.building), BlockTarget(entities[to].body.building, blk)) > 0.0
      modifies this
      ensures Valid()
      ensures players == old(players) && time == old(time) && waterLevel == old(waterLevel)
      ensures id == old(entityCounter) + 1 && entityCounter == id && id !in old(entities)
      ensures entities == old(entities)[id := Entity(old(entities)[from].owner,
                FlyingBody(NewFlight(Top(old(entities)[from].body.building), BlockTarget(old(entities)[to].body.building, blk)),
                           BlockCargo(to, blk)))]
    {
      id := AddFlying(entities[from].owner, Top(entities[from].body.building), BlockTarget(entities[to].body.building, blk),
                      BlockCargo(to, blk));
    }

    /** SimState::addRocket: from the top of the launching building to the
        grid point `q` at its height. */
    method AddRocket(from: EntityId, q: Pos) returns (id: EntityId)
      requires Valid() && IsBuilding(entities, from) && grid.InMap(q)
      requires ManhattanDistance(Top(entities[from].body.building), Spot(q, grid.points[q.x, q.y].height)) > 0.0
      modifies this
      ensures Valid()
      ensures players == old(players) && time == old(time) && waterLevel == old(waterLevel)
      ensures id == old(entityCounter) + 1 && entityCounter == id && id !in old(entities)
      ensures entities == old(entities)[id := Entity(old(entities)[from].owner,
                FlyingBody(NewFlight(Top(old(entities)[from].body.building), Spot(q, grid.points[q.x, q.y].height)), RocketCargo))]
    {
      var to := Spot(q, grid.points[q.x, q.y].height);
      id := AddFlying(entities[from].owner, Top(entities[from].body.building), to, RocketCargo);
    }

    // ---- orders ----

    /** SimState::isOrderValid. BUILD: the sender is a finished main
        building, the player can pay the type's costs and the building can
        be placed. CONSTRUCT: from a finished main building to an unfinished
        building. RAISE_MAP: both corners on the map and every point of the
        rectangle usable. ATTACK: the target on the map and the sender a
        finished tower of the ordering player. Every other order is
        invalid. */
    ghost predicate ValidOrder(o: Order)
      reads this, grid, grid.points
      requires Valid()
    {
      Coherent(Now()) && ValidIn(Now(), o)
    }

    /** SimState::isOrderValid on the state `w`. */
    ghost predicate ValidIn(w: World, o: Order)
      requires Coherent(w)
    {
      match o.cmd
      case Build(from, t, x, y) =>
        FinishedBuilding(w.entities, from as nat, Main) && o.player in w.players &&
        HaveResources(w.players[o.player], table.Info(t).costs) && PlaceableIn(w.ground.cells, t, Pos(x as nat, y as nat))
      case Construct(_, from, to) =>
        FinishedBuilding(w.entities, from as nat, Main) && IsBuilding(w.entities, to as nat) &&
        !w.entities[to as nat].body.building.finished
      case RaiseMap(x, y, width, height) =>
        grid.InMap(Pos(x as nat, y as nat)) && grid.InMap(Pos(x as nat + width as nat, y as nat + height as nat)) &&
        forall q | Map.InRect(q, Pos(x as nat, y as nat), Pos(width as nat, height as nat)) :: usable(w.ground.cells[q])
      case Attack(from, x, y) =>
        grid.InMap(Pos(x as nat, y as nat)) && FinishedBuilding(w.entities, from as nat, Tower) &&
        w.entities[from as nat].owner == o.player
      case _ => false
    }

    /** SimState::runOrder on the state `w`, for an order valid there;
        `roll` holds the two rand() draws of an ATTACK. */
    ghost function Apply(w: World, o: Order, roll: Pos): (r: World)
      requires Coherent(w) && ValidIn(w, o)
      ensures r.time == w.time && r.waterLevel == w.waterLevel
      ensures r.counter == w.counter + (if o.cmd.Build? || o.cmd.Attack? then 1 else 0)
      ensures !o.cmd.Build? ==> r.players == w.players
      ensures o.cmd.RaiseMap? ==> r.entities == w.entities
      ensures !o.cmd.RaiseMap? ==> r.ground.growing == w.ground.growing
    {
      match o.cmd
      case Build(from, t, x, y) => Built(w, o.player, from as nat, t, Pos(x as nat, y as nat))
      case Construct(queue, from, to) => Queued(w, from as nat, to as nat, queue == 0)
      case RaiseMap(x, y, width, height) =>
        w.(ground := Map.Raised(w.ground, Pos(x as nat, y as nat), Pos(width as nat, height as nat)))
      case Attack(from, x, y) => Attacked(w, from as nat, Pos(x as nat, y as nat), roll)
      case _ => assert false; w
    }

    /** No order adds to a miner's stock: a new building starts empty. */
    lemma ApplyKeepsMiners(w: World, o: Order, roll: Pos)
      requires Coherent(w) && ValidIn(w, o)
      ensures MinersKept(w.entities, Apply(w, o, roll).entities)
    {
      match o.cmd
      case Build(from, t, x, y) =>
        var added := Added(w, o.player, t, Pos(x as nat, y as nat), false);
        assert MinersKept(w.entities, added.entities);
      case Construct(queue, from, to) =>
      case RaiseMap(x, y, width, height) =>
      case Attack(from, x, y) =>
    }

    /** The BUILD case of runOrder on values: the player pays the type's
        costs, the next id is an unfinished building of the type at `p` on
        the height of `p`, it joins the end of the main building's queue
        and occupies the rectangle of its extent. */
    ghost function Built(w: World, player: PlayerId, from: EntityId, t: BuildingType, p: Pos): World
      requires Coherent(w) && FinishedBuilding(w.entities, from, Main) && player in w.players
      requires HaveResources(w.players[player], table.Info(t).costs) && PlaceableIn(w.ground.cells, t, p)
    {
      var added := Added(w, player, t, p, false);
      var queued := Queued(added, from, added.counter, false);
      queued.(players := w.players[player := TakeResources(w.players[player], table.Info(t).costs)])
    }

    /** SimState::addBuilding on values: the next id is a building of the
        type at `p` on the height of `p`, occupying the rectangle of its
        extent. */
    ghost function Added(w: World, owner: PlayerId, t: BuildingType, p: Pos, finished: bool): World
      requires p in w.ground.cells
    {
      var id := w.counter + 1;
      w.(entities := w.entities[id := BuildingEntity(owner, table.Info(t), t, p, w.ground.cells[p].height, finished)],
         counter := id,
         ground := Map.Marked(w.ground, p, Extent(t), id))
    }

    /** SimState::placeTree on values: the next id is a neutral tree on `p`
        at the height of `p`, standing on `p`. */
    ghost function Planted(w: World, p: Pos): World
      requires p in w.ground.cells
    {
      var id := w.counter + 1;
      w.(entities := w.entities[id := Entity(PLAYER_NEUTRAL, TreeBody(p, w.ground.cells[p].height))],
         counter := id,
         ground := Map.Marked(w.ground, p, Pos(0, 0), id))
    }

    /** The CONSTRUCT case of runOrder on values: `to` becomes the whole
        queue of the main building (`clear`) or joins its end. */
    ghost function Queued(w: World, from: EntityId, to: EntityId, clear: bool): World
      requires IsBuilding(w.entities, from) && w.entities[from].body.role.MainRole?
    {
      w.(entities := w.entities[from := QueueBuild(w.entities[from], to, clear)])
    }

    /** The ATTACK case of runOrder on values: the next id is a rocket of
        the tower's owner from the tower's top to the target moved by the
        rolls, at the height of the point it lands on. */
    ghost function Attacked(w: World, from: EntityId, target: Pos, roll: Pos): World
      requires Coherent(w) && FinishedBuilding(w.entities, from, Tower) && grid.InMap(target)
    {
      var cell := Pos(AttackCoord(target.x, roll.x, grid.sizeX), AttackCoord(target.y, roll.y, grid.sizeY));
      var b := w.entities[from].body.building;
      var to := Spot(cell, w.ground.cells[cell].height);
      HalfOffsetDistance(Top(b), to, b.at.x, cell.x);
      w.(entities := w.entities[w.counter + 1 := Entity(w.entities[from].owner, FlyingBody(NewFlight(Top(b), to), RocketCargo))],
         counter := w.counter + 1)
    }

    /** The loop of the RAISE_MAP case: every point of the rectangle is usable. */
    method RectUsable(p: Pos, s: Pos) returns (ok: bool)
      requires grid.Sized() && grid.InMap(Pos(p.x + s.x, p.y + s.y))
      ensures ok <==> forall q | Map.InRect(q, p, s) :: usable(grid.At(q))
      ensures ok <==> forall q | Map.InRect(q, p, s) :: q in grid.Cells() && usable(grid.Cells()[q])
    {
      ok := true;
      var x := p.x;
      while x <= p.x + s.x
        invariant p.x <= x <= p.x + s.x + 1
        invariant ok <==> forall q | Map.InRect(q, p, s) && q.x < x :: usable(grid.At(q))
      {
        var column := ColumnUsable(p, s, x);
        ok := ok && column;
        x := x + 1;
      }
      assert forall q | Map.InRect(q, p, s) :: q in grid.Cells() && grid.Cells()[q] == grid.At(q);
    }

    method ColumnUsable(p: Pos, s: Pos, x: nat) returns (ok: bool)
      requires grid.Sized() && grid.InMap(Pos(p.x + s.x, p.y + s.y)) && p.x <= x <= p.x + s.x
      ensures ok <==> forall q | Map.InRect(q, p, s) && q.x == x :: usable(grid.At(q))
    {
      ok := true;
      var y := p.y;
      while y <= p.y + s.y
        invariant p.y <= y <= p.y + s.y + 1
        invariant ok <==> forall q | Map.InRect(q, p, s) && q.x == x && q.y < y :: usable(grid.At(q))
      {
        assert grid.At(Pos(x, y)) == grid.points[x, y];
        ok := ok && usable(grid.points[x, y]);
        y := y + 1;
      }
    }

    method IsOrderValid(o: Order) returns (ok: bool)
      requires Valid()
      ensures ok <==> ValidOrder(o)
    {
      NowCoherent();
      ghost var w := Now();
      match o.cmd
      case Build(_, _, _, _) =>
        ok := IsBuildValid(o);
      case Construct(_, from, to) =>
        ok := FinishedBuilding(entities, from as nat, Main) && IsBuilding(entities, to as nat) &&
              !entities[to as nat].body.building.finished;
        assert ok <==> ValidIn(w, o);
      case RaiseMap(_, _, _, _) =>
        ok := IsRaiseValid(o);
      case Attack(from, x, y) =>
        ok := grid.InMap(Pos(x as nat, y as nat)) && FinishedBuilding(entities, from as nat, Tower) &&
              entities[from as nat].owner == o.player;
        assert ok <==> ValidIn(w, o);
      case _ =>
        ok := false;
    }

    /** The BUILD case of isOrderValid. */
    method IsBuildValid(o: Order) returns (ok: bool)
      requires Valid() && o.cmd.Build?
      ensures ok <==> ValidOrder(o)
    {
      NowCoherent();
      ghost var w := Now();
      var from, t, x, y := o.cmd.objectId, o.cmd.buildingType, o.cmd.x, o.cmd.y;
      if !FinishedBuilding(entities, from as nat, Main) || o.player !in players
         || !HaveResources(players[o.player], table.Info(t).costs) {
        assert !ValidIn(w, o);
        return false;
      }
      ok := CanPlaceBuilding(t, Pos(x as nat, y as nat));
      assert Now() == w;
      assert ok <==> ValidIn(w, o);
    }

    /** The RAISE_MAP case of isOrderValid. */
    method IsRaiseValid(o: Order) returns (ok: bool)
      requires Valid() && o.cmd.RaiseMap?
      ensures ok <==> ValidOrder(o)
    {
      NowCoherent();
      ghost var w := Now();
      var x, y, width, height := o.cmd.x, o.cmd.y, o.cmd.w, o.cmd.h;
      if !grid.InMap(Pos(x as nat, y as nat)) || !grid.InMap(Pos(x as nat + width as nat, y as nat + height as nat)) {
        assert !ValidIn(w, o);
        return false;
      }
      ok := RectUsable(Pos(x as nat, y as nat), Pos(width as nat, height as nat));
      assert Now() == w;
      assert ok <==> ValidIn(w, o);
    }

    /** MainBuilding::build (`clear`) or MainBuilding::queueBuild on the
        main building `main`: `id` becomes the whole queue or joins its end. */
    method Enqueue(main: EntityId, id: EntityId, clear: bool)
      requires Valid() && IsBuilding(entities, main) && entities[main].body.building.btype == Main
      requires IsBuilding(entities, id)
      modifies this
      ensures Valid()
      ensures players == old(players) && time == old(time) && waterLevel == old(waterLevel) && entityCounter == old(entityCounter)
      ensures entities == old(entities)[main := QueueBuild(old(entities)[main], id, clear)]
      ensures Now() == Queued(old(Now()), main, id, clear)
    {
      var e := QueueBuild(entities[main], id, clear);
      StoreReplace(players.Keys, entities, entityCounter, grid.sizeX, grid.sizeY, main, e);
      entities := entities[main := e];
    }

    /** The BUILD case of runOrder: the new unfinished building, queued at
        the ordering main building, paid for by the ordering player. */
    method RunBuild(player: PlayerId, from: EntityId, t: BuildingType, p: Pos) returns (id: EntityId)
      requires Valid() && FinishedBuilding(entities, from, Main) && player in players
      requires HaveResources(players[player], table.Info(t).costs) && Placeable(t, p) && Coherent(Now())
      modifies this, grid.points
      ensures Valid() && id == old(entityCounter) + 1
      ensures Now() == Built(old(Now()), player, from, t, p)
    {
      ghost var w0 := Now();
      id := Place(player, t, p);
      ghost var w1 := Now();
      assert w1 == Added(w0, player, t, p, false) && id == w1.counter;
      Enqueue(from, id, false);
      ghost var w2 := Now();
      assert w2 == Queued(w1, from, id, false) && w2.players == w0.players;
      Pay(player, table.Info(t).costs);
      BuiltIs(w0, w1, w2, player, from, t, p);
    }

    /** Built is the three steps of RunBuild, one after the other. */
    lemma BuiltIs(w0: World, w1: World, w2: World, player: PlayerId, from: EntityId, t: BuildingType, p: Pos)
      requires Coherent(w0) && FinishedBuilding(w0.entities, from, Main) && player in w0.players
      requires HaveResources(w0.players[player], table.Info(t).costs) && PlaceableIn(w0.ground.cells, t, p)
      requires w1 == Added(w0, player, t, p, false) && IsBuilding(w1.entities, from) && w1.entities[from].body.role.MainRole?
      requires w2 == Queued(w1, from, w1.counter, false)
      ensures Built(w0, player, from, t, p) == w2.(players := w0.players[player := TakeResources(w0.players[player], table.Info(t).costs)])
    {
    }

    /** The addBuilding step of a build order, seen on the world. */
    method Place(player: PlayerId, t: BuildingType, p: Pos) returns (id: EntityId)
      requires Valid() && player in players && Placeable(t, p) && Coherent(Now())
      modifies this, grid.points
      ensures Valid() && id == old(entityCounter) + 1 && IsBuilding(entities, id)
      ensures Now() == Added(old(Now()), player, t, p, false)
    {
      ghost var w0 := Now();
      grid.SnapshotAt(w0.ground);
      assert w0.ground.cells[p] == grid.points[p.x, p.y];
      id := AddBuilding(player, t, p, false);
      AddedNow(w0, player, t, p, false, id);
    }

    /** Player::takeResources on the state: the player's stock less `costs`,
        nothing else changes. */
    method Pay(player: PlayerId, costs: seq<nat>)
      requires Valid() && player in players && |costs| == RESOURCE_MAX && HaveResources(players[player], costs)
      modifies this
      ensures Valid()
      ensures Now() == old(Now()).(players := old(players)[player := TakeResources(old(players)[player], costs)])
    {
      ghost var g := grid.Snapshot();
      players := players[player := TakeResources(players[player], costs)];
      assert players.Keys == old(players).Keys;
      assert grid.Snapshot() == g;
    }

    /** The ATTACK case of runOrder: a rocket from the tower to the target
        moved by the rolls (rand() % 10 - 5 per axis) and clamped into the
        map. */
    method RunAttack(from: EntityId, target: Pos, rollX: nat, rollY: nat) returns (id: EntityId, cell: Pos)
      requires Valid() && FinishedBuilding(entities, from, Tower) && grid.InMap(target) && Coherent(Now())
      modifies this
      ensures Valid()
      ensures players == old(players) && time == old(time) && waterLevel == old(waterLevel)
      ensures grid.InMap(cell) && -5 <= cell.x - target.x <= 4 && -5 <= cell.y - target.y <= 4
      ensures id == old(entityCounter) + 1 && entityCounter == id && id !in old(entities)
      ensures entities == old(entities)[id := Entity(old(entities)[from].owner,
                FlyingBody(NewFlight(Top(old(entities)[from].body.building), Spot(cell, grid.points[cell.x, cell.y].height)), RocketCargo))]
      ensures Now() == Attacked(old(Now()), from, target, Pos(rollX, rollY))
    {
      ghost var w0 := Now();
      cell := Pos(AttackCoord(target.x, rollX, grid.sizeX), AttackCoord(target.y, rollY, grid.sizeY));
      var b := entities[from].body.building;
      var to := Spot(cell, grid.points[cell.x, cell.y].height);
      assert to == Spot(cell, w0.ground.cells[cell].height);
      HalfOffsetDistance(Top(b), to, b.at.x, cell.x);
      id := AddRocket(from, cell);
      assert grid.Snapshot() == w0.ground;
      assert Now() == w0.(entities := entities, counter := id);
    }

    /** The RAISE_MAP case of runOrder: Map::raise on the rectangle. */
    method RunRaiseMap(p: Pos, s: Pos) returns (ghost target: nat)
      requires Valid() && grid.InMap(Pos(p.x + s.x, p.y + s.y))
      modifies grid, grid.points
      ensures Valid() && grid.maxHeight == old(grid.maxHeight)
      ensures target == Map.RaiseTarget(old(grid.Cells()), p, s)
      ensures Now() == old(Now()).(ground := Map.Raised(old(Now()).ground, p, s))
    {
      target := grid.Raise(p, s);
    }

    /** SimState::runOrder for an order isOrderValid accepts; `rollX` and
        `rollY` are the two rand() draws of an ATTACK. */
    method RunOrder(o: Order, rollX: nat, rollY: nat)
      requires Valid() && ValidOrder(o)
      modifies this, grid, grid.points
      ensures Valid()
      ensures time == old(time) && waterLevel == old(waterLevel)
      ensures !o.cmd.Build? ==> players == old(players)
      ensures entityCounter == old(entityCounter) + (if o.cmd.Build? || o.cmd.Attack? then 1 else 0)
      ensures o.cmd.RaiseMap? ==> entities == old(entities)
      ensures !o.cmd.RaiseMap? ==> grid.growingPoints == old(grid.growingPoints)
      ensures MinersKept(old(entities), entities)
      ensures Now() == Apply(old(Now()), o, Pos(rollX, rollY))
    {
      ghost var w0 := Now();
      ApplyKeepsMiners(w0, o, Pos(rollX, rollY));
      match o.cmd
      case Build(from, t, x, y) =>
        var _ := RunBuild(o.player, from as nat, t, Pos(x as nat, y as nat));
      case Construct(queue, from, to) =>
        Enqueue(from as nat, to as nat, queue == 0);
      case RaiseMap(x, y, w, h) =>
        var _ := RunRaiseMap(Pos(x as nat, y as nat), Pos(w as nat, h as nat));
      case Attack(from, x, y) =>
        var _, _ := RunAttack(from as nat, Pos(x as nat, y as nat), rollX, rollY);
    }

    // ---- time ----

    /** SimState::getTickLengthS: the tick length in seconds. */
    function TickLength(): (dt: real)
      ensures dt >= 0.0 && dt * 1000.0 == settings.tickLengthMs as real
    {
      settings.tickLengthMs as real / 1000.0
    }

    /** SimState::tick: time advances by one tick. (Raising the water level
        from here is disabled in the source.) */
    method Tick()
      requires Valid()
      modifies this
      ensures Valid()
      ensures time == old(time) + TickLength()
      ensures players == old(players) && entities == old(entities) && entityCounter == old(entityCounter) &&
              waterLevel == old(waterLevel)
    {
      time := time + TickLength();
    }

    /** SimState::raiseWaterLevel: the level goes up by one and every point
        of height 0 becomes a water source. */
    method RaiseWaterLevel()
      requires Valid()
      modifies this, grid.points
      ensures Valid()
      ensures waterLevel == old(waterLevel) + 1
      ensures players == old(players) && entities == old(entities) && entityCounter == old(entityCounter) && time == old(time)
      ensures forall i: nat, j: nat | i < grid.sizeX && j < grid.sizeY ::
                grid.points[i, j] == old(grid.points[i, j]).(waterSource := old(grid.points[i, j]).waterSource || old(grid.points[i, j]).height == 0)
    {
      grid.DryAboveMonotone(waterLevel, waterLevel + 1);
      waterLevel := waterLevel + 1;
      grid.RaiseWaterLevel(waterLevel);
    }

    /** EntityManager::destroy of every entity in `gone` (what Map::tick
        does to the entities on grown points). */
    method Destroy(gone: set<EntityId>)
      requires Valid()
      modifies this
      ensures Valid()
      ensures entities == Without(old(entities), gone) && MinersKept(old(entities), entities)
      ensures players == old(players) && entityCounter == old(entityCounter) && time == old(time) && waterLevel == old(waterLevel)
    {
      StoreRemove(players.Keys, entities, entityCounter, grid.sizeX, grid.sizeY, gone);
      entities := Without(entities, gone);
    }
  }

  // ---- findClosestBuilding, on values ----

  /** The entity `e` names is a finished building of type `t` owned by `owner`. */
  predicate FinishedOf(entities: map<EntityId, Entity>, e: Option<EntityId>, t: BuildingType, owner: PlayerId)
  {
    e.Some? && e.value in entities && entities[e.value].body.BuildingBody? &&
    entities[e.value].body.building.finished && entities[e.value].body.building.btype == t &&
    entities[e.value].owner == owner
  }

  /** The cells findClosestBuilding visits around `p`. */
  predicate Scanned(c: Pos, p: Pos, range: nat, sizeX: nat, sizeY: nat)
  {
    ScanStart(p.x, range) <= c.x < p.x + range && c.x < sizeX &&
    ScanStart(p.y, range) <= c.y < p.y + range && c.y < sizeY
  }

  /** The entity standing on `c` is a finished building of type `t` owned
      by `owner`, within `range` of `p`. */
  ghost predicate CandidateAt(cells: imap<Pos, GridPoint>, sites: map<EntityId, (PlayerId, Building)>, c: Pos,
                              t: BuildingType, owner: PlayerId, p: Pos, range: nat)
  {
    c in cells && cells[c].entity.Some? && cells[c].entity.value in sites &&
    sites[cells[c].entity.value].1.finished && sites[cells[c].entity.value].1.btype == t &&
    sites[cells[c].entity.value].0 == owner && SqDistance(p, c) <= range * range
  }

  /** `c` comes before (x, y) in findClosestBuilding's scan. */
  predicate Seen(c: Pos, x: nat, y: nat)
  {
    c.x < x || (c.x == x && c.y < y)
  }

  /** The loop state of findClosestBuilding after the cells before (x, y):
      no candidate seen so far, or `at` is the first-seen closest one. */
  ghost predicate Best(cells: imap<Pos, GridPoint>, sizeX: nat, sizeY: nat, sites: map<EntityId, (PlayerId, Building)>,
                       t: BuildingType, owner: PlayerId, p: Pos, range: nat, x: nat, y: nat, r: Option<EntityId>, at: Pos)
  {
    (r.None? ==> forall c | Scanned(c, p, range, sizeX, sizeY) && Seen(c, x, y) :: !CandidateAt(cells, sites, c, t, owner, p, range)) &&
    (r.Some? ==> Scanned(at, p, range, sizeX, sizeY) && Seen(at, x, y) && CandidateAt(cells, sites, at, t, owner, p, range)) &&
    (r.Some? ==> forall c | Scanned(c, p, range, sizeX, sizeY) && Seen(c, x, y) && CandidateAt(cells, sites, c, t, owner, p, range) ::
                   SqDistance(p, at) <= SqDistance(p, c) && (Map.Before(c, at) ==> SqDistance(p, at) < SqDistance(p, c)))
  }

  /** What findClosestBuilding promises: with no result no scanned cell
      holds a candidate; otherwise `at` is a scanned cell holding the
      candidate `r`, no candidate is closer, and none visited before it is
      as close. */
  ghost predicate Closest(cells: imap<Pos, GridPoint>, sizeX: nat, sizeY: nat, sites: map<EntityId, (PlayerId, Building)>,
                          t: BuildingType, owner: PlayerId, p: Pos, range: nat, r: Option<EntityId>, at: Pos)
  {
    (r.None? ==> forall c | Scanned(c, p, range, sizeX, sizeY) :: !CandidateAt(cells, sites, c, t, owner, p, range)) &&
    (r.Some? ==> Scanned(at, p, range, sizeX, sizeY) && CandidateAt(cells, sites, at, t, owner, p, range) && cells[at].entity == r) &&
    (r.Some? ==> forall c | Scanned(c, p, range, sizeX, sizeY) && CandidateAt(cells, sites, c, t, owner, p, range) ::
                   SqDistance(p, at) <= SqDistance(p, c) && (Map.Before(c, at) ==> SqDistance(p, at) < SqDistance(p, c)))
  }

  /** The answer of findClosestBuilding is determined by the grid and the
      buildings: two answers meeting Closest are the same cell and entity. */
  lemma ClosestUnique(cells: imap<Pos, GridPoint>, sizeX: nat, sizeY: nat, sites: map<EntityId, (PlayerId, Building)>,
                      t: BuildingType, owner: PlayerId, p: Pos, range: nat,
                      r1: Option<EntityId>, at1: Pos, r2: Option<EntityId>, at2: Pos)
    requires Closest(cells, sizeX, sizeY, sites, t, owner, p, range, r1, at1)
    requires Closest(cells, sizeX, sizeY, sites, t, owner, p, range, r2, at2)
    ensures r1 == r2 && (r1.Some? ==> at1 == at2)
  {
  }

  /** The scan done: Best over every scanned cell is Closest. */
  lemma BestDone(cells: imap<Pos, GridPoint>, sizeX: nat, sizeY: nat, sites: map<EntityId, (PlayerId, Building)>,
                 t: BuildingType, owner: PlayerId, p: Pos, range: nat, x: nat, r: Option<EntityId>, at: Pos)
    requires Best(cells, sizeX, sizeY, sites, t, owner, p, range, x, ScanStart(p.y, range), r, at)
    requires x >= p.x + range || x >= sizeX
    requires r.Some? ==> at in cells && cells[at].entity == r
    ensures Closest(cells, sizeX, sizeY, sites, t, owner, p, range, r, at)
  {
  }

  /** The scan passes a cell that is not a closer candidate. */
  lemma BestSkip(cells: imap<Pos, GridPoint>, sizeX: nat, sizeY: nat, sites: map<EntityId, (PlayerId, Building)>,
                 t: BuildingType, owner: PlayerId, p: Pos, range: nat, x: nat, y: nat, r: Option<EntityId>, at: Pos)
    requires Best(cells, sizeX, sizeY, sites, t, owner, p, range, x, y, r, at)
    requires CandidateAt(cells, sites, Pos(x, y), t, owner, p, range) ==> r.Some? && SqDistance(p, at) <= SqDistance(p, Pos(x, y))
    ensures Best(cells, sizeX, sizeY, sites, t, owner, p, range, x, y + 1, r, at)
  {
  }

  /** The scan picks a candidate closer than every one seen before. */
  lemma BestTake(cells: imap<Pos, GridPoint>, sizeX: nat, sizeY: nat, sites: map<EntityId, (PlayerId, Building)>,
                 t: BuildingType, owner: PlayerId, p: Pos, range: nat, x: nat, y: nat, r: Option<EntityId>, at: Pos)
    requires Best(cells, sizeX, sizeY, sites, t, owner, p, range, x, y, r, at)
    requires Scanned(Pos(x, y), p, range, sizeX, sizeY) && CandidateAt(cells, sites, Pos(x, y), t, owner, p, range)
    requires r.Some? ==> SqDistance(p, Pos(x, y)) < SqDistance(p, at)
    ensures Best(cells, sizeX, sizeY, sites, t, owner, p, range, x, y + 1, cells[Pos(x, y)].entity, Pos(x, y))
  {
  }

  /** A column scanned to its end: the scan moves to the next column. */
  lemma BestNextColumn(cells: imap<Pos, GridPoint>, sizeX: nat, sizeY: nat, sites: map<EntityId, (PlayerId, Building)>,
                       t: BuildingType, owner: PlayerId, p: Pos, range: nat, x: nat, y: nat, r: Option<EntityId>, at: Pos)
    requires Best(cells, sizeX, sizeY, sites, t, owner, p, range, x, y, r, at)
    requires y >= p.y + range || y >= sizeY
    ensures Best(cells, sizeX, sizeY, sites, t, owner, p, range, x + 1, ScanStart(p.y, range), r, at)
  {
  }
}
