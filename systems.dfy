// The systems of game/SimSystems.cc. Each system visits the entities it
// applies to in increasing id order; a visit is one method that replaces
// entities of the store, changes a player's stock or the grid. The
// receivers of FlyingObjectLanded run inside the visit that lands the
// object, before it is destroyed.
module Systems {
  import opened Common
  import opened Defs
  import opened TerrainRules
  import opened Grid
  import opened Components
  import opened SimStates

  /** The entities and the id counter: the part of the state a visit of
      the miner or the main-building system changes. */
  datatype Roster = Roster(entities: map<EntityId, Entity>, counter: nat)

  // ---- small value updates ----

  function WithRole(e: Entity, role: Role): Entity
    requires e.body.BuildingBody?
  {
    e.(body := e.body.(role := role))
  }

  function WithBuilding(e: Entity, b: Building): Entity
    requires e.body.BuildingBody?
  {
    e.(body := e.body.(building := b))
  }

  // ---- miners ----

  /** The amount a finished miner holds after its visit: from 2 on it is
      launched when a store was found (and the fraction is lost), otherwise
      it grows by one tick's length. */
  function StoredAfter(stored: real, dt: real, storeFound: bool): real
  {
    if stored >= 2.0 then (if storeFound then 0.0 else stored) else stored + dt
  }

  /** A miner never holds 2 + dt or more: below 2 it grows by dt, from 2 on
      it is emptied or left alone. */
  lemma StoredBounded(stored: real, dt: real, storeFound: bool)
    requires 0.0 <= stored < 2.0 + dt && dt >= 0.0
    ensures 0.0 <= StoredAfter(stored, dt, storeFound) < 2.0 + dt
    ensures StoredAfter(stored, dt, storeFound) < stored ==> stored >= 2.0 && storeFound
  {
  }

  /** A launch carries at least 2 and at most what was stored. */
  lemma LaunchAmount(stored: real)
    requires stored >= 2.0
    ensures 2 <= stored.Floor && stored.Floor as real <= stored
  {
  }

  /** MinerBuildingSystem::tick for the miner `id`. An unfinished miner
      does nothing. From 2 stored it launches (MinerLaunch); below 2 it
      gains one tick's length. */
  method MinerStep(s: SimState, id: EntityId) returns (flying: Option<EntityId>, ghost target: Option<EntityId>, ghost at: Pos)
    requires s.Valid() && IsBuilding(s.entities, id) && s.entities[id].body.role.MinerRole?
    modifies s
    ensures s.Valid()
    ensures s.players == old(s.players) && s.time == old(s.time) && s.waterLevel == old(s.waterLevel)
    ensures var e := old(s.entities)[id];
            var stored := e.body.role.amountStored;
            var finished := e.body.building.finished;
            (!finished ==> flying.None? && s.entities == old(s.entities)) &&
            (finished && stored < 2.0 ==> (flying.None? &&
               s.entities == old(s.entities)[id := WithRole(e, e.body.role.(amountStored := stored + s.TickLength()))])) &&
            (finished && stored >= 2.0 ==>
               Closest(old(s.grid.Cells()), s.grid.sizeX, s.grid.sizeY, old(s.Sites()), Store, e.owner, e.body.building.at, 100, target, at) &&
               Launched(old(s.entities), old(s.entityCounter), id, target, flying, s.entities))
    ensures s.entities.Keys == old(s.entities).Keys + (if flying.Some? then {flying.value} else {})
    ensures forall k | k in old(s.entities) && k != id :: s.entities[k] == old(s.entities)[k]
    ensures var role := old(s.entities)[id].body.role;
            old(s.entities)[id].body.building.finished ==>
              s.entities[id].body.role.amountStored == StoredAfter(role.amountStored, s.TickLength(), flying.Some?)
    ensures !old(s.entities)[id].body.building.finished ==> s.entities[id] == old(s.entities)[id]
    ensures s.entityCounter == if flying.Some? then flying.value else old(s.entityCounter)
    ensures unchanged(s.grid, s.grid.points)
    ensures MinerVisit(old(s.grid.Cells()), s.grid.sizeX, s.grid.sizeY, s.TickLength(),
                       Roster(old(s.entities), old(s.entityCounter)), id, Roster(s.entities, s.entityCounter))
  {
    var e := s.entities[id];
    var role := e.body.role;
    ghost var a := Roster(s.entities, s.entityCounter);
    flying, target, at := None, None, e.body.building.at;
    if !e.body.building.finished {
      return;
    }
    if role.amountStored >= 2.0 {
      ghost var cells := s.grid.Cells();
      flying, target, at := MinerLaunch(s, id);
      LaunchedChanges(a.entities, a.counter, id, target, flying, s.entities, s.TickLength());
      assert s.grid.Cells() == cells;
      MinerStepVisit(cells, s.grid.sizeX, s.grid.sizeY, s.TickLength(), a, id, Roster(s.entities, s.entityCounter), flying, target, at);
    } else {
      SetRole(s, id, role.(amountStored := role.amountStored + s.TickLength()));
    }
  }

  /** What a launch of the finished miner `id` holding 2 or more does to
      the store `before`: the closest finished store of the owner within
      100 (findClosestBuilding) is `target`; with none nothing changes;
      otherwise a flying resource of the whole units stored heads from the
      miner's top to the store's and the miner is emptied (the fraction is
      lost). */
  ghost predicate Launched(before: map<EntityId, Entity>, counter: nat, id: EntityId, target: Option<EntityId>,
                           flying: Option<EntityId>, after: map<EntityId, Entity>)
    requires IsBuilding(before, id) && before[id].body.role.MinerRole? && before[id].body.role.amountStored >= 0.0
  {
    var e := before[id];
    (target.None? ==> flying.None? && after == before) &&
    (target.Some? ==> (target.value in before && before[target.value].body.BuildingBody? &&
       flying == Some(counter + 1) &&
       ManhattanDistance(Top(e.body.building), Top(before[target.value].body.building)) > 0.0 &&
       after == before[flying.value := Entity(e.owner, FlyingBody(
                                NewFlight(Top(e.body.building), Top(before[target.value].body.building)),
                                ResourceCargo(Iron, e.body.role.amountStored.Floor)))]
                      [id := WithRole(e, e.body.role.(amountStored := 0.0))]))
  }

  /** A launch adds at most the flying resource, and changes no other
      building than the miner, whose stock follows StoredAfter. */
  lemma LaunchedChanges(before: map<EntityId, Entity>, counter: nat, id: EntityId, target: Option<EntityId>,
                        flying: Option<EntityId>, after: map<EntityId, Entity>, dt: real)
    requires IsBuilding(before, id) && before[id].body.role.MinerRole? && before[id].body.role.amountStored >= 2.0
    requires Launched(before, counter, id, target, flying, after)
    requires counter + 1 !in before
    ensures after.Keys == before.Keys + (if flying.Some? then {flying.value} else {})
    ensures forall k | k in before && k != id :: after[k] == before[k]
    ensures after[id].body.BuildingBody? && after[id].body.role.MinerRole?
    ensures after[id].body.role.amountStored == StoredAfter(before[id].body.role.amountStored, dt, flying.Some?)
  {
  }

  /** The launch branch of MinerBuildingSystem::tick. */
  method MinerLaunch(s: SimState, id: EntityId) returns (flying: Option<EntityId>, ghost target: Option<EntityId>, ghost at: Pos)
    requires s.Valid() && IsBuilding(s.entities, id) && s.entities[id].body.role.MinerRole?
    requires s.entities[id].body.building.finished && s.entities[id].body.role.amountStored >= 2.0
    modifies s
    ensures s.Valid()
    ensures s.players == old(s.players) && s.time == old(s.time) && s.waterLevel == old(s.waterLevel)
    ensures var e := old(s.entities)[id];
            Closest(old(s.grid.Cells()), s.grid.sizeX, s.grid.sizeY, old(s.Sites()), Store, e.owner, e.body.building.at, 100, target, at)
    ensures Launched(old(s.entities), old(s.entityCounter), id, target, flying, s.entities)
    ensures s.entityCounter == if flying.Some? then flying.value else old(s.entityCounter)
    ensures unchanged(s.grid, s.grid.points)
  {
    var e := s.entities[id];
    var b := e.body.building;
    var role := e.body.role;
    flying := None;
    var found;
    found, at := s.FindClosestBuilding(Store, e.owner, b.at, 100);
    target := found;
    if found.Some? {
      var store := s.entities[found.value].body.building;
      HalfOffsetDistance(Top(b), Top(store), b.at.x, store.at.x + 1);
      var f := LaunchTo(s, id, found.value);
      flying := Some(f);
    }
  }

  /** A launch from the miner `id` to the store `to`. */
  method LaunchTo(s: SimState, id: EntityId, to: EntityId) returns (f: EntityId)
    requires s.Valid() && IsBuilding(s.entities, id) && s.entities[id].body.role.MinerRole?
    requires s.entities[id].body.role.amountStored >= 2.0 && IsBuilding(s.entities, to)
    requires ManhattanDistance(Top(s.entities[id].body.building), Top(s.entities[to].body.building)) > 0.0
    modifies s
    ensures s.Valid()
    ensures s.players == old(s.players) && s.time == old(s.time) && s.waterLevel == old(s.waterLevel)
    ensures Launched(old(s.entities), old(s.entityCounter), id, Some(to), Some(f), s.entities)
    ensures s.entityCounter == f
    ensures unchanged(s.grid, s.grid.points)
  {
    var role := s.entities[id].body.role;
    f := s.AddFlyingResource(id, to, Iron, role.amountStored.Floor);
    SetRole(s, id, role.(amountStored := 0.0));
  }

  /** A building's component replaced by one of the same kind. */
  method SetRole(s: SimState, id: EntityId, role: Role)
    requires s.Valid() && IsBuilding(s.entities, id)
    requires role.MainRole? == s.entities[id].body.role.MainRole? && role.MinerRole? == s.entities[id].body.role.MinerRole?
    requires role.MainRole? ==> forall q | q in role.queue :: BuildingRef(s.entities, s.entityCounter, q)
    modifies s
    ensures s.Valid()
    ensures s.players == old(s.players) && s.time == old(s.time) && s.waterLevel == old(s.waterLevel)
    ensures s.entityCounter == old(s.entityCounter)
    ensures s.entities == old(s.entities)[id := WithRole(old(s.entities)[id], role)]
  {
    var e := WithRole(s.entities[id], role);
    StoreReplace(s.players.Keys, s.entities, s.entityCounter, s.grid.sizeX, s.grid.sizeY, id, e);
    s.entities := s.entities[id := e];
  }

  /** A building's Building component replaced by one of the same type. */
  method SetBuilding(s: SimState, id: EntityId, b: Building)
    requires s.Valid() && IsBuilding(s.entities, id) && b.btype == s.entities[id].body.building.btype
    modifies s
    ensures s.Valid()
    ensures s.players == old(s.players) && s.time == old(s.time) && s.waterLevel == old(s.waterLevel)
    ensures s.entityCounter == old(s.entityCounter)
    ensures s.entities == old(s.entities)[id := WithBuilding(old(s.entities)[id], b)]
  {
    var e := WithBuilding(s.entities[id], b);
    StoreReplace(s.players.Keys, s.entities, s.entityCounter, s.grid.sizeX, s.grid.sizeY, id, e);
    s.entities := s.entities[id := e];
  }

  /** The visit of MinerBuildingSystem::tick to the id `id` of the roster
      `a`, on a grid whose cells are `cells`, leaving `b`: anything but a
      miner is skipped, an unfinished miner does nothing, below 2 stored
      the miner gains `dt`, and from 2 on it launches to the store
      findClosestBuilding answers (Launched). */
  ghost predicate MinerVisit(cells: imap<Pos, GridPoint>, sizeX: nat, sizeY: nat, dt: real, a: Roster, id: EntityId, b: Roster)
  {
    if !(IsBuilding(a.entities, id) && a.entities[id].body.role.MinerRole?) then b == a
    else
      var e := a.entities[id];
      var role := e.body.role;
      if !e.body.building.finished then b == a
      else if role.amountStored < 2.0 then
        b == a.(entities := a.entities[id := WithRole(e, role.(amountStored := role.amountStored + dt))])
      else
        exists target: Option<EntityId>, at: Pos ::
          Closest(cells, sizeX, sizeY, SitesOf(a.entities), Store, e.owner, e.body.building.at, 100, target, at) &&
          Launched(a.entities, a.counter, id, target, if target.Some? then Some(a.counter + 1) else None, b.entities) &&
          b.counter == if target.Some? then a.counter + 1 else a.counter
  }

  /** One visit of the miner system in the order of ids: MinerVisit from
      `trace[i]` to `trace[i + 1]` is the visit to id `i + 1`. */
  ghost predicate MinerTrace(cells: imap<Pos, GridPoint>, sizeX: nat, sizeY: nat, dt: real, trace: seq<Roster>)
  {
    forall i | 0 <= i < |trace| - 1 :: MinerVisit(cells, sizeX, sizeY, dt, trace[i], i + 1, trace[i + 1])
  }

  /** MinerBuildingSystem::tick: the ids 1 to the counter at the start, in
      increasing order, each visited as MinerVisit says (`trace` holds the
      roster before the first visit and after each one). No miner ends up
      holding 2 + dt or more. */
  method MinerSystem(s: SimState) returns (ghost trace: seq<Roster>)
    requires s.Valid() && MinersBounded(s.entities, s.TickLength())
    modifies s
    ensures s.Valid() && MinersBounded(s.entities, s.TickLength())
    ensures s.players == old(s.players) && s.time == old(s.time) && s.waterLevel == old(s.waterLevel)
    ensures old(s.entities).Keys <= s.entities.Keys && s.entityCounter >= old(s.entityCounter)
    ensures unchanged(s.grid, s.grid.points)
    ensures |trace| == old(s.entityCounter) + 1 && trace[0] == Roster(old(s.entities), old(s.entityCounter))
    ensures trace[|trace| - 1] == Roster(s.entities, s.entityCounter)
    ensures MinerTrace(s.grid.Cells(), s.grid.sizeX, s.grid.sizeY, s.TickLength(), trace)
  {
    ghost var cells := s.grid.Cells();
    var last := s.entityCounter;
    trace := [Roster(s.entities, s.entityCounter)];
    var id := 1;
    while id <= last
      invariant 1 <= id <= last + 1 && |trace| == id
      invariant s.Valid() && MinersBounded(s.entities, s.TickLength())
      invariant s.players == old(s.players) && s.time == old(s.time) && s.waterLevel == old(s.waterLevel)
      invariant old(s.entities).Keys <= s.entities.Keys && s.entityCounter >= old(s.entityCounter)
      invariant unchanged(s.grid, s.grid.points)
      invariant trace[0] == Roster(old(s.entities), old(s.entityCounter)) && trace[id - 1] == Roster(s.entities, s.entityCounter)
      invariant MinerTrace(cells, s.grid.sizeX, s.grid.sizeY, s.TickLength(), trace)
    {
      assert s.grid.Cells() == cells;
      VisitMiner(s, id);
      MinerTraceSnoc(cells, s.grid.sizeX, s.grid.sizeY, s.TickLength(), trace, Roster(s.entities, s.entityCounter));
      trace := trace + [Roster(s.entities, s.entityCounter)];
      id := id + 1;
    }
  }

  /** The visit of the miner system to the id `id`: MinerStep for a miner,
      nothing for anything else. */
  method VisitMiner(s: SimState, id: EntityId)
    requires s.Valid() && MinersBounded(s.entities, s.TickLength())
    modifies s
    ensures s.Valid() && MinersBounded(s.entities, s.TickLength())
    ensures s.players == old(s.players) && s.time == old(s.time) && s.waterLevel == old(s.waterLevel)
    ensures old(s.entities).Keys <= s.entities.Keys && s.entityCounter >= old(s.entityCounter)
    ensures unchanged(s.grid, s.grid.points)
    ensures MinerVisit(old(s.grid.Cells()), s.grid.sizeX, s.grid.sizeY, s.TickLength(),
                       Roster(old(s.entities), old(s.entityCounter)), id, Roster(s.entities, s.entityCounter))
  {
    if IsBuilding(s.entities, id) && s.entities[id].body.role.MinerRole? {
      ghost var before := s.entities;
      var flying, _, _ := MinerStep(s, id);
      MinersStayBounded(before, s.entities, id, flying, s.TickLength());
    }
  }

  /** One more visit on a miner trace. */
  lemma MinerTraceSnoc(cells: imap<Pos, GridPoint>, sizeX: nat, sizeY: nat, dt: real, trace: seq<Roster>, b: Roster)
    requires |trace| > 0 && MinerTrace(cells, sizeX, sizeY, dt, trace)
    requires MinerVisit(cells, sizeX, sizeY, dt, trace[|trace| - 1], |trace|, b)
    ensures MinerTrace(cells, sizeX, sizeY, dt, trace + [b])
  {
  }

  /** What MinerStep promises is a MinerVisit. */
  lemma MinerStepVisit(cells: imap<Pos, GridPoint>, sizeX: nat, sizeY: nat, dt: real, a: Roster, id: EntityId, b: Roster,
                       flying: Option<EntityId>, target: Option<EntityId>, at: Pos)
    requires IsBuilding(a.entities, id) && a.entities[id].body.role.MinerRole?
    requires var e := a.entities[id];
             var stored := e.body.role.amountStored;
             var finished := e.body.building.finished;
             (!finished ==> flying.None? && b.entities == a.entities) &&
             (finished && stored < 2.0 ==> (flying.None? &&
                b.entities == a.entities[id := WithRole(e, e.body.role.(amountStored := stored + dt))])) &&
             (finished && stored >= 2.0 ==>
                Closest(cells, sizeX, sizeY, SitesOf(a.entities), Store, e.owner, e.body.building.at, 100, target, at) &&
                Launched(a.entities, a.counter, id, target, flying, b.entities))
    requires b.counter == if flying.Some? then flying.value else a.counter
    ensures MinerVisit(cells, sizeX, sizeY, dt, a, id, b)
  {
    var e := a.entities[id];
    if e.body.building.finished && e.body.role.amountStored >= 2.0 {
      assert flying == if target.Some? then Some(a.counter + 1) else None;
    }
  }

  /** One miner's visit keeps every miner bounded. */
  lemma MinersStayBounded(before: map<EntityId, Entity>, after: map<EntityId, Entity>, id: EntityId,
                          flying: Option<EntityId>, dt: real)
    requires dt >= 0.0 && MinersBounded(before, dt) && id in before && before[id].body.BuildingBody? && before[id].body.role.MinerRole?
    requires after.Keys == before.Keys + (if flying.Some? then {flying.value} else {})
    requires forall k | k in before && k != id :: after[k] == before[k]
    requires flying.Some? ==> flying.value !in before && after[flying.value].body.FlyingBody?
    requires after[id].body.BuildingBody? && after[id].body.role.MinerRole?
    requires before[id].body.building.finished ==>
               after[id].body.role.amountStored == StoredAfter(before[id].body.role.amountStored, dt, flying.Some?)
    requires !before[id].body.building.finished ==> after[id] == before[id]
    ensures MinersBounded(after, dt)
  {
    if before[id].body.building.finished {
      StoredBounded(before[id].body.role.amountStored, dt, flying.Some?);
    }
  }

  // ---- flying objects ----

  /** The step of FlyingObjectSystem::tick: a flight not yet past 1
      remembers its progress and advances by dt * 5 / distance. */
  function Advance(f: Flight, dt: real): (r: Flight)
    requires f.distance > 0.0
    ensures r.from == f.from && r.to == f.to && r.distance == f.distance
    ensures f.progress <= 1.0 ==> r.lastProgress == f.progress
    ensures dt >= 0.0 ==> r.progress >= f.progress
  {
    if f.progress <= 1.0 then
      f.(lastProgress := f.progress, progress := f.progress + dt * (5.0 / f.distance))
    else
      f
  }

  /** `n` ticks of flight. */
  function AdvanceN(f: Flight, dt: real, n: nat): (r: Flight)
    requires f.distance > 0.0
    ensures r.distance == f.distance
  {
    if n == 0 then f else Advance(AdvanceN(f, dt, n - 1), dt)
  }

  /** A flight covers 5 units of distance per second: after n ticks that
      did not carry it past 1 its progress is n * dt * 5 / distance more. */
  lemma FlightProgress(f: Flight, dt: real, n: nat)
    requires f.distance > 0.0 && dt >= 0.0
    requires n > 0 ==> f.progress + (n - 1) as real * (dt * (5.0 / f.distance)) <= 1.0
    ensures AdvanceN(f, dt, n).progress == f.progress + n as real * (dt * (5.0 / f.distance))
  {
    var step := dt * (5.0 / f.distance);
    StepPositive(dt, f.distance);
    if n > 0 {
      SumIsProduct(step, n - 1);
    }
    FlightSum(f, dt, step, n);
    SumIsProduct(step, n);
  }

  lemma StepPositive(dt: real, distance: real)
    requires dt >= 0.0 && distance > 0.0
    ensures dt * (5.0 / distance) >= 0.0
  {
  }

  /** `n` steps of length `step`, added one at a time. */
  function Steps(step: real, n: nat): real
  {
    if n == 0 then 0.0 else Steps(step, n - 1) + step
  }

  lemma {:induction false} SumIsProduct(step: real, n: nat)
    ensures Steps(step, n) == n as real * step
  {
    if n > 0 {
      SumIsProduct(step, n - 1);
      assert (n - 1) as real * step + step == n as real * step;
    }
  }

  /** FlightProgress with the steps summed one at a time. */
  lemma {:induction false} FlightSum(f: Flight, dt: real, step: real, n: nat)
    requires f.distance > 0.0 && step == dt * (5.0 / f.distance) && step >= 0.0
    requires n > 0 ==> f.progress + Steps(step, n - 1) <= 1.0
    ensures AdvanceN(f, dt, n).progress == f.progress + Steps(step, n)
  {
    if n > 0 {
      FlightSum(f, dt, step, n - 1);
    }
  }

  /** The player whose store stands on grid point `q`, if a store does. */
  function StoreOwnerAt(store: map<EntityId, Entity>, occupant: Option<EntityId>): Option<PlayerId>
  {
    if occupant.Some? && occupant.value in store && store[occupant.value].body.BuildingBody? &&
       store[occupant.value].body.building.btype == Store
    then Some(store[occupant.value].owner)
    else None
  }

  /** FlyingResourceSystem::receive: a resource landing on a point of the
      map that holds a store goes to the store's owner. */
  method ResourceLanded(s: SimState, to: FVec3, resource: ResourceType, amount: nat) returns (receiver: Option<PlayerId>)
    requires s.Valid() && to.x >= 0.0 && to.y >= 0.0
    modifies s
    ensures s.Valid()
    ensures s.entities == old(s.entities) && s.entityCounter == old(s.entityCounter)
    ensures s.time == old(s.time) && s.waterLevel == old(s.waterLevel)
    ensures var c := CellOf(to);
            receiver == (if s.grid.InMap(c) then StoreOwnerAt(s.entities, s.grid.points[c.x, c.y].entity) else None)
    ensures receiver.None? ==> s.players == old(s.players)
    ensures receiver.Some? ==> (receiver.value in old(s.players) &&
              s.players == old(s.players)[receiver.value := GiveResources(old(s.players)[receiver.value], resource, amount)])
  {
    var c := CellOf(to);
    receiver := None;
    if s.grid.InMap(c) {
      receiver := StoreOwnerAt(s.entities, s.grid.points[c.x, c.y].entity);
      if receiver.Some? {
        var p := receiver.value;
        s.players := s.players[p := GiveResources(s.players[p], resource, amount)];
        assert s.players.Keys == old(s.players).Keys;
      }
    }
  }

  /** The store after a block `blk` for `target` lands: an unfinished
      building that still exists gets the block, and is finished exactly
      when it then holds every block of its type. */
  function Delivered(store: map<EntityId, Entity>, table: TypeTable, target: EntityId, blk: Block): map<EntityId, Entity>
  {
    if IsBuilding(store, target) && !store[target].body.building.finished then
      var b := store[target].body.building;
      store[target := WithBuilding(store[target], b.(blocks := b.blocks + [blk],
                                                     finished := Complete(table.Info(b.btype).blocks, b.blocks + [blk])))]
    else
      store
  }

  /** FlyingBlockSystem::receive: a block for a building that still exists
      and is unfinished is added to it (Building::addBlock). */
  method BlockLanded(s: SimState, target: EntityId, blk: Block) returns (delivered: bool, nowFinished: bool)
    requires s.Valid() && BuildingRef(s.entities, s.entityCounter, target)
    modifies s
    ensures s.Valid()
    ensures s.players == old(s.players) && s.entityCounter == old(s.entityCounter)
    ensures s.time == old(s.time) && s.waterLevel == old(s.waterLevel)
    ensures delivered <==> target in old(s.entities) && !old(s.entities)[target].body.building.finished
    ensures !delivered ==> s.entities == old(s.entities)
    ensures delivered ==>
              var b := old(s.entities)[target].body.building;
              nowFinished <==> Complete(s.table.Info(b.btype).blocks, b.blocks + [blk])
    ensures s.entities == Delivered(old(s.entities), s.table, target, blk)
  {
    delivered, nowFinished := false, false;
    if target !in s.entities {
      return;
    }
    var b := s.entities[target].body.building;
    if b.finished {
      return;
    }
    var nb := AddBlock(b, s.table.Info(b.btype), blk);
    SetBuilding(s, target, nb);
    delivered, nowFinished := true, nb.finished;
  }

  /** The factor a rocket leaves of the water on its point (divided by 17/12). */
  const HIT: real := 12.0 / 17.0
  /** The factor it leaves once on each neighbour (divided by 14/12). */
  const NEAR: real := 12.0 / 14.0
  /** The factor it leaves on every neighbour once per neighbour (divided
      by 13/12 in the nested loop). */
  const SPLASH: real := 12.0 / 13.0

  function Pow(k: real, n: nat): real
  {
    if n == 0 then 1.0 else k * Pow(k, n - 1)
  }

  lemma {:induction false} PowBounds(k: real, n: nat)
    requires 0.0 < k <= 1.0
    ensures 0.0 < Pow(k, n) <= 1.0
  {
    if n > 0 {
      PowBounds(k, n - 1);
      var p := Pow(k, n - 1);
      assert 0.0 < k * p;
      MulBelow(k, p);
    }
  }

  /** Scaling a positive amount by a factor in (0, 1] keeps it positive
      and does not increase it. */
  lemma MulBelow(k: real, p: real)
    requires 0.0 < k <= 1.0 && 0.0 < p
    ensures 0.0 < k * p <= p
  {
    assert p - k * p == (1.0 - k) * p;
  }

  /** The point a rocket hits: a crater of depth 2, and 12/17 of its water. */
  function HitPoint(g: GridPoint): GridPoint
  {
    CraterPoint(g, 2).(water := g.water * HIT)
  }

  /** A neighbour of the point a rocket hits, which has `n` neighbours: a
      crater of depth 1, and its water scaled by 12/14 and n times by 12/13. */
  function NearPoint(g: GridPoint, n: nat): GridPoint
  {
    CraterPoint(g, 1).(water := g.water * (NEAR * Pow(SPLASH, n)))
  }

  /** A rocket only digs and drains: no point gains water or height target. */
  lemma RocketDrains(g: GridPoint, n: nat)
    requires g.water >= 0.0
    ensures 0.0 <= HitPoint(g).water <= g.water && HitPoint(g).height == g.height
    ensures 0.0 <= NearPoint(g, n).water <= g.water && NearPoint(g, n).height == g.height
    ensures HitPoint(g).growthTarget <= 0 && NearPoint(g, n).growthTarget <= 0
  {
    PowBounds(SPLASH, n);
    var k := NEAR * Pow(SPLASH, n);
    assert 0.0 < k <= 1.0;
    assert g.water * k <= g.water by {
      assert g.water * (1.0 - k) >= 0.0;
    }
  }

  /** RocketSystem::receive: craters of depth 2 on the point hit and depth
      1 on its neighbours, then the water of the point and its neighbours
      is divided down. */
  method RocketLanded(m: Map, q: Pos, ghost level: nat)
    requires m.Valid() && m.InMap(q) && m.DryAbove(level)
    modifies m, m.points
    ensures m.Valid() && m.maxHeight == old(m.maxHeight) && m.DryAbove(level)
    ensures forall i: nat, j: nat | i < m.sizeX && j < m.sizeY ::
              m.points[i, j] == if Pos(i, j) == q then HitPoint(old(m.points[i, j]))
                                else if Pos(i, j) in m.Nbrs(q) then NearPoint(old(m.points[i, j]), |m.Nbrs(q)|)
                                else old(m.points[i, j])
    ensures m.growingPoints == old(m.growingPoints) + {q} + m.Nbrs(q)
  {
    Craters(m, q, level);
    label Dug:
    Drain(m, q, level);
    forall i: nat, j: nat | i < m.sizeX && j < m.sizeY
      ensures m.points[i, j] == if Pos(i, j) == q then HitPoint(old(m.points[i, j]))
                                else if Pos(i, j) in m.Nbrs(q) then NearPoint(old(m.points[i, j]), |m.Nbrs(q)|)
                                else old(m.points[i, j])
    {
      RocketCell(old(m.points[i, j]), old@Dug(m.points[i, j]), m.points[i, j], Pos(i, j), q, m.Nbrs(q));
    }
  }

  /** The crater depth a rocket landing on `q` digs at `c`, once the
      neighbours in `done` have been dug. */
  function CraterAt(g: GridPoint, c: Pos, q: Pos, done: set<Pos>): GridPoint
  {
    if c == q then CraterPoint(g, 2) else if c in done then CraterPoint(g, 1) else g
  }

  /** The crater part of RocketSystem::receive. */
  method Craters(m: Map, q: Pos, ghost level: nat)
    requires m.Valid() && m.InMap(q) && m.DryAbove(level)
    modifies m, m.points
    ensures m.Valid() && m.maxHeight == old(m.maxHeight) && m.DryAbove(level)
    ensures forall i: nat, j: nat | i < m.sizeX && j < m.sizeY ::
              m.points[i, j] == CraterAt(old(m.points[i, j]), Pos(i, j), q, m.Nbrs(q))
    ensures m.growingPoints == old(m.growingPoints) + {q} + m.Nbrs(q)
  {
    m.Crater(q, 2);
    var todo := m.Nbrs(q);
    ghost var ns := todo;
    assert q !in ns;
    ghost var done: set<Pos> := {};
    while todo != {}
      invariant todo + done == ns && todo !! done
      invariant m.Valid() && m.maxHeight == old(m.maxHeight) && m.DryAbove(level)
      invariant forall i: nat, j: nat | i < m.sizeX && j < m.sizeY ::
                  m.points[i, j] == CraterAt(old(m.points[i, j]), Pos(i, j), q, done)
      invariant m.growingPoints == old(m.growingPoints) + {q} + done
      decreases todo
    {
      var n :| n in todo;
      m.Crater(n, 1);
      todo := todo - {n};
      done := done + {n};
    }
  }

  /** The factor of its water a rocket landing on `q` leaves at `c`, once
      the neighbours in `done` have been divided by 14/12 and all of them
      |done| times by 13/12. */
  function DrainFactor(c: Pos, q: Pos, ns: set<Pos>, done: set<Pos>): real
  {
    if c == q then HIT
    else if c in ns then (if c in done then NEAR else 1.0) * Pow(SPLASH, |done|)
    else 1.0
  }

  /** `g` with its water scaled by `k`. */
  function Scaled(g: GridPoint, k: real): GridPoint
  {
    g.(water := g.water * k)
  }

  /** A point dug and then drained is the point the rocket hits or one of
      its neighbours. */
  lemma RocketCell(g0: GridPoint, g1: GridPoint, g2: GridPoint, c: Pos, q: Pos, ns: set<Pos>)
    requires q !in ns
    requires g1 == CraterAt(g0, c, q, ns) && g2 == Scaled(g1, DrainFactor(c, q, ns, ns))
    ensures g2 == if c == q then HitPoint(g0) else if c in ns then NearPoint(g0, |ns|) else g0
  {
    if c !in ns && c != q {
      assert g2.water == g0.water * 1.0;
    }
  }

  /** One more neighbour `n` drained by 14/12 and every neighbour by 13/12. */
  lemma {:induction false} DrainCell(g0: GridPoint, g1: GridPoint, g3: GridPoint,
                                     c: Pos, q: Pos, ns: set<Pos>, done: set<Pos>, n: Pos)
    requires q !in ns && n in ns && n !in done && done <= ns
    requires g1 == Scaled(g0, DrainFactor(c, q, ns, done))
    requires g3 == Scaled(Scaled(g1, if c == n then NEAR else 1.0), if c in ns then SPLASH else 1.0)
    ensures g3 == Scaled(g0, DrainFactor(c, q, ns, done + {n}))
  {
    assert |done + {n}| == |done| + 1;
    var p := Pow(SPLASH, |done|);
    assert Pow(SPLASH, |done| + 1) == SPLASH * p;
    var w := g0.water;
    if c in ns {
      var a := if c in done then NEAR else 1.0;
      assert g1.water == w * (a * p);
      if c == n {
        assert a == 1.0;
        calc {
          g3.water;
          w * (a * p) * NEAR * SPLASH;
          w * (NEAR * (SPLASH * p));
        }
      } else {
        calc {
          g3.water;
          w * (a * p) * SPLASH;
          w * (a * (SPLASH * p));
        }
      }
    } else {
      assert g3.water == g1.water * 1.0;
    }
  }

  /** The grid holds the points of `g0` drained as far as `done`. */
  ghost predicate DrainedBy(m: Map, q: Pos, g0: imap<Pos, GridPoint>, done: set<Pos>)
    reads m, m.points
    requires m.Sized()
  {
    (forall i: nat, j: nat | i < m.sizeX && j < m.sizeY :: Pos(i, j) in g0) &&
    forall i: nat, j: nat | i < m.sizeX && j < m.sizeY ::
      m.points[i, j] == Scaled(g0[Pos(i, j)], DrainFactor(Pos(i, j), q, m.Nbrs(q), done))
  }

  /** The water part of RocketSystem::receive. */
  method Drain(m: Map, q: Pos, ghost level: nat)
    requires m.Valid() && m.InMap(q) && m.DryAbove(level)
    modifies m.points
    ensures m.Valid() && m.DryAbove(level)
    ensures forall i: nat, j: nat | i < m.sizeX && j < m.sizeY ::
              m.points[i, j] == Scaled(old(m.points[i, j]), DrainFactor(Pos(i, j), q, m.Nbrs(q), m.Nbrs(q)))
  {
    ghost var g0 := m.Cells();
    DrainHit(m, q, level);
    DrainNeighbours(m, q, level, g0);
  }

  /** The outer forNeighbors of RocketSystem::receive, stated against the
      grid `g0` the drain started from. */
  method DrainNeighbours(m: Map, q: Pos, ghost level: nat, ghost g0: imap<Pos, GridPoint>)
    requires m.Valid() && m.InMap(q) && m.DryAbove(level)
    requires DrainedBy(m, q, g0, {})
    modifies m.points
    ensures m.Valid() && m.DryAbove(level) && DrainedBy(m, q, g0, m.Nbrs(q))
  {
    var todo := m.Nbrs(q);
    ghost var done: set<Pos> := {};
    while todo != {}
      invariant todo + done == m.Nbrs(q) && todo !! done
      invariant m.Valid() && m.DryAbove(level)
      invariant DrainedBy(m, q, g0, done)
      decreases todo
    {
      var n :| n in todo;
      DrainStep(m, q, level, g0, todo, done, n);
      todo := todo - {n};
      done := done + {n};
    }
    assert done == m.Nbrs(q);
  }

  /** A pass of the outer loop of Drain, stated against the grid `g0` the
      drain started from. */
  method DrainStep(m: Map, q: Pos, ghost level: nat, ghost g0: imap<Pos, GridPoint>,
                   todo: set<Pos>, ghost done: set<Pos>, n: Pos)
    requires m.Valid() && m.InMap(q) && m.DryAbove(level)
    requires n in todo && todo + done == m.Nbrs(q) && todo !! done
    requires DrainedBy(m, q, g0, done)
    modifies m.points
    ensures m.Valid() && m.DryAbove(level) && DrainedBy(m, q, g0, done + {n})
    ensures (todo - {n}) + (done + {n}) == m.Nbrs(q) && (todo - {n}) !! (done + {n})
  {
    DrainNeighbour(m, q, n, level);
    forall i: nat, j: nat | i < m.sizeX && j < m.sizeY
      ensures m.points[i, j] == Scaled(g0[Pos(i, j)], DrainFactor(Pos(i, j), q, m.Nbrs(q), done + {n}))
    {
      DrainCell(g0[Pos(i, j)], old(m.points[i, j]), m.points[i, j], Pos(i, j), q, m.Nbrs(q), done, n);
    }
  }

  /** The first division of RocketSystem::receive: the point hit keeps
      12/17 of its water. */
  method DrainHit(m: Map, q: Pos, ghost level: nat)
    requires m.Valid() && m.InMap(q) && m.DryAbove(level)
    modifies m.points
    ensures m.Valid() && m.DryAbove(level)
    ensures forall i: nat, j: nat | i < m.sizeX && j < m.sizeY ::
              m.points[i, j] == Scaled(old(m.points[i, j]), DrainFactor(Pos(i, j), q, m.Nbrs(q), {}))
  {
    m.ScaleWater(q, HIT);
    forall i: nat, j: nat | i < m.sizeX && j < m.sizeY
      ensures m.points[i, j] == Scaled(old(m.points[i, j]), DrainFactor(Pos(i, j), q, m.Nbrs(q), {}))
    {
      if Pos(i, j) != q {
        assert Pow(SPLASH, 0) == 1.0;
        assert old(m.points[i, j]).water * 1.0 == old(m.points[i, j]).water;
      }
    }
  }

  /** One pass of the outer forNeighbors of RocketSystem::receive: the
      neighbour `n` keeps 12/14 of its water, then every neighbour 12/13. */
  method DrainNeighbour(m: Map, q: Pos, n: Pos, ghost level: nat)
    requires m.Valid() && m.InMap(q) && n in m.Nbrs(q) && m.DryAbove(level)
    modifies m.points
    ensures m.Valid() && m.DryAbove(level)
    ensures forall i: nat, j: nat | i < m.sizeX && j < m.sizeY ::
              m.points[i, j] == Scaled(Scaled(old(m.points[i, j]), if Pos(i, j) == n then NEAR else 1.0),
                                       if Pos(i, j) in m.Nbrs(q) then SPLASH else 1.0)
  {
    m.ScaleWater(n, NEAR);
    label Mid:
    Splash(m, q, level);
    forall i: nat, j: nat | i < m.sizeX && j < m.sizeY
      ensures Scaled(old(m.points[i, j]), if Pos(i, j) == n then NEAR else 1.0) == old@Mid(m.points[i, j])
    {
      assert old(m.points[i, j]).water * 1.0 == old(m.points[i, j]).water;
    }
  }

  /** The innermost forNeighbors of RocketSystem::receive: every
      neighbour keeps 12/13 of its water. */
  method Splash(m: Map, q: Pos, ghost level: nat)
    requires m.Valid() && m.InMap(q) && m.DryAbove(level)
    modifies m.points
    ensures m.Valid() && m.DryAbove(level)
    ensures forall i: nat, j: nat | i < m.sizeX && j < m.sizeY ::
              m.points[i, j] == Scaled(old(m.points[i, j]), if Pos(i, j) in m.Nbrs(q) then SPLASH else 1.0)
  {
    var todo := m.Nbrs(q);
    ghost var ns := todo;
    ghost var done: set<Pos> := {};
    while todo != {}
      invariant todo + done == ns && todo !! done
      invariant m.Valid() && m.DryAbove(level)
      invariant forall i: nat, j: nat | i < m.sizeX && j < m.sizeY ::
                  m.points[i, j] == Scaled(old(m.points[i, j]), if Pos(i, j) in done then SPLASH else 1.0)
      decreases todo
    {
      var n :| n in todo;
      m.ScaleWater(n, SPLASH);
      todo := todo - {n};
      done := done + {n};
    }
  }

  // ---- FlyingObjectSystem ----

  /** The grid after a rocket lands on `q`: every point as RocketLanded
      leaves it. */
  ghost predicate Struck(m: Map, q: Pos, before: imap<Pos, GridPoint>)
    reads m, m.points
    requires m.Sized()
  {
    forall i: nat, j: nat | i < m.sizeX && j < m.sizeY ::
      Pos(i, j) in before &&
      m.points[i, j] == if Pos(i, j) == q then HitPoint(before[Pos(i, j)])
                        else if Pos(i, j) in m.Nbrs(q) then NearPoint(before[Pos(i, j)], |m.Nbrs(q)|)
                        else before[Pos(i, j)]
  }

  /** The ground after a rocket lands on `q`, on values: a crater on `q`
      and on each neighbour with their water divided down as RocketLanded
      does, and `q` and its neighbours growing. */
  ghost function StruckGround(m: Map, g: Ground, q: Pos): Ground
  {
    var ns := m.Nbrs(q);
    Ground(imap c | c in g.cells :: if c == q then HitPoint(g.cells[c])
                                    else if c in ns then NearPoint(g.cells[c], |ns|)
                                    else g.cells[c],
           g.growing + {q} + ns)
  }

  /** One point of StruckGround. */
  lemma StruckAt(m: Map, g: Ground, q: Pos, c: Pos)
    requires c in g.cells
    ensures c in StruckGround(m, g, q).cells
    ensures StruckGround(m, g, q).cells[c] == if c == q then HitPoint(g.cells[c])
                                             else if c in m.Nbrs(q) then NearPoint(g.cells[c], |m.Nbrs(q)|)
                                             else g.cells[c]
  {
  }

  /** A grid Struck at `q`, whose growing set gained `q` and its
      neighbours, is StruckGround of the ground before. */
  lemma StruckBridge(m: Map, g0: Ground, q: Pos)
    requires m.Sized() && (forall c :: c in g0.cells <==> m.InMap(c))
    requires Struck(m, q, g0.cells) && m.growingPoints == g0.growing + {q} + m.Nbrs(q)
    ensures m.Snapshot() == StruckGround(m, g0, q)
  {
    var r := StruckGround(m, g0, q);
    forall i: nat, j: nat | i < m.sizeX && j < m.sizeY
      ensures Pos(i, j) in r.cells && m.points[i, j] == r.cells[Pos(i, j)]
    {
      StruckAt(m, g0, q, Pos(i, j));
    }
    assert forall c :: c in r.cells <==> m.InMap(c);
    m.CellsAre(r.cells);
  }

  /** The flying object `id` of `a` lands at `to`, leaving `b`
      (FlyingObjectLanded and its receivers, then the destruction): a
      resource goes to the owner of the store on the point under it, a
      block is delivered to its target, a rocket strikes the point under
      it; the object is gone, and nothing else changes. */
  ghost predicate Landed(m: Map, table: TypeTable, a: World, id: EntityId, to: FVec3, b: World)
    requires id in a.entities && a.entities[id].body.FlyingBody?
  {
    match a.entities[id].body.cargo
    case ResourceCargo(resource, amount) =>
      to.x >= 0.0 && to.y >= 0.0 &&
      var c := CellOf(to);
      var r := if m.InMap(c) && c in a.ground.cells then StoreOwnerAt(a.entities, a.ground.cells[c].entity) else None;
      b.entities == Without(a.entities, {id}) && b.counter == a.counter && b.ground == a.ground &&
      b.time == a.time && b.waterLevel == a.waterLevel &&
      (r.None? ==> b.players == a.players) &&
      (r.Some? ==> r.value in a.players && |a.players[r.value].resources| == RESOURCE_MAX &&
                   b.players == a.players[r.value := GiveResources(a.players[r.value], resource, amount)])
    case BlockCargo(target, blk) =>
      b == a.(entities := Without(Delivered(a.entities, table, target, blk), {id}))
    case RocketCargo =>
      to.x >= 0.0 && to.y >= 0.0 &&
      b == a.(entities := Without(a.entities, {id}), ground := StruckGround(m, a.ground, CellOf(to)))
  }

  /** FlyingObjectSystem::tick's visit to the id `id` from `a`, leaving
      `b`: anything but a flying object is skipped, as is one whose
      progress is already past 1; otherwise the flight advances by `dt`
      and, once past 1, the object lands (Landed). */
  ghost predicate FlyVisit(m: Map, table: TypeTable, dt: real, a: World, id: EntityId, b: World)
  {
    if id !in a.entities || !a.entities[id].body.FlyingBody? then b == a
    else
      var e := a.entities[id];
      e.body.flight.distance > 0.0 &&
      if e.body.flight.progress > 1.0 then b == a
      else
        var f := Advance(e.body.flight, dt);
        if f.progress <= 1.0 then b == a.(entities := a.entities[id := e.(body := e.body.(flight := f))])
        else Landed(m, table, a, id, f.to, b)
  }

  /** FlyingObjectSystem::tick as the states between its visits: the visit
      to id `i + 1` takes `trace[i]` to `trace[i + 1]` (FlyVisit). */
  ghost predicate FlyTrace(m: Map, table: TypeTable, dt: real, trace: seq<World>)
  {
    forall i | 0 <= i < |trace| - 1 :: FlyVisit(m, table, dt, trace[i], i + 1, trace[i + 1])
  }

  /** One more visit on a flying trace. */
  lemma FlyTraceSnoc(m: Map, table: TypeTable, dt: real, trace: seq<World>, w: World)
    requires FlyTrace(m, table, dt, trace) && |trace| > 0
    requires FlyVisit(m, table, dt, trace[|trace| - 1], |trace|, w)
    ensures FlyTrace(m, table, dt, trace + [w])
  {
    var t := trace + [w];
    forall i | 0 <= i < |t| - 1
      ensures FlyVisit(m, table, dt, t[i], i + 1, t[i + 1])
    {
      if i < |trace| - 1 {
        assert t[i] == trace[i] && t[i + 1] == trace[i + 1];
      }
    }
  }

  /** What visiting the flying object `id` may do to the other entities:
      none appears or disappears, none changes kind, no other flying object
      changes, and no miner gains stock. */
  ghost predicate FlyingFrame(before: map<EntityId, Entity>, after: map<EntityId, Entity>, id: EntityId)
  {
    (forall k | k != id :: k in after <==> k in before) &&
    (forall k | k in after :: k in before && (after[k].body.FlyingBody? <==> before[k].body.FlyingBody?)) &&
    (forall k | k != id && k in before && before[k].body.FlyingBody? :: after[k] == before[k]) &&
    MinersKept(before, after)
  }

  /** A flight replaced stays within FlyingFrame. */
  lemma FlewFrame(before: map<EntityId, Entity>, id: EntityId, f: Flight)
    requires id in before && before[id].body.FlyingBody?
    ensures FlyingFrame(before, before[id := before[id].(body := before[id].body.(flight := f))], id)
  {
  }

  /** Removing the landed object, after its block was delivered, stays
      within FlyingFrame. */
  lemma LandedFrame(before: map<EntityId, Entity>, table: TypeTable, id: EntityId, target: EntityId, blk: Block)
    requires id in before && before[id].body.FlyingBody?
    ensures FlyingFrame(before, Without(before, {id}), id)
    ensures FlyingFrame(before, Without(Delivered(before, table, target, blk), {id}), id)
  {
  }

  /** A landed resource goes to the owner of the store under it, then the
      object is destroyed. */
  method LandResource(s: SimState, id: EntityId, to: FVec3, resource: ResourceType, amount: nat)
    requires s.Valid() && id in s.entities && s.entities[id].body.FlyingBody? && to.x >= 0.0 && to.y >= 0.0
    modifies s
    ensures s.Valid()
    ensures s.entityCounter == old(s.entityCounter) && s.time == old(s.time) && s.waterLevel == old(s.waterLevel)
    ensures FlyingFrame(old(s.entities), s.entities, id)
    ensures var c := CellOf(to);
            var r := if s.grid.InMap(c) then StoreOwnerAt(old(s.entities), s.grid.points[c.x, c.y].entity) else None;
            s.entities == Without(old(s.entities), {id}) &&
            s.players == (if r.Some? then old(s.players)[r.value := GiveResources(old(s.players)[r.value], resource, amount)]
                          else old(s.players))
  {
    LandedFrame(s.entities, s.table, id, id, Block(Iron, Vec3(0, 0, 0)));
    var _ := ResourceLanded(s, to, resource, amount);
    s.Destroy({id});
  }

  /** A landed block is delivered to its target, then the object is destroyed. */
  method LandBlock(s: SimState, id: EntityId, target: EntityId, blk: Block)
    requires s.Valid() && id in s.entities && s.entities[id].body.FlyingBody?
    requires BuildingRef(s.entities, s.entityCounter, target)
    modifies s
    ensures s.Valid()
    ensures s.entityCounter == old(s.entityCounter) && s.time == old(s.time) && s.waterLevel == old(s.waterLevel)
    ensures FlyingFrame(old(s.entities), s.entities, id)
    ensures s.entities == Without(Delivered(old(s.entities), s.table, target, blk), {id}) && s.players == old(s.players)
  {
    LandedFrame(s.entities, s.table, id, target, blk);
    var _, _ := BlockLanded(s, target, blk);
    s.Destroy({id});
  }

  /** A landed rocket strikes the cell it aimed at and the object is destroyed
      (the two touch disjoint state, so their order does not matter). */
  method LandRocket(s: SimState, id: EntityId, q: Pos, ghost w0: World)
    requires s.Valid() && id in s.entities && s.entities[id].body.FlyingBody? && s.grid.InMap(q) && w0 == s.Now()
    modifies s, s.grid, s.grid.points
    ensures s.Valid()
    ensures s.entityCounter == old(s.entityCounter) && s.time == old(s.time) && s.waterLevel == old(s.waterLevel)
    ensures FlyingFrame(old(s.entities), s.entities, id)
    ensures s.entities == Without(old(s.entities), {id}) && s.players == old(s.players)
    ensures Struck(s.grid, q, old(s.grid.Cells()))
    ensures s.grid.Snapshot() == StruckGround(s.grid, w0.ground, q)
  {
    LandedFrame(s.entities, s.table, id, id, Block(Iron, Vec3(0, 0, 0)));
    s.Destroy({id});
    Strike(s.grid, q, w0.ground, s.waterLevel);
  }

  /** RocketLanded on the grid whose snapshot is `g0`, on values: the grid
      is then StruckGround of `g0`. */
  method Strike(m: Map, q: Pos, ghost g0: Ground, ghost level: nat)
    requires m.Valid() && m.InMap(q) && m.DryAbove(level) && g0 == m.Snapshot()
    modifies m, m.points
    ensures m.Valid() && m.maxHeight == old(m.maxHeight) && m.DryAbove(level)
    ensures Struck(m, q, old(m.Cells()))
    ensures m.Snapshot() == StruckGround(m, g0, q)
  {
    m.SnapshotAt(g0);
    RocketLanded(m, q, level);
    assert Struck(m, q, g0.cells);
    StruckBridge(m, g0, q);
  }

  /** The receivers of FlyingObjectLanded for the flying object `id`,
      whose flight `f` has carried it past 1, then its destruction. */
  method Land(s: SimState, id: EntityId, f: Flight, ghost w0: World)
    requires s.Valid() && id in s.entities && s.entities[id].body.FlyingBody? && f.to == s.entities[id].body.flight.to
    requires w0 == s.Now()
    modifies s, s.grid, s.grid.points
    ensures s.Valid()
    ensures s.entityCounter == old(s.entityCounter) && s.time == old(s.time) && s.waterLevel == old(s.waterLevel)
    ensures FlyingFrame(old(s.entities), s.entities, id) && id !in s.entities
    ensures var cargo := old(s.entities)[id].body.cargo;
            (cargo.ResourceCargo? ==>
               var c := CellOf(f.to);
               var r := if s.grid.InMap(c) then StoreOwnerAt(old(s.entities), old(s.grid.points[c.x, c.y].entity)) else None;
               s.entities == Without(old(s.entities), {id}) && unchanged(s.grid, s.grid.points) &&
               s.players == (if r.Some? then old(s.players)[r.value := GiveResources(old(s.players)[r.value], cargo.resource, cargo.amount)]
                             else old(s.players))) &&
            (cargo.BlockCargo? ==>
               s.entities == Without(Delivered(old(s.entities), s.table, cargo.target, cargo.block), {id}) &&
               s.players == old(s.players) && unchanged(s.grid, s.grid.points)) &&
            (cargo.RocketCargo? ==>
               s.entities == Without(old(s.entities), {id}) && s.players == old(s.players) &&
               Struck(s.grid, CellOf(f.to), old(s.grid.Cells())))
    ensures Landed(s.grid, s.table, w0, id, f.to, s.Now())
  {
    s.grid.SnapshotAt(w0.ground);
    match s.entities[id].body.cargo {
      case ResourceCargo(resource, amount) =>
        LandResource(s, id, f.to, resource, amount);
        assert s.Now() == w0.(entities := s.entities, players := s.players);
      case BlockCargo(target, blk) =>
        LandBlock(s, id, target, blk);
        assert s.Now() == w0.(entities := s.entities);
      case RocketCargo =>
        LandRocket(s, id, CellOf(f.to), w0);
        assert s.Now() == w0.(entities := s.entities, ground := s.grid.Snapshot());
    }
  }

  /** FlyingObjectSystem::tick for the flying object `id`. Its flight
      advances; if that carries it past 1 it lands (Land): the receiver for
      its cargo runs and the object is destroyed. */
  method FlyingStep(s: SimState, id: EntityId, ghost w0: World) returns (landed: bool)
    requires s.Valid() && id in s.entities && s.entities[id].body.FlyingBody? && w0 == s.Now()
    modifies s, s.grid, s.grid.points
    ensures s.Valid()
    ensures s.entityCounter == old(s.entityCounter) && s.time == old(s.time) && s.waterLevel == old(s.waterLevel)
    ensures FlyingFrame(old(s.entities), s.entities, id)
    ensures var e := old(s.entities)[id];
            var f := Advance(e.body.flight, s.TickLength());
            (landed <==> f.progress > 1.0) && (id in s.entities <==> !landed) &&
            (!landed ==> s.entities == old(s.entities)[id := e.(body := e.body.(flight := f))] &&
                         s.players == old(s.players) && unchanged(s.grid, s.grid.points))
    ensures FlyVisit(s.grid, s.table, s.TickLength(), w0, id, s.Now())
  {
    var e := s.entities[id];
    var f := e.body.flight;
    landed := false;
    if f.progress <= 1.0 {
      f := Advance(f, s.TickLength());
      if f.progress > 1.0 {
        landed := true;
        Land(s, id, f, w0);
      } else {
        FlewFrame(s.entities, id, f);
        SetFlight(s, id, f);
        assert s.grid.Snapshot() == w0.ground;
      }
    }
  }

  /** The visit of FlyingObjectSystem::tick to the id `id`: a flying
      object advances or lands (FlyingStep); anything else is skipped. */
  method VisitFlying(s: SimState, id: EntityId, ghost w0: World) returns (flying: bool)
    requires s.Valid() && w0 == s.Now()
    modifies s, s.grid, s.grid.points
    ensures s.Valid()
    ensures s.entityCounter == old(s.entityCounter) && s.time == old(s.time) && s.waterLevel == old(s.waterLevel)
    ensures FlyVisit(s.grid, s.table, s.TickLength(), w0, id, s.Now())
    ensures flying <==> id in old(s.entities) && old(s.entities)[id].body.FlyingBody?
    ensures flying ==> FlyingFrame(old(s.entities), s.entities, id) && FlewOn(old(s.entities), s.entities, id, s.TickLength())
    ensures !flying ==> s.entities == old(s.entities)
  {
    flying := id in s.entities && s.entities[id].body.FlyingBody?;
    if flying {
      var _ := FlyingStep(s, id, w0);
    }
  }

  /** A flying object's flight replaced by one still under way. */
  method SetFlight(s: SimState, id: EntityId, f: Flight)
    requires s.Valid() && id in s.entities && s.entities[id].body.FlyingBody?
    requires f.distance > 0.0 && 0.0 <= f.progress <= 1.0 && f.to == s.entities[id].body.flight.to
    modifies s
    ensures s.Valid()
    ensures s.players == old(s.players) && s.time == old(s.time) && s.waterLevel == old(s.waterLevel)
    ensures s.entityCounter == old(s.entityCounter)
    ensures s.entities == old(s.entities)[id := old(s.entities)[id].(body := old(s.entities)[id].body.(flight := f))]
  {
    var e := s.entities[id];
    var e' := e.(body := e.body.(flight := f));
    StoreReplace(s.players.Keys, s.entities, s.entityCounter, s.grid.sizeX, s.grid.sizeY, id, e');
    s.entities := s.entities[id := e'];
  }

  /** Where the flying object `k` of `before` stands once the system has
      visited it: still flying with its flight advanced, or landed and
      gone. */
  ghost predicate FlewOn(before: map<EntityId, Entity>, after: map<EntityId, Entity>, k: EntityId, dt: real)
    requires k in before && before[k].body.FlyingBody? && before[k].body.flight.distance > 0.0
  {
    var e := before[k];
    var f := Advance(e.body.flight, dt);
    (k in after <==> f.progress <= 1.0) &&
    (k in after ==> after[k] == e.(body := e.body.(flight := f)))
  }

  /** What FlyingObjectSystem::tick does to the roster `a`, leaving `b`:
      no id is drawn, every flying object advances or has landed and is
      gone, nothing else is removed or added, and no miner gains stock. */
  ghost predicate Flown(a: Roster, b: Roster, dt: real)
  {
    b.counter == a.counter && MinersKept(a.entities, b.entities) &&
    (forall k | k in a.entities && !a.entities[k].body.FlyingBody? :: k in b.entities) &&
    (forall k | k in b.entities :: k in a.entities) &&
    (forall k | k in a.entities && a.entities[k].body.FlyingBody? ::
       a.entities[k].body.flight.distance > 0.0 && FlewOn(a.entities, b.entities, k, dt))
  }

  /** The store `cur` once FlyingObjectSystem::tick has visited the ids
      below `next` of `before`: the visited flying objects advanced or
      landed, the others are as they were, nothing else was removed or
      added, and no miner gained stock. */
  ghost predicate FlyingSoFar(before: map<EntityId, Entity>, cur: map<EntityId, Entity>, next: nat, dt: real)
  {
    MinersKept(before, cur) &&
    (forall k | k in before && !before[k].body.FlyingBody? :: k in cur) &&
    (forall k | k in cur :: k in before && (cur[k].body.FlyingBody? <==> before[k].body.FlyingBody?)) &&
    (forall k | k in before && before[k].body.FlyingBody? :: before[k].body.flight.distance > 0.0) &&
    (forall k | k in before && before[k].body.FlyingBody? && k >= next :: k in cur && cur[k] == before[k]) &&
    (forall k | k in before && before[k].body.FlyingBody? && k < next :: FlewOn(before, cur, k, dt))
  }

  /** One more visit keeps FlyingSoFar: the visited object, if flying,
      advanced or landed within FlyingFrame; otherwise nothing changed. */
  lemma FlyingSoFarStep(before: map<EntityId, Entity>, mid: map<EntityId, Entity>, after: map<EntityId, Entity>, id: nat, dt: real)
    requires FlyingSoFar(before, mid, id, dt)
    requires id in mid && mid[id].body.FlyingBody? ==> FlyingFrame(mid, after, id) && FlewOn(mid, after, id, dt)
    requires !(id in mid && mid[id].body.FlyingBody?) ==> after == mid
    ensures FlyingSoFar(before, after, id + 1, dt)
  {
    if id in mid && mid[id].body.FlyingBody? {
      MinersKeptTrans(before, mid, after);
    }
  }

  /** FlyingObjectSystem::tick: every flying object, in id order, advances
      or lands; landed objects are gone, nothing else is removed, and no
      miner gains stock. */
  method FlyingSystem(s: SimState) returns (ghost trace: seq<World>)
    requires s.Valid()
    modifies s, s.grid, s.grid.points
    ensures s.Valid()
    ensures Flown(Roster(old(s.entities), old(s.entityCounter)), Roster(s.entities, s.entityCounter), s.TickLength())
    ensures s.entityCounter == old(s.entityCounter) && s.time == old(s.time) && s.waterLevel == old(s.waterLevel)
    ensures MinersKept(old(s.entities), s.entities)
    ensures forall k | k in old(s.entities) && !old(s.entities)[k].body.FlyingBody? :: k in s.entities
    ensures forall k | k in s.entities :: k in old(s.entities)
    ensures forall k | k in old(s.entities) && old(s.entities)[k].body.FlyingBody? ::
              old(s.entities)[k].body.flight.distance > 0.0 && FlewOn(old(s.entities), s.entities, k, s.TickLength())
    ensures |trace| == old(s.entityCounter) + 1 && trace[0] == old(s.Now()) && trace[|trace| - 1] == s.Now()
    ensures FlyTrace(s.grid, s.table, s.TickLength(), trace)
  {
    ghost var before := s.entities;
    trace := [s.Now()];
    assert FlyingSoFar(before, s.entities, 1, s.TickLength());
    var last := s.entityCounter;
    var id := 1;
    while id <= last
      invariant s.Valid()
      invariant s.entityCounter == old(s.entityCounter) && s.time == old(s.time) && s.waterLevel == old(s.waterLevel)
      invariant FlyingSoFar(before, s.entities, id, s.TickLength())
      invariant 1 <= id <= last + 1 && |trace| == id && trace[0] == old(s.Now()) && trace[id - 1] == s.Now()
      invariant FlyTrace(s.grid, s.table, s.TickLength(), trace)
    {
      ghost var mid := s.entities;
      var flying := VisitFlying(s, id, s.Now());
      FlyingSoFarStep(before, mid, s.entities, id, s.TickLength());
      FlyTraceSnoc(s.grid, s.table, s.TickLength(), trace, s.Now());
      trace := trace + [s.Now()];
      id := id + 1;
    }
  }

  // ---- main buildings ----

  /** MainBuilding::getBuildSpeed: seconds between two launches. */
  const BUILD_SPEED: real := 1.0

  /** Building::isBlockNeeded() without an argument: some block of the
      type is still needed. */
  ghost predicate SomeNeeded(b: Building, info: BuildingTypeInfo, store: map<EntityId, Entity>)
  {
    exists k | 0 <= k < |info.blocks| :: Needed(b, info, store, info.blocks[k])
  }

  /** `blk` is what Building::nextNeededBlock returns: the first needed
      block in the type's order. */
  ghost predicate FirstNeeded(b: Building, info: BuildingTypeInfo, store: map<EntityId, Entity>, blk: Block)
  {
    exists k | 0 <= k < |info.blocks| ::
      info.blocks[k] == blk && Needed(b, info, store, blk) &&
      forall j | 0 <= j < k :: !Needed(b, info, store, info.blocks[j])
  }

  /** The head of a build queue is dropped: its entity is gone, or it is
      finished, or it needs no more blocks. */
  ghost predicate Stale(store: map<EntityId, Entity>, table: TypeTable, head: EntityId)
  {
    !IsBuilding(store, head) || store[head].body.building.finished ||
    !SomeNeeded(store[head].body.building, table.Info(store[head].body.building.btype), store)
  }

  /** The store after the main building `id` launched `blk` as the flying
      object `f` to the head of its queue: the launch time is now, `f`
      flies from the main's top to the block's place, and the head lists
      `f` as incoming. */
  ghost function Dispatched(before: map<EntityId, Entity>, id: EntityId, head: EntityId, now: real, f: EntityId, blk: Block): map<EntityId, Entity>
    requires IsBuilding(before, id) && before[id].body.role.MainRole? && IsBuilding(before, head)
    requires ManhattanDistance(Top(before[id].body.building), BlockTarget(before[head].body.building, blk)) > 0.0
  {
    var e := before[id];
    var hb := before[head].body.building;
    before[id := WithRole(e, e.body.role.(timeLastLaunch := now))]
          [f := Entity(e.owner, FlyingBody(NewFlight(Top(e.body.building), BlockTarget(hb, blk)), BlockCargo(head, blk)))]
          [head := WithBuilding(before[head], hb.(incoming := hb.incoming + [f]))]
  }

  /** A launch changes no miner's stock: the main is no miner, the new
      object flies, and the head changes only its building. */
  lemma DispatchedKeepsMiners(before: map<EntityId, Entity>, id: EntityId, head: EntityId, now: real, f: EntityId, blk: Block)
    requires IsBuilding(before, id) && before[id].body.role.MainRole? && IsBuilding(before, head) && f !in before
    requires ManhattanDistance(Top(before[id].body.building), BlockTarget(before[head].body.building, blk)) > 0.0
    ensures MinersKept(before, Dispatched(before, id, head, now, f, blk))
  {
  }

  /** The first half of LaunchBlock: the main records the launch time and
      the first needed block of the head sets off towards it. */
  method StartLaunch(s: SimState, id: EntityId, head: EntityId) returns (f: EntityId, blk: Block)
    requires s.Valid() && IsBuilding(s.entities, id) && s.entities[id].body.role.MainRole?
    requires s.entities[id].body.building.finished
    requires IsBuilding(s.entities, head) && !s.entities[head].body.building.finished
    requires SomeNeeded(s.entities[head].body.building, s.table.Info(s.entities[head].body.building.btype), s.entities)
    modifies s
    ensures s.Valid()
    ensures s.players == old(s.players) && s.time == old(s.time) && s.waterLevel == old(s.waterLevel)
    ensures f == old(s.entityCounter) + 1 && s.entityCounter == f && f !in old(s.entities)
    ensures var e := old(s.entities)[id];
            var hb := old(s.entities)[head].body.building;
            FirstNeeded(hb, s.table.Info(hb.btype), old(s.entities), blk) &&
            ManhattanDistance(Top(e.body.building), BlockTarget(hb, blk)) > 0.0 &&
            s.entities == old(s.entities)[id := WithRole(e, e.body.role.(timeLastLaunch := s.time))]
                            [f := Entity(e.owner, FlyingBody(NewFlight(Top(e.body.building), BlockTarget(hb, blk)), BlockCargo(head, blk)))]
  {
    var e := s.entities[id];
    var hb := s.entities[head].body.building;
    ghost var k;
    blk, k := NextNeededBlock(hb, s.table.Info(hb.btype), s.entities);
    SetRole(s, id, e.body.role.(timeLastLaunch := s.time));
    HalfOffsetDistance(Top(e.body.building), BlockTarget(hb, blk), e.body.building.at.x + 2, hb.at.x + blk.pos.x);
    f := s.AddFlyingBlock(id, head, blk);
  }

  /** MainBuildingSystem::tick for a finished main building `id` whose
      queue head `head` still needs blocks, once a build-speed interval has
      passed: the first needed block is launched and registered as
      incoming, so it is no longer needed. */
  method LaunchBlock(s: SimState, id: EntityId, head: EntityId) returns (f: EntityId, blk: Block)
    requires s.Valid() && IsBuilding(s.entities, id) && s.entities[id].body.role.MainRole?
    requires s.entities[id].body.building.finished
    requires IsBuilding(s.entities, head) && !s.entities[head].body.building.finished
    requires SomeNeeded(s.entities[head].body.building, s.table.Info(s.entities[head].body.building.btype), s.entities)
    modifies s
    ensures s.Valid()
    ensures s.players == old(s.players) && s.time == old(s.time) && s.waterLevel == old(s.waterLevel)
    ensures f == old(s.entityCounter) + 1 && s.entityCounter == f && f !in old(s.entities)
    ensures var hb := old(s.entities)[head].body.building;
            var info := s.table.Info(hb.btype);
            FirstNeeded(hb, info, old(s.entities), blk) &&
            ManhattanDistance(Top(old(s.entities)[id].body.building), BlockTarget(hb, blk)) > 0.0 &&
            s.entities == Dispatched(old(s.entities), id, head, s.time, f, blk) &&
            !Needed(s.entities[head].body.building, info, s.entities, blk)
    ensures MinersKept(old(s.entities), s.entities)
  {
    var hb := s.entities[head].body.building;
    var info := s.table.Info(hb.btype);
    f, blk := StartLaunch(s, id, head);
    SetBuilding(s, head, hb.(incoming := hb.incoming + [f]));
    IncomingNotNeeded(hb, info, s.entities, f, blk);
    DispatchedKeepsMiners(old(s.entities), id, head, s.time, f, blk);
  }

  /** MainBuilding::removeFromQueue of the head of the queue of the main
      building `id`. */
  method DropHead(s: SimState, id: EntityId)
    requires s.Valid() && IsBuilding(s.entities, id) && s.entities[id].body.role.MainRole?
    requires |s.entities[id].body.role.queue| > 0
    modifies s
    ensures s.Valid()
    ensures s.players == old(s.players) && s.time == old(s.time) && s.waterLevel == old(s.waterLevel)
    ensures s.entityCounter == old(s.entityCounter) && MinersKept(old(s.entities), s.entities)
    ensures var e := old(s.entities)[id];
            var q := e.body.role.queue;
            s.entities == old(s.entities)[id := WithRole(e, e.body.role.(queue := RemoveFirst(q, q[0])))]
  {
    var role := s.entities[id].body.role;
    RemoveHead(role.queue);
    SetRole(s, id, role.(queue := RemoveFirst(role.queue, role.queue[0])));
  }

  /** MainBuildingSystem::tick for the main building `id`. An unfinished
      main or an empty queue is skipped; a stale head is removed from the
      queue and nothing else happens; otherwise, once `BUILD_SPEED` seconds
      have passed since the last launch, one block is launched to the head. */
  method MainStep(s: SimState, id: EntityId) returns (flying: Option<EntityId>, blk: Block)
    requires s.Valid() && IsBuilding(s.entities, id) && s.entities[id].body.role.MainRole?
    modifies s
    ensures s.Valid()
    ensures s.players == old(s.players) && s.time == old(s.time) && s.waterLevel == old(s.waterLevel)
    ensures MinersKept(old(s.entities), s.entities)
    ensures var e := old(s.entities)[id];
            !e.body.building.finished || |e.body.role.queue| == 0 ==>
              flying.None? && s.entities == old(s.entities) && s.entityCounter == old(s.entityCounter)
    ensures var e := old(s.entities)[id];
            e.body.building.finished && |e.body.role.queue| > 0 ==>
              Served(old(s.entities), s.entities, s.table, s.time, old(s.entityCounter), s.entityCounter, id, flying, blk)
  {
    flying, blk := None, Block(Iron, Vec3(0, 0, 0));
    var e := s.entities[id];
    if !e.body.building.finished || |e.body.role.queue| == 0 {
      return;
    }
    flying, blk := ServeHead(s, id);
  }

  /** What serving the head of a finished main building's queue does: a
      stale head is removed from the queue; otherwise, if `BUILD_SPEED`
      seconds have passed since the last launch, the first needed block
      of the head is dispatched to it as the new flying object `flying`,
      and is no longer needed; otherwise nothing changes. */
  ghost predicate Served(before: map<EntityId, Entity>, after: map<EntityId, Entity>, table: TypeTable, now: real,
                         c0: nat, c1: nat, id: EntityId, flying: Option<EntityId>, blk: Block)
    requires IsBuilding(before, id) && before[id].body.role.MainRole? && |before[id].body.role.queue| > 0
  {
    var e := before[id];
    var q := e.body.role.queue;
    (Stale(before, table, q[0]) ==>
       flying.None? && c1 == c0 && after == before[id := WithRole(e, e.body.role.(queue := RemoveFirst(q, q[0])))]) &&
    (!Stale(before, table, q[0]) && now - e.body.role.timeLastLaunch < BUILD_SPEED ==>
       flying.None? && after == before && c1 == c0) &&
    (!Stale(before, table, q[0]) && now - e.body.role.timeLastLaunch >= BUILD_SPEED ==>
       var hb := before[q[0]].body.building;
       var info := table.Info(hb.btype);
       flying == Some(c0 + 1) && c1 == c0 + 1 &&
       FirstNeeded(hb, info, before, blk) &&
       ManhattanDistance(Top(e.body.building), BlockTarget(hb, blk)) > 0.0 &&
       after == Dispatched(before, id, q[0], now, c0 + 1, blk) &&
       q[0] in after && after[q[0]].body.BuildingBody? &&
       !Needed(after[q[0]].body.building, info, after, blk))
  }

  /** Building::isFinished and Building::isBlockNeeded() of a queue head. */
  method HeadStale(s: SimState, head: EntityId) returns (drop: bool)
    requires s.Valid()
    ensures drop <==> Stale(s.entities, s.table, head)
  {
    drop := true;
    if IsBuilding(s.entities, head) && !s.entities[head].body.building.finished {
      var hb := s.entities[head].body.building;
      var any := AnyBlockNeeded(hb, s.table.Info(hb.btype), s.entities);
      drop := !any;
    }
  }

  /** The body of MainBuildingSystem::tick for a finished main building
      with a non-empty queue. */
  method ServeHead(s: SimState, id: EntityId) returns (flying: Option<EntityId>, blk: Block)
    requires s.Valid() && IsBuilding(s.entities, id) && s.entities[id].body.role.MainRole?
    requires s.entities[id].body.building.finished && |s.entities[id].body.role.queue| > 0
    modifies s
    ensures s.Valid()
    ensures s.players == old(s.players) && s.time == old(s.time) && s.waterLevel == old(s.waterLevel)
    ensures MinersKept(old(s.entities), s.entities)
    ensures Served(old(s.entities), s.entities, s.table, s.time, old(s.entityCounter), s.entityCounter, id, flying, blk)
  {
    flying, blk := None, Block(Iron, Vec3(0, 0, 0));
    var role := s.entities[id].body.role;
    var head := role.queue[0];
    var drop := HeadStale(s, head);
    if drop {
      DropHead(s, id);
    } else if s.time - role.timeLastLaunch >= BUILD_SPEED {
      var f;
      f, blk := LaunchBlock(s, id, head);
      flying := Some(f);
    }
  }

  /** The visit of MainBuildingSystem::tick to the id `id` of the roster
      `a` at time `now`, leaving `b`: anything but a main building is
      skipped, and so is an unfinished one or one with an empty queue;
      otherwise the head of the queue is served (Served). */
  ghost predicate MainVisit(table: TypeTable, now: real, a: Roster, id: EntityId, b: Roster)
  {
    if !(IsBuilding(a.entities, id) && a.entities[id].body.role.MainRole?) then b == a
    else
      var e := a.entities[id];
      if !e.body.building.finished || |e.body.role.queue| == 0 then b == a
      else exists flying: Option<EntityId>, blk: Block :: Served(a.entities, b.entities, table, now, a.counter, b.counter, id, flying, blk)
  }

  /** One visit of the main-building system in the order of ids: MainVisit
      from `trace[i]` to `trace[i + 1]` is the visit to id `i + 1`. */
  ghost predicate MainTrace(table: TypeTable, now: real, trace: seq<Roster>)
  {
    forall i | 0 <= i < |trace| - 1 :: MainVisit(table, now, trace[i], i + 1, trace[i + 1])
  }

  /** MainBuildingSystem::tick: the ids 1 to the counter at the start, in
      increasing order, each visited as MainVisit says (`trace` holds the
      roster before the first visit and after each one). Only main
      buildings, new flying blocks and the incoming lists of buildings
      under construction change. */
  method MainSystem(s: SimState) returns (ghost trace: seq<Roster>)
    requires s.Valid()
    modifies s
    ensures s.Valid()
    ensures s.players == old(s.players) && s.time == old(s.time) && s.waterLevel == old(s.waterLevel)
    ensures MinersKept(old(s.entities), s.entities)
    ensures s.entityCounter >= old(s.entityCounter)
    ensures forall k | k in old(s.entities) :: k in s.entities
    ensures |trace| == old(s.entityCounter) + 1 && trace[0] == Roster(old(s.entities), old(s.entityCounter))
    ensures trace[|trace| - 1] == Roster(s.entities, s.entityCounter)
    ensures MainTrace(s.table, s.time, trace)
  {
    ghost var before := s.entities;
    var last := s.entityCounter;
    trace := [Roster(s.entities, s.entityCounter)];
    var id := 1;
    while id <= last
      invariant 1 <= id <= last + 1 && |trace| == id
      invariant s.Valid()
      invariant s.players == old(s.players) && s.time == old(s.time) && s.waterLevel == old(s.waterLevel)
      invariant MinersKept(before, s.entities) && s.entityCounter >= old(s.entityCounter)
      invariant forall k | k in before :: k in s.entities
      invariant trace[0] == Roster(old(s.entities), old(s.entityCounter)) && trace[id - 1] == Roster(s.entities, s.entityCounter)
      invariant MainTrace(s.table, s.time, trace)
    {
      if IsBuilding(s.entities, id) && s.entities[id].body.role.MainRole? {
        ghost var mid := s.entities;
        var flying, blk := MainStep(s, id);
        MinersKeptTrans(before, mid, s.entities);
        ghost var e := mid[id];
        if e.body.building.finished && |e.body.role.queue| > 0 {
          assert Served(trace[id - 1].entities, s.entities, s.table, s.time, trace[id - 1].counter, s.entityCounter, id, flying, blk);
        }
      }
      trace := trace + [Roster(s.entities, s.entityCounter)];
      id := id + 1;
    }
  }
}
