// Sim of game/Sim.cc: a SimState and the systems, advanced one tick at a
// time by Sim::runTick. The inputs the source draws from elsewhere (the
// noise heights, rand(), the building type table, GridPoint::usable) are
// passed in as Inputs.
module Simulation {
  import opened Common
  import opened Defs
  import opened Settings
  import opened Orders
  import opened TerrainRules
  import opened Grid
  import opened Components
  import opened SimStates
  import opened Systems

  /** What the Sim constructor takes besides the settings: the building
      type table, GridPoint::usable, the neighbourhood of forNeighbors, the
      noise heights of Map::generate and, for every rejection loop of the
      SimState constructor, its rand() draws. */
  datatype Inputs = Inputs(
    table: TypeTable,
    usable: GridPoint -> bool,
    conn: Connectivity,
    raw: seq<seq<nat>>,
    spawnDraws: seq<seq<Pos>>,
    treeDraws: seq<seq<Pos>>)

  /** The inputs fit the settings: a non-empty map whose noise heights have
      its dimensions, and one draw sequence per player and per tree. */
  predicate Fits(settings: GameSettings, inputs: Inputs)
  {
    settings.mapW > 0 && settings.mapH > 0 && inputs.table.Valid() &&
    |inputs.raw| == settings.mapW as nat &&
    (forall i | 0 <= i < |inputs.raw| :: |inputs.raw[i]| == settings.mapH as nat) &&
    |inputs.spawnDraws| == |settings.players| && |inputs.treeDraws| == NUM_TREES
  }

  /** The orders of one tick as Sim::runTick runs them from the state
      `trace[0]`: the i-th order is checked against `trace[i]`
      (SimState::isOrderValid), runs (SimState::runOrder, with the rand()
      draws `rolls[i]`) exactly when it is valid there, and leaves
      `trace[i + 1]`. */
  ghost predicate OrderTrace(s: SimState, orders: seq<Order>, rolls: seq<Pos>, ran: seq<bool>, trace: seq<World>)
  {
    |ran| <= |orders| == |rolls| && |trace| == |ran| + 1 &&
    forall i | 0 <= i < |ran| :: OrderStep(s, orders[i], rolls[i], trace[i], ran[i], trace[i + 1])
  }

  /** One iteration of the order loop of Sim::runTick from `w`: the order
      runs exactly when it is valid in `w`, and leaves `w'`. */
  ghost predicate OrderStep(s: SimState, o: Order, roll: Pos, w: World, ran: bool, w': World)
  {
    s.Coherent(w) && (ran <==> s.ValidIn(w, o)) && w' == if ran then s.Apply(w, o, roll) else w
  }

  /** One more order on an order trace. */
  lemma OrderTraceSnoc(s: SimState, orders: seq<Order>, rolls: seq<Pos>, ran: seq<bool>, trace: seq<World>, ok: bool, w': World)
    requires OrderTrace(s, orders, rolls, ran, trace) && |ran| < |orders|
    requires OrderStep(s, orders[|ran|], rolls[|ran|], trace[|ran|], ok, w')
    ensures OrderTrace(s, orders, rolls, ran + [ok], trace + [w'])
  {
  }

  /** SimState::tick and Map::tick from the state `w`, leaving `w'`: time
      advances by `dt`, the growing points grow (Grown), whatever stands on
      a grown point is destroyed (GrownOn), and the cascade visits the grown
      points in the order `grown` (CascadeSpec). */
  ghost predicate Grew(m: Map, dt: real, w: World, w': World, grown: seq<Pos>)
  {
    var mid := Map.Grown(w.ground, dt);
    (forall q :: q in grown <==> q in mid.growing) && (forall i | 0 <= i < |grown| :: grown[i] in mid.cells) &&
    w' == World(w.players, Without(w.entities, Map.GrownOn(w.ground)), w.counter, m.CascadeSpec(mid, grown),
                w.time + dt, w.waterLevel)
  }

  /** Map::waterTick from the state `w`, leaving `w'`: water flows column by
      column in the sweep `cols` (Sweeps); nothing else changes. */
  ghost predicate Watered(m: Map, dt: real, w: World, w': World, cols: seq<seq<WaterStep>>)
  {
    dt >= 0.0 && |cols| == m.sizeX && (forall i | 0 <= i < |cols| :: m.Column(cols[i], i)) &&
    Map.ColumnsIn(w.ground.cells, cols) &&
    w' == w.(ground := Ground(Map.Sweeps(w.ground.cells, cols, dt, w.waterLevel), w.ground.growing))
  }

  /** The terrain phases of Sim::runTick from `w`: Grew to `mid`, then
      Watered to `w'`. */
  ghost predicate TerrainRun(m: Map, dt: real, w: World, mid: World, w': World, grown: seq<Pos>, cols: seq<seq<WaterStep>>)
  {
    Grew(m, dt, w, mid, grown) && Watered(m, dt, mid, w', cols)
  }

  /** The intermediate states of one Sim::runTick: whether each order ran
      and the states between the orders, the order of the cascade and the
      state after Map::tick, the water sweep and the state after
      Map::waterTick, the rosters between the visits of the miner system,
      the states between the visits of the flying-object system, and the
      rosters between the visits of the main-building system. */
  datatype TickHistory = TickHistory(ran: seq<bool>, orders: seq<World>, grown: seq<Pos>, grew: World,
                                     cols: seq<seq<WaterStep>>, terrain: World, miners: seq<Roster>,
                                     flights: seq<World>, mains: seq<Roster>)

  /** Sim::runTick with the orders `orders` as the history `h` records it:
      the orders from `h.orders[0]` (OrderTrace), the terrain phases
      (TerrainRun), every id visited by the miner system (MinerTrace), the
      flying objects (Flown), every id visited by the flying-object system
      with the players and the ground its landings change (FlyTrace), and
      every id visited by the main-building system (MainTrace), in that
      order. */
  ghost predicate TickRun(s: SimState, orders: seq<Order>, rolls: seq<Pos>, h: TickHistory)
  {
    |h.ran| == |orders| && |h.orders| == |orders| + 1 && OrderTrace(s, orders, rolls, h.ran, h.orders) &&
    TerrainRun(s.grid, s.TickLength(), h.orders[|orders|], h.grew, h.terrain, h.grown, h.cols) &&
    |h.miners| == h.terrain.counter + 1 && h.miners[0] == Roster(h.terrain.entities, h.terrain.counter) &&
    MinerTrace(h.terrain.ground.cells, s.grid.sizeX, s.grid.sizeY, s.TickLength(), h.miners) &&
    |h.mains| > 0 && |h.mains| == h.mains[0].counter + 1 && Flown(h.miners[|h.miners| - 1], h.mains[0], s.TickLength()) &&
    |h.flights| == h.miners[|h.miners| - 1].counter + 1 &&
    h.flights[0] == h.terrain.(entities := h.miners[|h.miners| - 1].entities, counter := h.miners[|h.miners| - 1].counter) &&
    FlyTrace(s.grid, s.table, s.TickLength(), h.flights) &&
    h.mains[0] == Roster(h.flights[|h.flights| - 1].entities, h.flights[|h.flights| - 1].counter) &&
    MainTrace(s.table, h.terrain.time, h.mains)
  }

  /** The state `w'` ends the tick `h`: its entities and counter are those
      the main-building system left, its players and ground those the
      flying-object system left, its time and water level those of the
      terrain phases. */
  ghost predicate Ends(h: TickHistory, w': World)
  {
    |h.mains| > 0 && Roster(w'.entities, w'.counter) == h.mains[|h.mains| - 1] &&
    |h.flights| > 0 && w'.players == h.flights[|h.flights| - 1].players && w'.ground == h.flights[|h.flights| - 1].ground &&
    w'.time == h.terrain.time && w'.waterLevel == h.terrain.waterLevel
  }

  class Sim {
    const state: SimState

    /** The state is sound, and every miner holds less than one tick's
        accrual beyond the launch threshold of 2. */
    ghost predicate Valid()
      reads this, state, state.grid, state.grid.points
    {
      state.Valid() && MinersBounded(state.entities, state.TickLength())
    }

    /** Sim::Sim: the SimState is built from the settings, then the water
        level is raised once, so it starts at 1 with every point of height 0
        a water source. (The landing receivers need no subscription here:
        FlyingStep calls them.) */
    constructor (settings: GameSettings, inputs: Inputs)
      requires Fits(settings, inputs)
      ensures Valid() && fresh(state) && fresh(state.grid) && fresh(state.grid.points)
      ensures state.settings == settings && state.table == inputs.table
      ensures state.players == Registered(settings.players)
      ensures state.time == 0.0 && state.waterLevel == 1
      ensures forall i: nat, j: nat | i < state.grid.sizeX && j < state.grid.sizeY && state.grid.points[i, j].height == 0 ::
                state.grid.points[i, j].waterSource
    {
      var s := new SimState(settings, inputs.table, inputs.usable, inputs.conn, inputs.raw);
      var _, _, _, _, _ := s.Populate(inputs.spawnDraws, inputs.treeDraws);
      s.RaiseWaterLevel();
      state := s;
    }

    /** The body of the order loop of Sim::runTick: the order runs only if
        SimState::isOrderValid accepts it in the current state; otherwise
        nothing changes. `roll` holds the rand() draws of an ATTACK. */
    method RunOrderIfValid(o: Order, roll: Pos) returns (ok: bool)
      requires Valid()
      modifies state, state.grid, state.grid.points
      ensures Valid()
      ensures ok <==> old(state.ValidOrder(o))
      ensures ok ==> state.Now() == state.Apply(old(state.Now()), o, roll)
      ensures !ok ==> state.Now() == old(state.Now())
      ensures state.time == old(state.time) && state.waterLevel == old(state.waterLevel)
      ensures state.entityCounter >= old(state.entityCounter)
      ensures !ok ==> state.players == old(state.players) && state.entities == old(state.entities) &&
                      state.entityCounter == old(state.entityCounter) && unchanged(state.grid, state.grid.points)
    {
      ghost var w := state.Now();
      ok := state.IsOrderValid(o);
      assert state.Now() == w;
      if ok {
        ghost var before := state.entities;
        state.RunOrder(o, roll.x, roll.y);
        assert Pos(roll.x, roll.y) == roll;
        MinersKeptBounded(before, state.entities, state.TickLength());
        assert state.Now() == state.Apply(w, o, roll);
      }
    }

    /** The orders of one tick, in list order, each checked against the
        state the earlier ones left; `ran[i]` tells whether the i-th ran and
        `trace` holds the state before the first order and after each one
        (OrderTrace). */
    method RunOrders(orders: seq<Order>, rolls: seq<Pos>) returns (ran: seq<bool>, ghost trace: seq<World>)
      requires Valid() && |rolls| == |orders|
      modifies state, state.grid, state.grid.points
      ensures Valid()
      ensures |ran| == |orders|
      ensures state.time == old(state.time) && state.waterLevel == old(state.waterLevel)
      ensures state.entityCounter >= old(state.entityCounter)
      ensures true !in ran ==>
                state.players == old(state.players) && state.entities == old(state.entities) &&
                state.entityCounter == old(state.entityCounter) && unchanged(state.grid, state.grid.points)
      ensures OrderTrace(state, orders, rolls, ran, trace)
      ensures trace[0] == old(state.Now()) && trace[|orders|] == state.Now()
    {
      ran := [];
      trace := [state.Now()];
      while |ran| < |orders|
        invariant Valid() && |ran| <= |orders|
        invariant state.time == old(state.time) && state.waterLevel == old(state.waterLevel)
        invariant state.entityCounter >= old(state.entityCounter)
        invariant true !in ran ==>
                    state.players == old(state.players) && state.entities == old(state.entities) &&
                    state.entityCounter == old(state.entityCounter) && unchanged(state.grid, state.grid.points)
        invariant OrderTrace(state, orders, rolls, ran, trace)
        invariant trace[0] == old(state.Now()) && trace[|ran|] == state.Now()
      {
        state.NowCoherent();
        ghost var w := state.Now();
        var ok := RunOrderIfValid(orders[|ran|], rolls[|ran|]);
        assert OrderStep(state, orders[|ran|], rolls[|ran|], w, ok, state.Now());
        OrderTraceSnoc(state, orders, rolls, ran, trace, ok, state.Now());
        ran := ran + [ok];
        trace := trace + [state.Now()];
      }
    }

    /** The phases of Sim::runTick up to the systems: SimState::tick and
        Map::tick (GrowPhase), then Map::waterTick (WaterPhase); `grew` is
        the state between the two. */
    method TerrainPhase() returns (ghost grown: seq<Pos>, ghost grew: World, ghost cols: seq<seq<WaterStep>>)
      requires Valid()
      modifies state, state.grid, state.grid.points
      ensures Valid()
      ensures state.time == old(state.time) + state.TickLength()
      ensures state.waterLevel == old(state.waterLevel) && state.entityCounter == old(state.entityCounter)
      ensures TerrainRun(state.grid, state.TickLength(), old(state.Now()), grew, state.Now(), grown, cols)
    {
      grown := GrowPhase();
      grew := state.Now();
      cols := WaterPhase();
    }

    /** SimState::tick, then Map::tick, whose grown points destroy what
        stands on them. */
    method GrowPhase() returns (ghost grown: seq<Pos>)
      requires Valid()
      modifies state, state.grid, state.grid.points
      ensures Valid()
      ensures state.time == old(state.time) + state.TickLength()
      ensures state.waterLevel == old(state.waterLevel) && state.entityCounter == old(state.entityCounter)
      ensures Grew(state.grid, state.TickLength(), old(state.Now()), state.Now(), grown)
    {
      ghost var w0 := state.Now();
      state.Tick();
      var dt := state.TickLength();
      assert state.grid.Snapshot() == w0.ground;
      var destroyed, mid, order := state.grid.Tick(dt, state.waterLevel);
      grown := order;
      ghost var g := state.grid.Snapshot();
      ghost var before := state.entities;
      state.Destroy(destroyed);
      MinersKeptBounded(before, state.entities, dt);
      assert state.grid.Snapshot() == g;
      assert state.Now() == World(w0.players, Without(w0.entities, Map.GrownOn(w0.ground)), w0.counter, g,
                                  w0.time + dt, w0.waterLevel);
    }

    /** Map::waterTick at the current water level. */
    method WaterPhase() returns (ghost cols: seq<seq<WaterStep>>)
      requires Valid()
      modifies state.grid.points
      ensures Valid()
      ensures Watered(state.grid, state.TickLength(), old(state.Now()), state.Now(), cols)
    {
      ghost var w0 := state.Now();
      cols := state.grid.WaterTick(state.TickLength(), state.waterLevel);
      assert state.grid.Snapshot() == Ground(Map.Sweeps(w0.ground.cells, cols, state.TickLength(), w0.waterLevel), w0.ground.growing);
    }

    /** The systems of Sim::runTick: miners, flying objects, main
        buildings, in that order; `miners` and `mains` hold the rosters
        between the visits of the miner and the main-building systems,
        `flights` the states between the visits of the flying-object
        system. */
    method SystemsPhase() returns (ghost miners: seq<Roster>, ghost flights: seq<World>, ghost mains: seq<Roster>)
      requires Valid()
      modifies state, state.grid, state.grid.points
      ensures Valid()
      ensures state.time == old(state.time)
      ensures state.waterLevel == old(state.waterLevel) && state.entityCounter >= old(state.entityCounter)
      ensures |miners| == old(state.entityCounter) + 1 && miners[0] == Roster(old(state.entities), old(state.entityCounter))
      ensures MinerTrace(old(state.grid.Cells()), state.grid.sizeX, state.grid.sizeY, state.TickLength(), miners)
      ensures |mains| > 0 && |mains| == mains[0].counter + 1 && Flown(miners[|miners| - 1], mains[0], state.TickLength())
      ensures MainTrace(state.table, state.time, mains) && mains[|mains| - 1] == Roster(state.entities, state.entityCounter)
      ensures |flights| == miners[|miners| - 1].counter + 1 &&
              flights[0] == old(state.Now()).(entities := miners[|miners| - 1].entities, counter := miners[|miners| - 1].counter)
      ensures FlyTrace(state.grid, state.table, state.TickLength(), flights)
      ensures mains[0] == Roster(flights[|flights| - 1].entities, flights[|flights| - 1].counter)
      ensures state.players == flights[|flights| - 1].players && state.grid.Snapshot() == flights[|flights| - 1].ground
    {
      var dt := state.TickLength();
      ghost var w0 := state.Now();
      ghost var cells := state.grid.Cells();
      miners := MinerSystem(state);
      assert state.grid.Cells() == cells;
      assert state.Now() == w0.(entities := miners[|miners| - 1].entities, counter := miners[|miners| - 1].counter);
      ghost var before := state.entities;
      flights := FlyingSystem(state);
      MinersKeptBounded(before, state.entities, dt);
      before := state.entities;
      ghost var ground := state.grid.Snapshot();
      mains := MainSystem(state);
      assert state.grid.Snapshot() == ground;
      MinersKeptBounded(before, state.entities, dt);
    }

    /** Sim::runTick: the orders, then SimState::tick, Map::tick,
        Map::waterTick, and the miner, flying-object and main-building
        systems, in that order, as TickRun says with the intermediate
        states `h`, from the state before to the state after. Simulation
        time advances by exactly one tick length. */
    method RunTick(orders: seq<Order>, rolls: seq<Pos>) returns (ghost h: TickHistory)
      requires Valid() && |rolls| == |orders|
      modifies state, state.grid, state.grid.points
      ensures Valid()
      ensures state.time == old(state.time) + state.TickLength()
      ensures state.waterLevel == old(state.waterLevel) && state.entityCounter >= old(state.entityCounter)
      ensures TickRun(state, orders, rolls, h) && |h.orders| > 0 && h.orders[0] == old(state.Now()) && Ends(h, state.Now())
    {
      var ran, trace := RunOrders(orders, rolls);
      var grown, grew, cols := TerrainPhase();
      ghost var terrain := state.Now();
      var miners, flights, mains := SystemsPhase();
      h := TickHistory(ran, trace, grown, grew, cols, terrain, miners, flights, mains);
    }
  }
}
