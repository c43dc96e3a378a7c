// The per-cell rules of the terrain grid in game/Map.cc: what one growth step,
// one cascade adjustment and one water flow do to a grid point. The Map class
// (grid.dfy) applies them across the grid.
module TerrainRules {
  import opened Common
  import opened Defs

  /** Which cells forNeighbors visits. Its definition is not part of this
      model; either connectivity is allowed, off-map cells never are. */
  datatype Connectivity = Four | Eight

  /** One cell of the terrain. `growthTarget` is the signed number of height
      steps still to take; `growthProgress` accumulates `growthPerS` per
      second until it reaches 1 and a step is taken. `entity` is the object
      standing on the cell, if any (its handle may be stale). */
  datatype GridPoint = GridPoint(
    pos: Pos,
    height: nat,
    growthTarget: int,
    growthProgress: real,
    growthPerS: real,
    water: real,
    waterSource: bool,
    cascadeUp: bool,
    cascadeDown: bool,
    entity: Option<EntityId>)

  /** A default-constructed point placed at `p`. */
  function BlankPoint(p: Pos): (g: GridPoint)
    ensures g.pos == p && g.height == 0 && g.growthTarget == 0 && g.water == 0.0
    ensures !g.waterSource && !g.cascadeUp && !g.cascadeDown && g.entity.None?
  {
    GridPoint(p, 0, 0, 0.0, 0.0, 0.0, false, false, false, None)
  }

  /** The height the cell is growing toward. */
  function Eventual(g: GridPoint): int
  {
    g.height + g.growthTarget
  }

  /** The water surface of a cell. */
  function Level(g: GridPoint): real
  {
    g.height as real + g.water
  }

  function Dist(a: nat, b: nat): nat
  {
    if a < b then b - a else a - b
  }

  predicate Adjacent(a: Pos, b: Pos, conn: Connectivity)
  {
    match conn
    case Four => Dist(a.x, b.x) + Dist(a.y, b.y) == 1
    case Eight => a != b && Dist(a.x, b.x) <= 1 && Dist(a.y, b.y) <= 1
  }

  /** The cells forNeighbors visits around `p`: adjacent and on the map. */
  function Neighbours(p: Pos, sizeX: nat, sizeY: nat, conn: Connectivity): (ns: set<Pos>)
    ensures forall n :: n in ns <==> n.x < sizeX && n.y < sizeY && Adjacent(p, n, conn)
    ensures p !in ns
  {
    set x: nat, y: nat | x < sizeX && y < sizeY && Adjacent(p, Pos(x, y), conn) :: Pos(x, y)
  }

  /** Being neighbours is symmetric. */
  lemma NeighboursSymmetric(a: Pos, b: Pos, sizeX: nat, sizeY: nat, conn: Connectivity)
    requires a.x < sizeX && a.y < sizeY
    ensures b in Neighbours(a, sizeX, sizeY, conn) <==> b.x < sizeX && b.y < sizeY && a in Neighbours(b, sizeX, sizeY, conn)
  {
  }

  // ---- growth ----

  /** A point that stays in the growing set: a non-zero target and a step
      still under way. */
  predicate Growing(g: GridPoint)
  {
    g.growthTarget != 0 && g.growthProgress < 1.0
  }

  /** One tick of growth of a growing point (the body of the first loop of
      Map::tick): progress advances by rate times tick length; once it
      reaches 1 the point takes one height step toward its target, keeps the
      overshoot, and loses its water. */
  function GrowPoint(g: GridPoint, dt: real): (r: GridPoint)
    requires Growing(g)
    ensures r.pos == g.pos && r.growthPerS == g.growthPerS && r.waterSource == g.waterSource && r.entity == g.entity
    ensures Eventual(r) == Eventual(g)
    ensures g.height - 1 <= r.height <= g.height + 1
    ensures r.cascadeUp == (g.cascadeUp || r.height > g.height)
    ensures r.cascadeDown == (g.cascadeDown || r.height < g.height)
    ensures r.height > g.height ==> g.growthTarget > 0 && r.growthTarget == g.growthTarget - 1
    ensures r.height < g.height ==> g.growthTarget < 0 && r.growthTarget == g.growthTarget + 1
    ensures g.growthProgress + g.growthPerS * dt < 1.0 ==>
              r == g.(growthProgress := g.growthProgress + g.growthPerS * dt)
    ensures g.growthProgress + g.growthPerS * dt >= 1.0 ==>
              r.water == 0.0 &&
              (g.growthTarget > 0 || g.height > 0 ==> r.height != g.height) &&
              r.growthProgress == (if r.growthTarget == 0 then 0.0 else g.growthProgress + g.growthPerS * dt - 1.0)
  {
    var progress := g.growthProgress + g.growthPerS * dt;
    if progress < 1.0 then
      g.(growthProgress := progress)
    else
      var stepped :=
        if g.growthTarget > 0 then
          g.(height := g.height + 1, growthTarget := g.growthTarget - 1, cascadeUp := true)
        else if g.height > 0 then
          g.(height := g.height - 1, growthTarget := g.growthTarget + 1, cascadeDown := true)
        else g;
      stepped.(growthProgress := if stepped.growthTarget == 0 then 0.0 else progress - 1.0, water := 0.0)
  }

  /** A point that reaches its target stops with zero progress and is dropped
      from the growing set on the next tick. */
  lemma GrowToTarget(g: GridPoint, dt: real)
    requires Growing(g) && g.growthTarget == 1 && g.growthProgress + g.growthPerS * dt >= 1.0
    ensures GrowPoint(g, dt).height == g.height + 1
    ensures !Growing(GrowPoint(g, dt)) && GrowPoint(g, dt).growthProgress == 0.0
  {
  }

  // ---- crater and raise ----

  /** Map::crater on one point: dig down by `depth`, but never below 0, at
      rate 8. */
  function CraterPoint(g: GridPoint, depth: nat): (r: GridPoint)
    ensures r == g.(growthTarget := r.growthTarget, growthPerS := 8.0)
    ensures Eventual(r) >= 0 && r.growthTarget <= 0
    ensures Eventual(r) == if g.height >= depth then g.height - depth else 0
  {
    g.(growthTarget := -Min(g.height, depth), growthPerS := 8.0)
  }

  /** Map::raise on one point of the rectangle, given the common target
      height. */
  function RaisePoint(g: GridPoint, target: nat): (r: GridPoint)
    ensures r == g.(growthTarget := r.growthTarget, growthPerS := 1.0)
    ensures Eventual(r) == target
  {
    g.(growthTarget := target - g.height, growthPerS := 1.0)
  }

  // ---- cascade ----

  /** The up-cascade from a point `p` that just stepped up, applied to one
      neighbour: a neighbour heading more than one below `p` is retargeted to
      exactly one below, at `p`'s rate. */
  function RaiseNeighbour(n: GridPoint, p: GridPoint): (r: GridPoint)
    ensures Eventual(r) + 1 >= p.height
    ensures Eventual(r) >= Eventual(n)
    ensures r == n <==> Eventual(n) + 1 >= p.height
    ensures r != n ==> r == n.(growthTarget := r.growthTarget, growthPerS := p.growthPerS) && Eventual(r) + 1 == p.height
  {
    if Eventual(n) + 1 < p.height then
      n.(growthTarget := n.growthTarget + (p.height - (Eventual(n) + 1)), growthPerS := p.growthPerS)
    else n
  }

  /** The down-cascade from a point `p` that just stepped down, applied to one
      neighbour: a neighbour heading more than one above `p` is retargeted to
      exactly one above, at `p`'s rate. */
  function LowerNeighbour(n: GridPoint, p: GridPoint): (r: GridPoint)
    ensures Eventual(r) <= p.height + 1
    ensures Eventual(r) <= Eventual(n)
    ensures r == n <==> Eventual(n) <= p.height + 1
    ensures r != n ==> r == n.(growthTarget := r.growthTarget, growthPerS := p.growthPerS) && Eventual(r) == p.height + 1
  {
    if Eventual(n) > p.height + 1 then
      n.(growthTarget := n.growthTarget + ((p.height + 1) - Eventual(n)), growthPerS := p.growthPerS)
    else n
  }

  // ---- water ----

  /** flowPerS of Map::waterTick. */
  const FLOW_PER_S: real := 4.0

  /** One flow of waterTick, from neighbour `n` into the cell `p` being
      updated: nothing if `n` is dry or its surface is below `p`'s; otherwise
      `rate` times the surface difference moves from `n` to `p`. */
  function Flow(p: GridPoint, n: GridPoint, rate: real): (r: (GridPoint, GridPoint))
    requires rate >= 0.0
    ensures r.0 == p.(water := r.0.water) && r.1 == n.(water := r.1.water)
    ensures r.0.water + r.1.water == p.water + n.water
    ensures r.0.water >= p.water && r.1.water <= n.water
    ensures n.water == 0.0 || Level(n) < Level(p) ==> r == (p, n)
  {
    if n.water == 0.0 || Level(n) < Level(p) then (p, n)
    else
      var value := (Level(n) - Level(p)) * rate;
      assert value >= 0.0 by { assert Level(n) - Level(p) >= 0.0; }
      (p.(water := p.water + value), n.(water := n.water - value))
  }

  /** With at most half the difference moving per flow, a flow never
      overshoots: the receiving surface stays at or below the giving one. */
  lemma FlowNoOvershoot(p: GridPoint, n: GridPoint, rate: real)
    requires 0.0 <= rate <= 0.5
    ensures Level(Flow(p, n, rate).0) <= Level(Flow(p, n, rate).1) || Flow(p, n, rate) == (p, n)
  {
    if !(n.water == 0.0 || Level(n) < Level(p)) {
      var d := Level(n) - Level(p);
      var value := d * rate;
      assert value <= d / 2.0;
      assert Level(Flow(p, n, rate).0) == Level(p) + value;
      assert Level(Flow(p, n, rate).1) == Level(n) - value;
    }
  }

  /** Nothing bounds a flow by the water the neighbour holds: a high cell
      with a thin film can be drawn below zero. */
  lemma FlowCanDrainBelowZero()
    ensures var p := GridPoint(Pos(0, 0), 0, 0, 0.0, 0.0, 0.0, false, false, false, None);
            var n := GridPoint(Pos(1, 0), 5, 0, 0.0, 0.0, 0.125, false, false, false, None);
            Flow(p, n, FLOW_PER_S * 0.05).1.water < 0.0
  {
    var p := GridPoint(Pos(0, 0), 0, 0, 0.0, 0.0, 0.0, false, false, false, None);
    var n := GridPoint(Pos(1, 0), 5, 0, 0.0, 0.0, 0.125, false, false, false, None);
    assert Level(n) == 5.125 && Level(p) == 0.0;
    assert Flow(p, n, FLOW_PER_S * 0.05).1.water == 0.125 - 5.125 * 0.2;
  }

  /** The rest of waterTick's step for a cell below the water level, after
      the flows: a source cell still short of the level gains one unit per
      second, then the water is capped at the level. */
  function TopUpAndClamp(p: GridPoint, dt: real, level: nat): (r: GridPoint)
    requires p.height < level
    ensures r == p.(water := r.water)
    ensures r.water <= (level - p.height) as real
    ensures p.water >= (level - p.height) as real ==> r.water == (level - p.height) as real
    ensures p.water < (level - p.height) as real && !p.waterSource ==> r.water == p.water
  {
    var room := (level - p.height) as real;
    var w := if p.water < room && p.waterSource then p.water + dt else p.water;
    p.(water := if w > room then room else w)
  }
}
