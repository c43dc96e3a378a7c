// The Map of game/Map.cc: a fixed-size grid of points updated in place, and
// the set of points that are currently growing.
module Grid {
  import opened Common
  import opened Defs
  import opened TerrainRules

  /** The points of a map and its growing set, as one value. */
  datatype Ground = Ground(cells: imap<Pos, GridPoint>, growing: set<Pos>)

  /** One visit of Map::waterTick: the point, and the order its neighbours
      were taken in. */
  datatype WaterStep = WaterStep(at: Pos, from: seq<Pos>)

  class Map {
    const sizeX: nat
    const sizeY: nat
    const conn: Connectivity
    var maxHeight: nat
    /** points(x, y); the source keeps them row-major in one vector. */
    const points: array2<GridPoint>
    var growingPoints: set<Pos>

    predicate InMap(q: Pos)
    {
      q.x < sizeX && q.y < sizeY
    }

    predicate Sized()
    {
      points.Length0 == sizeX && points.Length1 == sizeY && sizeX > 0 && sizeY > 0
    }

    /** The points forNeighbors visits around `q`. */
    function Nbrs(q: Pos): (ns: set<Pos>)
      ensures forall n | n in ns :: InMap(n) && n != q
    {
      Neighbours(q, sizeX, sizeY, conn)
    }

    /** The cells that have a cell of `s` as a neighbour. */
    function Near(s: set<Pos>): set<Pos>
    {
      set p, n | p in s && n in Nbrs(p) :: n
    }

    /** The state between the two phases of tick: cells know where they are,
        never head below 0, grow at a non-negative rate, and a cell flagged
        to cascade is in the growing set. */
    ghost predicate Shaped()
      reads this, points
    {
      Sized() &&
      (forall x: nat, y: nat | x < sizeX && y < sizeY ::
         points[x, y].pos == Pos(x, y) && Eventual(points[x, y]) >= 0 && points[x, y].growthPerS >= 0.0 &&
         (points[x, y].cascadeUp || points[x, y].cascadeDown ==> Pos(x, y) in growingPoints)) &&
      (forall q | q in growingPoints :: InMap(q))
    }

    /** Between ticks no cell is flagged to cascade. */
    ghost predicate Valid()
      reads this, points
    {
      Shaped() &&
      forall x: nat, y: nat | x < sizeX && y < sizeY :: !points[x, y].cascadeUp && !points[x, y].cascadeDown
    }

    /** No cell at or above the water level holds water. */
    ghost predicate DryAbove(level: nat)
      reads this, points
      requires Sized()
    {
      forall x: nat, y: nat | x < sizeX && y < sizeY && points[x, y].height >= level :: points[x, y].water == 0.0
    }

    ghost function UpSet(): set<Pos>
      reads this, points
      requires Shaped()
    {
      set q | q in growingPoints && points[q.x, q.y].cascadeUp
    }

    ghost function DownSet(): set<Pos>
      reads this, points
      requires Shaped()
    {
      set q | q in growingPoints && points[q.x, q.y].cascadeDown
    }

    /** Map(sizeX, sizeY): asserts a non-empty grid and sets every point's
        position. */
    constructor (sizeX: nat, sizeY: nat, conn: Connectivity)
      requires sizeX > 0 && sizeY > 0
      ensures Valid() && fresh(points)
      ensures this.sizeX == sizeX && this.sizeY == sizeY && this.conn == conn
      ensures maxHeight == 0 && growingPoints == {}
      ensures forall x: nat, y: nat | x < sizeX && y < sizeY :: points[x, y] == BlankPoint(Pos(x, y))
    {
      this.sizeX := sizeX;
      this.sizeY := sizeY;
      this.conn := conn;
      maxHeight := 0;
      growingPoints := {};
      points := new GridPoint[sizeX, sizeY];
      new;
      PlaceAll();
      BlankIsValid();
    }

    /** The loops of the constructor: every point is a default point at its
        own position. */
    method PlaceAll()
      requires Sized()
      modifies points
      ensures forall i: nat, j: nat | i < sizeX && j < sizeY :: points[i, j] == BlankPoint(Pos(i, j))
    {
      var x := 0;
      while x < sizeX
        invariant x <= sizeX
        invariant forall i: nat, j: nat | i < x && j < sizeY :: points[i, j] == BlankPoint(Pos(i, j))
      {
        PlaceColumn(x);
        x := x + 1;
      }
    }

    /** A grid of blank points at their own positions is valid. */
    lemma BlankIsValid()
      requires Sized() && growingPoints == {}
      requires forall x: nat, y: nat | x < sizeX && y < sizeY :: points[x, y] == BlankPoint(Pos(x, y))
      ensures Valid()
    {
      forall x: nat, y: nat | x < sizeX && y < sizeY
        ensures points[x, y].pos == Pos(x, y) && Eventual(points[x, y]) >= 0 && points[x, y].growthPerS >= 0.0
        ensures !points[x, y].cascadeUp && !points[x, y].cascadeDown
      {
        var g := points[x, y];
        assert g == BlankPoint(Pos(x, y));
      }
    }

    /** The inner loop of the constructor, over column `x`. */
    method PlaceColumn(x: nat)
      requires Sized() && x < sizeX
      modifies points
      ensures forall i: nat, j: nat | i < sizeX && j < sizeY ::
                points[i, j] == if i == x then BlankPoint(Pos(i, j)) else old(points[i, j])
    {
      var y := 0;
      while y < sizeY
        invariant y <= sizeY
        invariant forall i: nat, j: nat | i < sizeX && j < sizeY ::
                    points[i, j] == if i == x && j < y then BlankPoint(Pos(i, j)) else old(points[i, j])
      {
        points[x, y] := BlankPoint(Pos(x, y));
        y := y + 1;
      }
    }

    /** Map::generate from the noise heights on: `raw[x][y]` is the integer
        height the noise gave cell (x, y). `floor`, the lowest height but never
        more than heightLimit, is subtracted from every cell, and maxHeight
        becomes the highest floored height. */
    static method Generate(sizeX: nat, sizeY: nat, heightLimit: nat, raw: seq<seq<nat>>, conn: Connectivity)
      returns (m: Map, ghost floor: nat)
      requires sizeX > 0 && sizeY > 0
      requires |raw| == sizeX && forall i | 0 <= i < sizeX :: |raw[i]| == sizeY
      ensures fresh(m) && fresh(m.points) && m.Valid()
      ensures m.sizeX == sizeX && m.sizeY == sizeY && m.conn == conn && m.growingPoints == {}
      ensures floor <= heightLimit
      ensures floor == heightLimit || exists i: nat, j: nat :: i < sizeX && j < sizeY && raw[i][j] == floor
      ensures forall i: nat, j: nat | i < sizeX && j < sizeY ::
                floor <= raw[i][j] && m.points[i, j] == BlankPoint(Pos(i, j)).(height := raw[i][j] - floor)
      ensures forall i: nat, j: nat | i < sizeX && j < sizeY :: m.points[i, j].height <= m.maxHeight
      ensures m.maxHeight == 0 || exists i: nat, j: nat :: i < sizeX && j < sizeY && m.points[i, j].height == m.maxHeight
    {
      m := new Map(sizeX, sizeY, conn);
      var minHeight := m.LoadHeights(heightLimit, raw);
      m.FloorHeights(minHeight, raw);
      floor := minHeight;
      m.HeightsValid();
    }

    /** Only heights differ from blank points: the grid is valid. */
    lemma HeightsValid()
      requires Sized() && growingPoints == {}
      requires forall i: nat, j: nat | i < sizeX && j < sizeY :: points[i, j] == BlankPoint(Pos(i, j)).(height := points[i, j].height)
      ensures Valid()
    {
    }

    /** The first pass of generate: stores the noise heights and finds the
        lowest, starting from heightLimit. */
    method LoadHeights(heightLimit: nat, raw: seq<seq<nat>>) returns (minHeight: nat)
      requires Sized() && |raw| == sizeX && forall i | 0 <= i < sizeX :: |raw[i]| == sizeY
      requires forall i: nat, j: nat | i < sizeX && j < sizeY :: points[i, j] == BlankPoint(Pos(i, j))
      modifies points
      ensures forall i: nat, j: nat | i < sizeX && j < sizeY ::
                points[i, j] == BlankPoint(Pos(i, j)).(height := raw[i][j]) && minHeight <= raw[i][j]
      ensures minHeight <= heightLimit
      ensures minHeight == heightLimit || exists i: nat, j: nat :: i < sizeX && j < sizeY && raw[i][j] == minHeight
    {
      minHeight := heightLimit;
      var x := 0;
      while x < sizeX
        invariant x <= sizeX && minHeight <= heightLimit
        invariant forall i: nat, j: nat | i < sizeX && j < sizeY ::
                    points[i, j] == BlankPoint(Pos(i, j)).(height := if i < x then raw[i][j] else 0)
        invariant forall i: nat, j: nat | i < x && j < sizeY :: minHeight <= raw[i][j]
        invariant minHeight == heightLimit || exists i: nat, j: nat :: i < x && j < sizeY && raw[i][j] == minHeight
      {
        minHeight := LoadColumn(x, raw[x], minHeight);
        x := x + 1;
      }
    }

    /** The flooring pass of generate: lowers every cell by `floor` and sets
        maxHeight to the highest result. */
    method FloorHeights(floor: nat, raw: seq<seq<nat>>)
      requires Sized() && |raw| == sizeX && forall i | 0 <= i < sizeX :: |raw[i]| == sizeY
      requires maxHeight == 0
      requires forall i: nat, j: nat | i < sizeX && j < sizeY ::
                 points[i, j] == BlankPoint(Pos(i, j)).(height := raw[i][j]) && floor <= raw[i][j]
      modifies this, points
      ensures growingPoints == old(growingPoints)
      ensures forall i: nat, j: nat | i < sizeX && j < sizeY ::
                points[i, j] == BlankPoint(Pos(i, j)).(height := raw[i][j] - floor)
      ensures forall i: nat, j: nat | i < sizeX && j < sizeY :: points[i, j].height <= maxHeight
      ensures maxHeight == 0 || exists i: nat, j: nat :: i < sizeX && j < sizeY && points[i, j].height == maxHeight
    {
      var x := 0;
      while x < sizeX
        invariant x <= sizeX && growingPoints == old(growingPoints)
        invariant forall i: nat, j: nat | i < sizeX && j < sizeY ::
                    points[i, j] == BlankPoint(Pos(i, j)).(height := if i < x then raw[i][j] - floor else raw[i][j])
        invariant forall i: nat, j: nat | i < x && j < sizeY :: points[i, j].height <= maxHeight
        invariant maxHeight == 0 || exists i: nat, j: nat :: i < x && j < sizeY && points[i, j].height == maxHeight
      {
        FloorColumn(x, floor);
        x := x + 1;
      }
    }

    /** The inner loop of the height pass of generate: stores column `x`'s
        heights and lowers the running minimum to theirs. */
    method LoadColumn(x: nat, col: seq<nat>, low: nat) returns (newLow: nat)
      requires Sized() && x < sizeX && |col| == sizeY
      modifies points
      ensures forall i: nat, j: nat | i < sizeX && j < sizeY ::
                points[i, j] == if i == x then old(points[i, j]).(height := col[j]) else old(points[i, j])
      ensures newLow <= low && forall j: nat | j < sizeY :: newLow <= col[j]
      ensures newLow == low || exists j: nat :: j < sizeY && col[j] == newLow
    {
      newLow := low;
      var y := 0;
      while y < sizeY
        invariant y <= sizeY && newLow <= low
        invariant forall i: nat, j: nat | i < sizeX && j < sizeY ::
                    points[i, j] == if i == x && j < y then old(points[i, j]).(height := col[j]) else old(points[i, j])
        invariant forall j: nat | j < y :: newLow <= col[j]
        invariant newLow == low || exists j: nat :: j < y && col[j] == newLow
      {
        points[x, y] := points[x, y].(height := col[y]);
        if col[y] < newLow {
          newLow := col[y];
        }
        y := y + 1;
      }
    }

    /** The inner loop of the flooring pass of generate: lowers column `x` by
        `floor` and raises maxHeight to the column's highest floored height. */
    method FloorColumn(x: nat, floor: nat)
      requires Sized() && x < sizeX
      requires forall j: nat | j < sizeY :: points[x, j].height >= floor
      modifies this, points
      ensures growingPoints == old(growingPoints)
      ensures forall i: nat, j: nat | i < sizeX && j < sizeY ::
                points[i, j] == if i == x then old(points[i, j]).(height := old(points[i, j]).height - floor)
                                else old(points[i, j])
      ensures maxHeight >= old(maxHeight) && forall j: nat | j < sizeY :: points[x, j].height <= maxHeight
      ensures maxHeight == old(maxHeight) || exists j: nat :: j < sizeY && points[x, j].height == maxHeight
    {
      var y := 0;
      while y < sizeY
        invariant y <= sizeY && growingPoints == old(growingPoints) && maxHeight >= old(maxHeight)
        invariant forall i: nat, j: nat | i < sizeX && j < sizeY ::
                    points[i, j] == if i == x && j < y then old(points[i, j]).(height := old(points[i, j]).height - floor)
                                    else old(points[i, j])
        invariant forall j: nat | j < y :: points[x, j].height <= maxHeight
        invariant maxHeight == old(maxHeight) || exists j: nat :: j < y && points[x, j].height == maxHeight
      {
        points[x, y] := points[x, y].(height := points[x, y].height - floor);
        if points[x, y].height > maxHeight {
          maxHeight := points[x, y].height;
        }
        y := y + 1;
      }
    }

    function H(q: Pos): nat
      reads points
      requires Sized() && InMap(q)
    {
      points[q.x, q.y].height
    }

    /** Map::crater: the point digs down `depth` steps (never below 0) at
        rate 8 and joins the growing set. */
    method Crater(p: Pos, depth: nat)
      requires Valid() && InMap(p)
      modifies this, points
      ensures Valid() && maxHeight == old(maxHeight)
      ensures points[p.x, p.y] == CraterPoint(old(points[p.x, p.y]), depth)
      ensures forall i: nat, j: nat | i < sizeX && j < sizeY && Pos(i, j) != p :: points[i, j] == old(points[i, j])
      ensures growingPoints == old(growingPoints) + {p}
      ensures forall level: nat | old(DryAbove(level)) :: DryAbove(level)
    {
      points[p.x, p.y] := CraterPoint(points[p.x, p.y], depth);
      growingPoints := growingPoints + {p};
    }

    // ---- raise ----

    /** The rectangle forRectangle(p, s) visits; it includes (p + s). */
    static predicate InRect(q: Pos, p: Pos, s: Pos)
    {
      p.x <= q.x <= p.x + s.x && p.y <= q.y <= p.y + s.y
    }

    /** `a` is visited before `b`: x in the outer loop, y in the inner. */
    static predicate Before(a: Pos, b: Pos)
    {
      a.x < b.x || (a.x == b.x && a.y < b.y)
    }

    /** The first forRectangle loop of Map::raise: `top` is the highest
        point of the rectangle, and `rising` (allMaxHeight) holds exactly when
        the heights never drop in visiting order. */
    method RectScan(p: Pos, s: Pos) returns (top: nat, rising: bool)
      requires Sized() && InMap(Pos(p.x + s.x, p.y + s.y))
      ensures forall q | InRect(q, p, s) :: H(q) <= top
      ensures exists q :: InRect(q, p, s) && H(q) == top
      ensures rising <==> forall a, b | InRect(a, p, s) && InRect(b, p, s) && Before(a, b) :: H(a) <= H(b)
    {
      top, rising := 0, true;
      var x := p.x;
      while x <= p.x + s.x
        invariant p.x <= x <= p.x + s.x + 1
        invariant forall q | InRect(q, p, s) && q.x < x :: H(q) <= top
        invariant top == 0 || exists q :: InRect(q, p, s) && q.x < x && H(q) == top
        invariant rising <==> forall a, b | InRect(a, p, s) && InRect(b, p, s) && a.x < x && b.x < x && Before(a, b) :: H(a) <= H(b)
      {
        top, rising := ScanColumn(p, s, x, top, rising);
        x := x + 1;
      }
      assert InRect(p, p, s);
    }

    /** The inner loop of RectScan over column `x`, carrying the running
        maximum and flag from the columns before it. */
    method ScanColumn(p: Pos, s: Pos, x: nat, top0: nat, rising0: bool) returns (top: nat, rising: bool)
      requires Sized() && InMap(Pos(p.x + s.x, p.y + s.y)) && p.x <= x <= p.x + s.x
      requires forall q | InRect(q, p, s) && q.x < x :: H(q) <= top0
      requires top0 == 0 || exists q :: InRect(q, p, s) && q.x < x && H(q) == top0
      requires rising0 <==> forall a, b | InRect(a, p, s) && InRect(b, p, s) && a.x < x && b.x < x && Before(a, b) :: H(a) <= H(b)
      ensures forall q | InRect(q, p, s) && q.x <= x :: H(q) <= top
      ensures top == 0 || exists q :: InRect(q, p, s) && q.x <= x && H(q) == top
      ensures rising <==> forall a, b | InRect(a, p, s) && InRect(b, p, s) && a.x <= x && b.x <= x && Before(a, b) :: H(a) <= H(b)
    {
      top, rising := top0, rising0;
      var y := p.y;
      while y <= p.y + s.y
        invariant p.y <= y <= p.y + s.y + 1
        invariant forall q | InRect(q, p, s) && Before(q, Pos(x, y)) :: H(q) <= top
        invariant top == 0 || exists q :: InRect(q, p, s) && Before(q, Pos(x, y)) && H(q) == top
        invariant rising <==> forall a, b | InRect(a, p, s) && InRect(b, p, s) && Before(a, Pos(x, y)) && Before(b, Pos(x, y)) && Before(a, b) :: H(a) <= H(b)
      {
        var c := Pos(x, y);
        var h := points[x, y].height;
        ghost var before := top;
        if h > top {
          top := h;
        }
        rising := rising && h == top;
        if !(h >= before) {
          var w :| InRect(w, p, s) && Before(w, c) && H(w) == before;
          assert !(H(w) <= H(c));
        }
        y := y + 1;
        assert forall q | InRect(q, p, s) :: Before(q, Pos(x, y)) <==> Before(q, c) || q == c;
      }
      assert forall q | InRect(q, p, s) :: Before(q, Pos(x, y)) <==> q.x <= x;
    }

    /** The second forRectangle loop of Map::raise: every point of the
        rectangle heads for `target` at rate 1 and joins the growing set. */
    method RaiseRect(p: Pos, s: Pos, target: nat)
      requires Valid() && InMap(Pos(p.x + s.x, p.y + s.y))
      requires forall q | InRect(q, p, s) :: H(q) <= target
      modifies this, points
      ensures Valid() && maxHeight == old(maxHeight)
      ensures forall i: nat, j: nat | i < sizeX && j < sizeY ::
                points[i, j] == if InRect(Pos(i, j), p, s) then RaisePoint(old(points[i, j]), target) else old(points[i, j])
      ensures forall q :: q in growingPoints <==> q in old(growingPoints) || InRect(q, p, s)
      ensures forall level: nat | old(DryAbove(level)) :: DryAbove(level)
    {
      var x := p.x;
      while x <= p.x + s.x
        invariant p.x <= x <= p.x + s.x + 1 && Valid() && maxHeight == old(maxHeight)
        invariant forall i: nat, j: nat | i < sizeX && j < sizeY ::
                    points[i, j] == if InRect(Pos(i, j), p, s) && i < x then RaisePoint(old(points[i, j]), target) else old(points[i, j])
        invariant forall q :: q in growingPoints <==> q in old(growingPoints) || (InRect(q, p, s) && q.x < x)
      {
        forall y: nat | p.y <= y <= p.y + s.y
          ensures points[x, y].height <= target
        {
          assert InRect(Pos(x, y), p, s);
        }
        RaiseColumn(p, s, x, target);
        x := x + 1;
      }
    }

    method RaiseColumn(p: Pos, s: Pos, x: nat, target: nat)
      requires Valid() && InMap(Pos(p.x + s.x, p.y + s.y)) && p.x <= x <= p.x + s.x
      requires forall y: nat | p.y <= y <= p.y + s.y :: points[x, y].height <= target
      modifies this, points
      ensures Valid() && maxHeight == old(maxHeight)
      ensures forall i: nat, j: nat | i < sizeX && j < sizeY ::
                points[i, j] == if i == x && p.y <= j <= p.y + s.y then RaisePoint(old(points[i, j]), target) else old(points[i, j])
      ensures forall q :: q in growingPoints <==> q in old(growingPoints) || (q.x == x && p.y <= q.y <= p.y + s.y)
    {
      var y := p.y;
      while y <= p.y + s.y
        invariant p.y <= y <= p.y + s.y + 1 && maxHeight == old(maxHeight)
        invariant forall i: nat, j: nat | i < sizeX && j < sizeY ::
                    points[i, j] == if i == x && p.y <= j < y then RaisePoint(old(points[i, j]), target) else old(points[i, j])
        invariant forall q :: q in growingPoints <==> q in old(growingPoints) || (q.x == x && p.y <= q.y < y)
      {
        points[x, y] := RaisePoint(points[x, y], target);
        growingPoints := growingPoints + {Pos(x, y)};
        y := y + 1;
      }
    }

    /** Map::raise: the rectangle grows to its highest point, or one above it
        when its heights never drop in visiting order. */
    method Raise(p: Pos, s: Pos) returns (ghost target: nat)
      requires Valid() && InMap(Pos(p.x + s.x, p.y + s.y))
      modifies this, points
      ensures Valid() && maxHeight == old(maxHeight)
      ensures forall q | InRect(q, p, s) :: old(H(q)) <= target
      ensures (exists q :: InRect(q, p, s) && old(H(q)) == target) <==>
              !forall a, b | InRect(a, p, s) && InRect(b, p, s) && Before(a, b) :: old(H(a)) <= old(H(b))
      ensures (forall q | InRect(q, p, s) :: old(H(q)) == old(H(p))) ==> target == old(H(p)) + 1
      ensures forall i: nat, j: nat | i < sizeX && j < sizeY ::
                points[i, j] == if InRect(Pos(i, j), p, s) then RaisePoint(old(points[i, j]), target) else old(points[i, j])
      ensures forall q :: q in growingPoints <==> q in old(growingPoints) || InRect(q, p, s)
      ensures forall level: nat | old(DryAbove(level)) :: DryAbove(level)
      ensures target == RaiseTarget(old(Cells()), p, s)
      ensures Snapshot() == Raised(old(Snapshot()), p, s)
    {
      ghost var g0 := Snapshot();
      SnapshotAt(g0);
      target := RaiseTo(p, s);
      RaisedBridge(g0, p, s, target);
    }

    /** Map::raise point by point. */
    method RaiseTo(p: Pos, s: Pos) returns (target: nat)
      requires Valid() && InMap(Pos(p.x + s.x, p.y + s.y))
      modifies this, points
      ensures Valid() && maxHeight == old(maxHeight)
      ensures forall q | InRect(q, p, s) :: old(H(q)) <= target
      ensures (exists q :: InRect(q, p, s) && old(H(q)) == target) <==>
              !forall a, b | InRect(a, p, s) && InRect(b, p, s) && Before(a, b) :: old(H(a)) <= old(H(b))
      ensures (forall q | InRect(q, p, s) :: old(H(q)) == old(H(p))) ==> target == old(H(p)) + 1
      ensures forall i: nat, j: nat | i < sizeX && j < sizeY ::
                points[i, j] == if InRect(Pos(i, j), p, s) then RaisePoint(old(points[i, j]), target) else old(points[i, j])
      ensures forall q :: q in growingPoints <==> q in old(growingPoints) || InRect(q, p, s)
      ensures forall level: nat | old(DryAbove(level)) :: DryAbove(level)
      ensures forall q | InRect(q, p, s) :: q in old(Cells())
      ensures target == RaiseTarget(old(Cells()), p, s)
    {
      ghost var g := Snapshot();
      SnapshotAt(g);
      target := TargetOf(p, s, g.cells);
      RaiseTargetSpec(g.cells, p, s);
      RaiseRect(p, s, target);
    }

    /** The first half of Map::raise: the height the rectangle is raised to. */
    method TargetOf(p: Pos, s: Pos, ghost g: imap<Pos, GridPoint>) returns (target: nat)
      requires Valid() && InMap(Pos(p.x + s.x, p.y + s.y)) && g == Cells()
      ensures forall q | InRect(q, p, s) :: H(q) <= target
      ensures forall q | InRect(q, p, s) :: q in g
      ensures target == RaiseTarget(g, p, s)
    {
      ghost var sn := Snapshot();
      assert sn.cells == g;
      var top, rising := RectScan(p, s);
      ScanIsTop(sn, p, s, top, rising);
      target := if rising then top + 1 else top;
    }

    /** What RectScan finds is the top of the rectangle and allMaxHeight. */
    lemma ScanIsTop(g: Ground, p: Pos, s: Pos, top: nat, rising: bool)
      requires Sized() && InMap(Pos(p.x + s.x, p.y + s.y)) && g.cells == Cells()
      requires forall q | InRect(q, p, s) :: H(q) <= top
      requires exists q :: InRect(q, p, s) && H(q) == top
      requires rising <==> forall a, b | InRect(a, p, s) && InRect(b, p, s) && Before(a, b) :: H(a) <= H(b)
      ensures forall q | InRect(q, p, s) :: q in g.cells
      ensures IsRectTop(g.cells, p, s, top) && (rising <==> RectRising(g.cells, p, s))
      ensures RaiseTarget(g.cells, p, s) == if rising then top + 1 else top
    {
      var w :| InRect(w, p, s) && H(w) == top;
      assert w in g.cells;
      RectTopExists(g.cells, p, s);
      var t :| IsRectTop(g.cells, p, s, t);
      RectTopUnique(g.cells, p, s, t, top);
    }

    /** The grid after RaiseRect with the target of Map::raise is Raised. */
    lemma RaisedBridge(g0: Ground, p: Pos, s: Pos, target: nat)
      requires Sized() && (forall q :: q in g0.cells <==> InMap(q)) && InMap(Pos(p.x + s.x, p.y + s.y))
      requires forall q | InRect(q, p, s) :: q in g0.cells
      requires target == RaiseTarget(g0.cells, p, s)
      requires forall i: nat, j: nat | i < sizeX && j < sizeY :: Pos(i, j) in g0.cells &&
                 points[i, j] == if InRect(Pos(i, j), p, s) then RaisePoint(g0.cells[Pos(i, j)], target) else g0.cells[Pos(i, j)]
      requires forall q :: q in growingPoints <==> q in g0.growing || InRect(q, p, s)
      ensures Snapshot() == Raised(g0, p, s)
    {
      var r := Raised(g0, p, s);
      forall i: nat, j: nat | i < sizeX && j < sizeY
        ensures Pos(i, j) in r.cells && points[i, j] == r.cells[Pos(i, j)]
      {
        RaisedAt(g0, p, s, target, Pos(i, j));
      }
      CellsAre(r.cells);
      RaisedGrowing(g0, p, s, growingPoints);
    }

    /** One point of Raised. */
    static lemma RaisedAt(g0: Ground, p: Pos, s: Pos, target: nat, q: Pos)
      requires (forall q | InRect(q, p, s) :: q in g0.cells) && q in g0.cells
      requires target == RaiseTarget(g0.cells, p, s)
      ensures q in Raised(g0, p, s).cells
      ensures Raised(g0, p, s).cells[q] == if InRect(q, p, s) then RaisePoint(g0.cells[q], target) else g0.cells[q]
    {
    }

    /** The growing set of Raised. */
    static lemma RaisedGrowing(g0: Ground, p: Pos, s: Pos, growing: set<Pos>)
      requires forall q | InRect(q, p, s) :: q in g0.cells
      requires forall q :: q in growing <==> q in g0.growing || InRect(q, p, s)
      ensures growing == Raised(g0, p, s).growing
    {
      assert forall q :: q in Raised(g0, p, s).growing <==> q in g0.growing || InRect(q, p, s);
    }

    /** A snapshot holds every point of the array at its position. */
    lemma SnapshotAt(g: Ground)
      requires Sized() && g == Snapshot()
      ensures forall q :: q in g.cells <==> InMap(q)
      ensures forall i: nat, j: nat | i < sizeX && j < sizeY :: Pos(i, j) in g.cells && g.cells[Pos(i, j)] == points[i, j]
      ensures forall q | InMap(q) :: g.cells[q] == At(q)
      ensures g.growing == growingPoints
    {
    }

    /** The array holds exactly the points of `c`. */
    lemma CellsAre(c: imap<Pos, GridPoint>)
      requires Sized() && forall q :: q in c <==> InMap(q)
      requires forall i: nat, j: nat | i < sizeX && j < sizeY :: Pos(i, j) in c && points[i, j] == c[Pos(i, j)]
      ensures Cells() == c
    {
      forall q | q in c
        ensures Cells()[q] == c[q]
      {
        assert q == Pos(q.x, q.y);
      }
    }

    // ---- raise, on values ----

    /** The points forRectangle(p, s) visits. */
    static function RectSet(p: Pos, s: Pos): (r: set<Pos>)
      ensures forall q :: q in r <==> InRect(q, p, s)
    {
      var r := set x: nat, y: nat | p.x <= x <= p.x + s.x && p.y <= y <= p.y + s.y :: Pos(x, y);
      assert forall q | InRect(q, p, s) :: q == Pos(q.x, q.y) && q in r;
      r
    }

    /** `top` is the height of the highest point of the rectangle. */
    static ghost predicate IsRectTop(cells: imap<Pos, GridPoint>, p: Pos, s: Pos, top: nat)
    {
      (forall q | InRect(q, p, s) :: q in cells && cells[q].height <= top) &&
      exists q :: InRect(q, p, s) && q in cells && cells[q].height == top
    }

    /** allMaxHeight of Map::raise: no height drops in visiting order. */
    static ghost predicate RectRising(cells: imap<Pos, GridPoint>, p: Pos, s: Pos)
    {
      forall a, b | InRect(a, p, s) && InRect(b, p, s) && Before(a, b) && a in cells && b in cells ::
        cells[a].height <= cells[b].height
    }

    /** The largest of a non-empty finite set of heights. */
    static lemma {:induction false} MaxOf(hs: set<nat>) returns (m: nat)
      requires hs != {}
      ensures m in hs && forall h | h in hs :: h <= m
      decreases |hs|
    {
      var h :| h in hs;
      if hs == {h} {
        m := h;
      } else {
        var rest := MaxOf(hs - {h});
        m := if h > rest then h else rest;
        forall k | k in hs
          ensures k <= m
        {
          if k != h {
            assert k in hs - {h};
          }
        }
      }
    }

    static lemma RectTopExists(cells: imap<Pos, GridPoint>, p: Pos, s: Pos)
      requires forall q | InRect(q, p, s) :: q in cells
      ensures exists top :: IsRectTop(cells, p, s, top)
    {
      var hs := set q | q in RectSet(p, s) :: cells[q].height;
      assert cells[p].height in hs;
      var m := MaxOf(hs);
      forall q | InRect(q, p, s)
        ensures cells[q].height <= m
      {
        assert q in RectSet(p, s);
        assert cells[q].height in hs;
      }
      assert InRect(p, p, s);
      var w :| w in RectSet(p, s) && cells[w].height == m;
      assert IsRectTop(cells, p, s, m);
    }

    static lemma RectTopUnique(cells: imap<Pos, GridPoint>, p: Pos, s: Pos, a: nat, b: nat)
      requires IsRectTop(cells, p, s, a) && IsRectTop(cells, p, s, b)
      ensures a == b
    {
      var qa :| InRect(qa, p, s) && qa in cells && cells[qa].height == a;
      var qb :| InRect(qb, p, s) && qb in cells && cells[qb].height == b;
    }

    /** The height Map::raise gives the rectangle: its highest point, one
        more when no height drops in visiting order. */
    static ghost function RaiseTarget(cells: imap<Pos, GridPoint>, p: Pos, s: Pos): nat
      requires forall q | InRect(q, p, s) :: q in cells
    {
      RectTopExists(cells, p, s);
      var top: nat :| IsRectTop(cells, p, s, top);
      if RectRising(cells, p, s) then top + 1 else top
    }

    /** The raise target in the terms of Map::raise: at least every height
        of the rectangle, equal to one of them exactly when some height drops
        in visiting order, and one above the common height of a flat
        rectangle. */
    lemma RaiseTargetSpec(cells: imap<Pos, GridPoint>, p: Pos, s: Pos)
      requires Sized() && InMap(Pos(p.x + s.x, p.y + s.y)) && forall q | InRect(q, p, s) :: q in cells && cells[q] == At(q)
      ensures forall q | InRect(q, p, s) :: H(q) <= RaiseTarget(cells, p, s)
      ensures (exists q :: InRect(q, p, s) && H(q) == RaiseTarget(cells, p, s)) <==>
              !forall a, b | InRect(a, p, s) && InRect(b, p, s) && Before(a, b) :: H(a) <= H(b)
      ensures (forall q | InRect(q, p, s) :: H(q) == H(p)) ==> RaiseTarget(cells, p, s) == H(p) + 1
    {
      RaiseTargetBounds(cells, p, s);
      RectTopExists(cells, p, s);
      var top: nat :| IsRectTop(cells, p, s, top);
      assert InRect(p, p, s);
      if forall q | InRect(q, p, s) :: H(q) == H(p) {
        assert RectRising(cells, p, s);
        RectTopUnique(cells, p, s, top, H(p));
      }
    }

    /** The raise target is at least every height of the rectangle; it is
        one more than some height when the rectangle is rising and equal to
        some height otherwise. */
    static lemma RaiseTargetBounds(cells: imap<Pos, GridPoint>, p: Pos, s: Pos)
      requires forall q | InRect(q, p, s) :: q in cells
      ensures forall q | InRect(q, p, s) :: cells[q].height <= RaiseTarget(cells, p, s)
      ensures RectRising(cells, p, s) ==> exists q :: InRect(q, p, s) && cells[q].height + 1 == RaiseTarget(cells, p, s)
      ensures !RectRising(cells, p, s) ==> exists q :: InRect(q, p, s) && cells[q].height == RaiseTarget(cells, p, s)
    {
      RectTopExists(cells, p, s);
      var top: nat :| IsRectTop(cells, p, s, top);
      RectTopUnique(cells, p, s, top, if RectRising(cells, p, s) then RaiseTarget(cells, p, s) - 1 else RaiseTarget(cells, p, s));
    }

    /** Map::raise on values: every point of the rectangle heads for the
        raise target at rate 1 and joins the growing set. */
    static ghost function Raised(g: Ground, p: Pos, s: Pos): (r: Ground)
      requires forall q | InRect(q, p, s) :: q in g.cells
      ensures forall q :: q in r.cells <==> q in g.cells
    {
      var target := RaiseTarget(g.cells, p, s);
      Ground(imap q | q in g.cells :: if InRect(q, p, s) then RaisePoint(g.cells[q], target) else g.cells[q],
             g.growing + RectSet(p, s))
    }

    // ---- water level ----

    /** Map::raiseWaterLevel: with a positive level, every point of height 0
        becomes a water source; nothing else changes. */
    method RaiseWaterLevel(level: nat)
      requires Valid()
      modifies points
      ensures Valid()
      ensures forall i: nat, j: nat | i < sizeX && j < sizeY ::
                points[i, j] == old(points[i, j]).(waterSource := old(points[i, j]).waterSource || (old(points[i, j]).height == 0 && level > 0))
      ensures forall dry: nat | old(DryAbove(dry)) :: DryAbove(dry)
    {
      var x := 0;
      while x < sizeX
        invariant x <= sizeX && Valid()
        invariant forall i: nat, j: nat | i < sizeX && j < sizeY ::
                    points[i, j] == if i < x then old(points[i, j]).(waterSource := old(points[i, j]).waterSource || (old(points[i, j]).height == 0 && level > 0))
                                    else old(points[i, j])
      {
        MarkSourcesColumn(x, level);
        x := x + 1;
      }
    }

    method MarkSourcesColumn(x: nat, level: nat)
      requires Valid() && x < sizeX
      modifies points
      ensures Valid()
      ensures forall i: nat, j: nat | i < sizeX && j < sizeY ::
                points[i, j] == if i == x then old(points[i, j]).(waterSource := old(points[i, j]).waterSource || (old(points[i, j]).height == 0 && level > 0))
                                else old(points[i, j])
    {
      var y := 0;
      while y < sizeY
        invariant y <= sizeY && Valid()
        invariant forall i: nat, j: nat | i < sizeX && j < sizeY ::
                    points[i, j] == if i == x && j < y then old(points[i, j]).(waterSource := old(points[i, j]).waterSource || (old(points[i, j]).height == 0 && level > 0))
                                    else old(points[i, j])
      {
        if points[x, y].height == 0 && level > 0 {
          points[x, y] := points[x, y].(waterSource := true);
        }
        y := y + 1;
      }
    }

    // ---- occupants and water, as the simulation changes them ----

    /** The point with `id` standing on it. */
    static function Occupied(g: GridPoint, id: EntityId): GridPoint
    {
      g.(entity := Some(id))
    }

    /** forRectangle(p, s) with `point.entity = id`: the entity occupies
        every point of the rectangle and nothing else changes. */
    method MarkRect(p: Pos, s: Pos, id: EntityId)
      requires Valid() && InMap(Pos(p.x + s.x, p.y + s.y))
      modifies points
      ensures Valid()
      ensures forall i: nat, j: nat | i < sizeX && j < sizeY ::
                points[i, j] == if InRect(Pos(i, j), p, s) then Occupied(old(points[i, j]), id) else old(points[i, j])
      ensures forall level: nat | old(DryAbove(level)) :: DryAbove(level)
      ensures Snapshot() == Marked(old(Snapshot()), p, s, id)
    {
      ghost var g0 := Snapshot();
      SnapshotAt(g0);
      var x := p.x;
      while x <= p.x + s.x
        invariant p.x <= x <= p.x + s.x + 1 && Valid()
        invariant forall i: nat, j: nat | i < sizeX && j < sizeY ::
                    points[i, j] == if InRect(Pos(i, j), p, s) && i < x then Occupied(old(points[i, j]), id) else old(points[i, j])
      {
        MarkColumn(p, s, x, id);
        x := x + 1;
      }
      MarkedBridge(g0, p, s, id);
    }

    /** forRectangle(p, s) with `point.entity = id`, on values. */
    static ghost function Marked(g: Ground, p: Pos, s: Pos, id: EntityId): (r: Ground)
      ensures forall q :: q in r.cells <==> q in g.cells
      ensures r.growing == g.growing
    {
      Ground(imap q | q in g.cells :: if InRect(q, p, s) then Occupied(g.cells[q], id) else g.cells[q], g.growing)
    }

    /** The array after MarkRect on the grid `g0` is Marked. */
    lemma MarkedBridge(g0: Ground, p: Pos, s: Pos, id: EntityId)
      requires Sized() && (forall q :: q in g0.cells <==> InMap(q)) && g0.growing == growingPoints
      requires forall i: nat, j: nat | i < sizeX && j < sizeY :: Pos(i, j) in g0.cells &&
                 points[i, j] == if InRect(Pos(i, j), p, s) then Occupied(g0.cells[Pos(i, j)], id) else g0.cells[Pos(i, j)]
      ensures Snapshot() == Marked(g0, p, s, id)
    {
      CellsAre(Marked(g0, p, s, id).cells);
    }

    method MarkColumn(p: Pos, s: Pos, x: nat, id: EntityId)
      requires Valid() && InMap(Pos(p.x + s.x, p.y + s.y)) && p.x <= x <= p.x + s.x
      modifies points
      ensures Valid()
      ensures forall i: nat, j: nat | i < sizeX && j < sizeY ::
                points[i, j] == if i == x && p.y <= j <= p.y + s.y then Occupied(old(points[i, j]), id) else old(points[i, j])
    {
      var y := p.y;
      while y <= p.y + s.y
        invariant p.y <= y <= p.y + s.y + 1 && Valid()
        invariant forall i: nat, j: nat | i < sizeX && j < sizeY ::
                    points[i, j] == if i == x && p.y <= j < y then Occupied(old(points[i, j]), id) else old(points[i, j])
      {
        points[x, y] := Occupied(points[x, y], id);
        y := y + 1;
      }
    }

    /** `point(q).entity = id` for a single point. */
    method SetEntity(q: Pos, id: EntityId)
      requires Valid() && InMap(q)
      modifies points
      ensures Valid()
      ensures forall i: nat, j: nat | i < sizeX && j < sizeY ::
                points[i, j] == if Pos(i, j) == q then Occupied(old(points[i, j]), id) else old(points[i, j])
      ensures forall level: nat | old(DryAbove(level)) :: DryAbove(level)
    {
      points[q.x, q.y] := Occupied(points[q.x, q.y], id);
    }

    /** `point(q).water /= d` for a divisor d >= 1, written as a factor
        k = 1/d: the point keeps a share of its water, and a dry point stays
        dry. */
    method ScaleWater(q: Pos, k: real)
      requires Valid() && InMap(q) && 0.0 < k <= 1.0
      modifies points
      ensures Valid()
      ensures forall i: nat, j: nat | i < sizeX && j < sizeY ::
                points[i, j] == if Pos(i, j) == q then old(points[i, j]).(water := old(points[i, j]).water * k) else old(points[i, j])
      ensures forall level: nat | old(DryAbove(level)) :: DryAbove(level)
    {
      points[q.x, q.y] := points[q.x, q.y].(water := points[q.x, q.y].water * k);
    }

    /** A grid dry above a level is dry above every higher level. */
    lemma DryAboveMonotone(a: nat, b: nat)
      requires Sized() && DryAbove(a) && a <= b
      ensures DryAbove(b)
    {
    }

    // ---- tick ----

    function At(q: Pos): GridPoint
      reads points
      requires Sized() && InMap(q)
    {
      points[q.x, q.y]
    }

    /** The first loop of Map::tick: every growing point advances by one
        tick; points that are no longer growing leave the set. `destroyed`
        holds the entities standing on the points that grew. */
    method Grow(dt: real) returns (destroyed: set<EntityId>)
      requires Valid()
      modifies this, points
      ensures Shaped() && maxHeight == old(maxHeight)
      ensures forall i: nat, j: nat | i < sizeX && j < sizeY ::
                points[i, j] == if Pos(i, j) in old(growingPoints) && Growing(old(points[i, j]))
                                then GrowPoint(old(points[i, j]), dt) else old(points[i, j])
      ensures growingPoints == set q | q in old(growingPoints) && Growing(old(At(q)))
      ensures destroyed == set q | q in old(growingPoints) && Growing(old(At(q))) && old(At(q)).entity.Some? :: old(At(q)).entity.value
      ensures forall level: nat | old(DryAbove(level)) :: DryAbove(level)
    {
      var todo := growingPoints;
      ghost var done: set<Pos> := {};
      destroyed := {};
      while todo != {}
        invariant todo + done == old(growingPoints) && todo !! done && maxHeight == old(maxHeight)
        invariant forall i: nat, j: nat | i < sizeX && j < sizeY ::
                    points[i, j] == if Pos(i, j) in done && Growing(old(points[i, j]))
                                    then GrowPoint(old(points[i, j]), dt) else old(points[i, j])
        invariant growingPoints == set q | q in old(growingPoints) && (q in todo || Growing(old(At(q))))
        invariant destroyed == set q | q in done && Growing(old(At(q))) && old(At(q)).entity.Some? :: old(At(q)).entity.value
        decreases todo
      {
        var q :| q in todo;
        var g := points[q.x, q.y];
        if Growing(g) {
          if g.entity.Some? {
            destroyed := destroyed + {g.entity.value};
          }
          points[q.x, q.y] := GrowPoint(g, dt);
        } else {
          growingPoints := growingPoints - {q};
        }
        todo, done := todo - {q}, done + {q};
      }
    }

    /** The growthCascadeUp branch of the second loop of Map::tick: every
        neighbour of `p` more than one step below it is raised to one below
        it, takes over p's rate and joins the growing set. */
    method CascadeUpFrom(p: Pos, ghost g0: Ground)
      requires Shaped() && InMap(p) && Taken(g0)
      modifies this, points
      ensures Shaped() && maxHeight == old(maxHeight)
      ensures forall i: nat, j: nat | i < sizeX && j < sizeY ::
                points[i, j] == if Pos(i, j) in Nbrs(p) then RaiseNeighbour(g0.cells[Pos(i, j)], g0.cells[p]) else g0.cells[Pos(i, j)]
      ensures forall i: nat, j: nat | i < sizeX && j < sizeY ::
                Pos(i, j) in growingPoints <==>
                  Pos(i, j) in g0.growing || (Pos(i, j) in Nbrs(p) && RaiseNeighbour(g0.cells[Pos(i, j)], g0.cells[p]) != g0.cells[Pos(i, j)])
    {
      var todo := Nbrs(p);
      ghost var done: set<Pos> := {};
      var top := points[p.x, p.y];
      while todo != {}
        invariant todo + done == Nbrs(p) && todo !! done && maxHeight == old(maxHeight) && top == g0.cells[p]
        invariant forall i: nat, j: nat | i < sizeX && j < sizeY ::
                    points[i, j] == if Pos(i, j) in done then RaiseNeighbour(g0.cells[Pos(i, j)], top) else g0.cells[Pos(i, j)]
        invariant forall q | q in growingPoints :: InMap(q)
        invariant forall i: nat, j: nat | i < sizeX && j < sizeY ::
                    Pos(i, j) in growingPoints <==>
                      Pos(i, j) in g0.growing || (Pos(i, j) in done && RaiseNeighbour(g0.cells[Pos(i, j)], top) != g0.cells[Pos(i, j)])
        decreases todo
      {
        var n :| n in todo;
        var g := RaiseNeighbour(points[n.x, n.y], top);
        if g != points[n.x, n.y] {
          points[n.x, n.y] := g;
          growingPoints := growingPoints + {n};
        }
        todo, done := todo - {n}, done + {n};
      }
    }

    /** The growthCascadeDown branch: every neighbour of `p` more than one
        step above it is lowered to one above it. */
    method CascadeDownFrom(p: Pos, ghost g0: Ground)
      requires Shaped() && InMap(p) && Taken(g0)
      modifies this, points
      ensures Shaped() && maxHeight == old(maxHeight)
      ensures forall i: nat, j: nat | i < sizeX && j < sizeY ::
                points[i, j] == if Pos(i, j) in Nbrs(p) then LowerNeighbour(g0.cells[Pos(i, j)], g0.cells[p]) else g0.cells[Pos(i, j)]
      ensures forall i: nat, j: nat | i < sizeX && j < sizeY ::
                Pos(i, j) in growingPoints <==>
                  Pos(i, j) in g0.growing || (Pos(i, j) in Nbrs(p) && LowerNeighbour(g0.cells[Pos(i, j)], g0.cells[p]) != g0.cells[Pos(i, j)])
    {
      var todo := Nbrs(p);
      ghost var done: set<Pos> := {};
      var top := points[p.x, p.y];
      while todo != {}
        invariant todo + done == Nbrs(p) && todo !! done && maxHeight == old(maxHeight) && top == g0.cells[p]
        invariant forall i: nat, j: nat | i < sizeX && j < sizeY ::
                    points[i, j] == if Pos(i, j) in done then LowerNeighbour(g0.cells[Pos(i, j)], top) else g0.cells[Pos(i, j)]
        invariant forall q | q in growingPoints :: InMap(q)
        invariant forall i: nat, j: nat | i < sizeX && j < sizeY ::
                    Pos(i, j) in growingPoints <==>
                      Pos(i, j) in g0.growing || (Pos(i, j) in done && LowerNeighbour(g0.cells[Pos(i, j)], top) != g0.cells[Pos(i, j)])
        decreases todo
      {
        var n :| n in todo;
        var g := LowerNeighbour(points[n.x, n.y], top);
        if g != points[n.x, n.y] {
          points[n.x, n.y] := g;
          growingPoints := growingPoints + {n};
        }
        todo, done := todo - {n}, done + {n};
      }
    }

    /** The cascade changes nothing of a point but its target, its rate and
        its flags. */
    static predicate SameGround(a: GridPoint, b: GridPoint)
    {
      a.pos == b.pos && a.height == b.height && a.growthProgress == b.growthProgress &&
      a.water == b.water && a.waterSource == b.waterSource && a.entity == b.entity
    }

    /** The grid as a value: the point at every position of the map. */
    ghost function Cells(): imap<Pos, GridPoint>
      reads this, points
      requires Sized()
    {
      imap q | InMap(q) :: At(q)
    }

    /** `g` is the grid as it stands. */
    ghost predicate Taken(g: Ground)
      reads this, points
      requires Sized()
    {
      (forall q :: q in g.cells <==> InMap(q)) && g.growing == growingPoints &&
      forall i: nat, j: nat | i < sizeX && j < sizeY :: g.cells[Pos(i, j)] == points[i, j]
    }

    lemma SnapshotTaken()
      requires Sized()
      ensures Taken(Snapshot())
    {
    }

    /** The points and the growing set as one value. */
    ghost function Snapshot(): Ground
      reads this, points
      requires Sized()
    {
      Ground(Cells(), growingPoints)
    }

    // ---- the cascade pass as functions on values ----

    /** The growthCascadeUp branch for point `c`: every neighbour heading
        more than one below `c` is retargeted to one below it at c's rate and
        joins the growing set; `c` loses its flag. */
    ghost function UpVisit(g: Ground, c: Pos): (r: Ground)
      requires c in g.cells
      ensures forall q :: q in r.cells <==> q in g.cells
    {
      var top := g.cells[c];
      Ground(imap q | q in g.cells :: if q == c then top.(cascadeUp := false)
                                     else if q in Nbrs(c) then RaiseNeighbour(g.cells[q], top) else g.cells[q],
             g.growing + set q | q in Nbrs(c) && q in g.cells && RaiseNeighbour(g.cells[q], top) != g.cells[q])
    }

    /** The growthCascadeDown branch for point `c`. */
    ghost function DownVisit(g: Ground, c: Pos): (r: Ground)
      requires c in g.cells
      ensures forall q :: q in r.cells <==> q in g.cells
    {
      var top := g.cells[c];
      Ground(imap q | q in g.cells :: if q == c then top.(cascadeDown := false)
                                     else if q in Nbrs(c) then LowerNeighbour(g.cells[q], top) else g.cells[q],
             g.growing + set q | q in Nbrs(c) && q in g.cells && LowerNeighbour(g.cells[q], top) != g.cells[q])
    }

    /** One visit of the second loop of Map::tick: up first, then down. */
    ghost function Visit(g: Ground, c: Pos): (r: Ground)
      requires c in g.cells
      ensures forall q :: q in r.cells <==> q in g.cells
    {
      var g1 := if g.cells[c].cascadeUp then UpVisit(g, c) else g;
      if g1.cells[c].cascadeDown then DownVisit(g1, c) else g1
    }

    /** The second loop of Map::tick, visiting the points of `order` in turn. */
    ghost function CascadeSpec(g: Ground, order: seq<Pos>): (r: Ground)
      requires forall i | 0 <= i < |order| :: order[i] in g.cells
      ensures forall q :: q in r.cells <==> q in g.cells
      decreases |order|
    {
      if order == [] then g
      else Visit(CascadeSpec(g, order[..|order| - 1]), order[|order| - 1])
    }

    /** In `cells`, every neighbour `n` of a visited point `p` that stepped up
        heads for at most one below `p`, unless `n` is in `shield` (the cells
        next to a point that stepped down). */
    ghost predicate UpSettledIn(cells: imap<Pos, GridPoint>, up: set<Pos>, shield: set<Pos>, done: set<Pos>)
    {
      forall p, n | p in up && p in done && p in cells && n in cells && n in Nbrs(p) && n !in shield ::
        Eventual(cells[n]) + 1 >= cells[p].height
    }

    /** In `cells`, every neighbour `n` of a visited point `p` that stepped
        down heads for at most one above `p`, unless `n` is in `shield` (the
        cells next to a point that stepped up). */
    ghost predicate DownSettledIn(cells: imap<Pos, GridPoint>, down: set<Pos>, shield: set<Pos>, done: set<Pos>)
    {
      forall p, n | p in down && p in done && p in cells && n in cells && n in Nbrs(p) && n !in shield ::
        Eventual(cells[n]) <= cells[p].height + 1
    }

    lemma NearOf(c: Pos, s: set<Pos>)
      requires c in s
      ensures Nbrs(c) <= Near(s)
    {
      forall n | n in Nbrs(c)
        ensures n in Near(s)
      {
        assert c in s && n in Nbrs(c);
      }
    }

    lemma UpVisitFrame(g: Ground, c: Pos)
      requires c in g.cells
      ensures var r := UpVisit(g, c);
        forall q | q in g.cells ::
          SameGround(g.cells[q], r.cells[q]) &&
          r.cells[q].cascadeUp == (g.cells[q].cascadeUp && q != c) &&
          r.cells[q].cascadeDown == g.cells[q].cascadeDown
    {
    }

    lemma DownVisitFrame(g: Ground, c: Pos)
      requires c in g.cells
      ensures var r := DownVisit(g, c);
        forall q | q in g.cells ::
          SameGround(g.cells[q], r.cells[q]) &&
          r.cells[q].cascadeUp == g.cells[q].cascadeUp &&
          r.cells[q].cascadeDown == (g.cells[q].cascadeDown && q != c)
    {
    }

    /** A visit only retargets points and resets the flags of `c`. */
    lemma VisitFrame(g: Ground, c: Pos)
      requires c in g.cells
      ensures var r := Visit(g, c);
        forall q | q in g.cells ::
          SameGround(g.cells[q], r.cells[q]) &&
          r.cells[q].cascadeUp == (g.cells[q].cascadeUp && q != c) &&
          r.cells[q].cascadeDown == (g.cells[q].cascadeDown && q != c)
    {
      var g1 := if g.cells[c].cascadeUp then UpVisit(g, c) else g;
      if g.cells[c].cascadeUp {
        UpVisitFrame(g, c);
      }
      if g1.cells[c].cascadeDown {
        DownVisitFrame(g1, c);
      }
    }

    /** The cascade pass only retargets points, and it clears exactly the
        flags of the points it visits. */
    lemma {:induction false} CascadeFrame(g: Ground, order: seq<Pos>)
      requires forall i | 0 <= i < |order| :: order[i] in g.cells
      ensures var r := CascadeSpec(g, order);
        forall q | q in g.cells ::
          SameGround(g.cells[q], r.cells[q]) &&
          r.cells[q].cascadeUp == (g.cells[q].cascadeUp && q !in order) &&
          r.cells[q].cascadeDown == (g.cells[q].cascadeDown && q !in order)
      decreases |order|
    {
      if order != [] {
        var pre := order[..|order| - 1];
        CascadeFrame(g, pre);
        VisitFrame(CascadeSpec(g, pre), order[|order| - 1]);
        assert forall q :: q in order <==> q in pre || q == order[|order| - 1] by {
          assert order == pre + [order[|order| - 1]];
        }
      }
    }

    /** What an up-visit does to targets and to the growing set. */
    lemma UpVisitEffects(g: Ground, c: Pos)
      requires c in g.cells
      ensures var r := UpVisit(g, c);
        (forall n | n in g.cells :: r.cells[n].height == g.cells[n].height && Eventual(r.cells[n]) >= Eventual(g.cells[n])) &&
        (forall n | n in g.cells && n !in Nbrs(c) :: Eventual(r.cells[n]) == Eventual(g.cells[n])) &&
        (forall n | n in g.cells && n in Nbrs(c) :: Eventual(r.cells[n]) + 1 >= r.cells[c].height) &&
        g.growing <= r.growing <= g.growing + Nbrs(c) &&
        (forall n | n in g.cells && Eventual(r.cells[n]) != Eventual(g.cells[n]) :: n in r.growing)
    {
    }

    /** What a down-visit does to targets and to the growing set. */
    lemma DownVisitEffects(g: Ground, c: Pos)
      requires c in g.cells
      ensures var r := DownVisit(g, c);
        (forall n | n in g.cells :: r.cells[n].height == g.cells[n].height && Eventual(r.cells[n]) <= Eventual(g.cells[n])) &&
        (forall n | n in g.cells && n !in Nbrs(c) :: Eventual(r.cells[n]) == Eventual(g.cells[n])) &&
        (forall n | n in g.cells && n in Nbrs(c) :: Eventual(r.cells[n]) <= r.cells[c].height + 1) &&
        g.growing <= r.growing <= g.growing + Nbrs(c) &&
        (forall n | n in g.cells && Eventual(r.cells[n]) != Eventual(g.cells[n]) :: n in r.growing)
    {
    }

    /** The cascade pass only adds points next to flagged ones to the growing
        set, and every point whose target it changes ends up growing. */
    lemma {:induction false} CascadeGrowing(g: Ground, order: seq<Pos>, up: set<Pos>, down: set<Pos>)
      requires forall i | 0 <= i < |order| :: order[i] in g.cells
      requires forall q | q in g.cells :: (g.cells[q].cascadeUp ==> q in up) && (g.cells[q].cascadeDown ==> q in down)
      ensures var r := CascadeSpec(g, order);
        g.growing <= r.growing <= g.growing + Near(up) + Near(down) &&
        forall q | q in g.cells && Eventual(r.cells[q]) != Eventual(g.cells[q]) :: q in r.growing
      decreases |order|
    {
      if order != [] {
        var pre := order[..|order| - 1];
        var c := order[|order| - 1];
        var r0 := CascadeSpec(g, pre);
        CascadeGrowing(g, pre, up, down);
        CascadeFrame(g, pre);
        var r1 := if r0.cells[c].cascadeUp then UpVisit(r0, c) else r0;
        if r0.cells[c].cascadeUp {
          UpVisitEffects(r0, c);
          UpVisitFrame(r0, c);
          NearOf(c, up);
        }
        if r1.cells[c].cascadeDown {
          DownVisitEffects(r1, c);
          NearOf(c, down);
        }
      }
    }

    /** Raising the neighbours of an up-stepped point `c` settles `c` and
        keeps every point settled before. */
    lemma UpVisitSettles(a: imap<Pos, GridPoint>, b: imap<Pos, GridPoint>, up: set<Pos>, down: set<Pos>,
                         upDone: set<Pos>, downDone: set<Pos>, c: Pos)
      requires c in up && c in a && Nbrs(c) <= Near(up)
      requires forall n :: n in a <==> n in b
      requires forall n | n in a :: b[n].height == a[n].height && Eventual(b[n]) >= Eventual(a[n])
      requires forall n | n in a && n !in Nbrs(c) :: Eventual(b[n]) == Eventual(a[n])
      requires forall n | n in b && n in Nbrs(c) :: Eventual(b[n]) + 1 >= b[c].height
      requires UpSettledIn(a, up, Near(down), upDone) && DownSettledIn(a, down, Near(up), downDone)
      ensures UpSettledIn(b, up, Near(down), upDone + {c}) && DownSettledIn(b, down, Near(up), downDone)
    {
    }

    /** Lowering the neighbours of a down-stepped point `c` settles `c` and
        keeps every point settled before. */
    lemma DownVisitSettles(a: imap<Pos, GridPoint>, b: imap<Pos, GridPoint>, up: set<Pos>, down: set<Pos>,
                           upDone: set<Pos>, downDone: set<Pos>, c: Pos)
      requires c in down && c in a && Nbrs(c) <= Near(down)
      requires forall n :: n in a <==> n in b
      requires forall n | n in a :: b[n].height == a[n].height && Eventual(b[n]) <= Eventual(a[n])
      requires forall n | n in a && n !in Nbrs(c) :: Eventual(b[n]) == Eventual(a[n])
      requires forall n | n in b && n in Nbrs(c) :: Eventual(b[n]) <= b[c].height + 1
      requires UpSettledIn(a, up, Near(down), upDone) && DownSettledIn(a, down, Near(up), downDone)
      ensures UpSettledIn(b, up, Near(down), upDone) && DownSettledIn(b, down, Near(up), downDone + {c})
    {
    }

    /** After the pass, every neighbour of a point that stepped up heads for
        at most one below it and every neighbour of a point that stepped down
        for at most one above it, except next to a point that stepped the
        other way. */
    lemma {:induction false} CascadeSettles(g: Ground, order: seq<Pos>, up: set<Pos>, down: set<Pos>)
      requires forall i | 0 <= i < |order| :: order[i] in g.cells
      requires forall q | q in g.cells :: (g.cells[q].cascadeUp <==> q in up) && (g.cells[q].cascadeDown <==> q in down)
      ensures var r := CascadeSpec(g, order);
        UpSettledIn(r.cells, up, Near(down), set q | q in order) &&
        DownSettledIn(r.cells, down, Near(up), set q | q in order)
      decreases |order|
    {
      if order != [] {
        var pre := order[..|order| - 1];
        var c := order[|order| - 1];
        var r0 := CascadeSpec(g, pre);
        CascadeSettles(g, pre, up, down);
        CascadeFrame(g, pre);
        var done := set q | q in pre;
        ElementsOfSnoc(order, pre, c);
        VisitSettles(r0, c, up, down, done);
      }
    }

    /** The points of a non-empty order are those of its prefix and its last. */
    static lemma ElementsOfSnoc(order: seq<Pos>, pre: seq<Pos>, c: Pos)
      requires order != [] && pre == order[..|order| - 1] && c == order[|order| - 1]
      ensures (set q | q in order) == (set q | q in pre) + {c}
    {
      assert order == pre + [c];
    }

    /** One visit keeps the visited points settled and settles `c`, provided
        `c` is flagged only for directions it stepped in and has not yet been
        visited for a flag it lost. */
    lemma VisitSettles(r0: Ground, c: Pos, up: set<Pos>, down: set<Pos>, done: set<Pos>)
      requires c in r0.cells
      requires (r0.cells[c].cascadeUp ==> c in up) && (c in up && !r0.cells[c].cascadeUp ==> c in done)
      requires (r0.cells[c].cascadeDown ==> c in down) && (c in down && !r0.cells[c].cascadeDown ==> c in done)
      requires UpSettledIn(r0.cells, up, Near(down), done) && DownSettledIn(r0.cells, down, Near(up), done)
      ensures UpSettledIn(Visit(r0, c).cells, up, Near(down), done + {c})
      ensures DownSettledIn(Visit(r0, c).cells, down, Near(up), done + {c})
    {
      var r1 := if r0.cells[c].cascadeUp then UpVisit(r0, c) else r0;
      if r0.cells[c].cascadeUp {
        NearOf(c, up);
        UpVisitEffects(r0, c);
        UpVisitFrame(r0, c);
        UpVisitSettles(r0.cells, r1.cells, up, down, done, done, c);
      } else {
        SettledExtend(r0.cells, up, Near(down), done, c);
      }
      if r1.cells[c].cascadeDown {
        NearOf(c, down);
        DownVisitEffects(r1, c);
        DownVisitSettles(r1.cells, Visit(r0, c).cells, up, down, done + {c}, done, c);
      } else {
        SettledExtendDown(r1.cells, down, Near(up), done, c);
      }
    }

    /** A point that did not step up, or was visited already, adds nothing
        to settle. */
    lemma SettledExtend(cells: imap<Pos, GridPoint>, up: set<Pos>, shield: set<Pos>, done: set<Pos>, c: Pos)
      requires c !in up || c in done
      requires UpSettledIn(cells, up, shield, done)
      ensures UpSettledIn(cells, up, shield, done + {c})
    {
    }

    lemma SettledExtendDown(cells: imap<Pos, GridPoint>, down: set<Pos>, shield: set<Pos>, done: set<Pos>, c: Pos)
      requires c !in down || c in done
      requires DownSettledIn(cells, down, shield, done)
      ensures DownSettledIn(cells, down, shield, done + {c})
    {
    }

    /** Targets only rise away from down-steps and only fall away from
        up-steps. */
    lemma {:induction false} CascadeMonotone(g: Ground, order: seq<Pos>, up: set<Pos>, down: set<Pos>)
      requires forall i | 0 <= i < |order| :: order[i] in g.cells
      requires forall q | q in g.cells :: (g.cells[q].cascadeUp ==> q in up) && (g.cells[q].cascadeDown ==> q in down)
      ensures var r := CascadeSpec(g, order);
        (forall q | q in g.cells && q !in Near(down) :: Eventual(r.cells[q]) >= Eventual(g.cells[q])) &&
        (forall q | q in g.cells && q !in Near(up) :: Eventual(r.cells[q]) <= Eventual(g.cells[q]))
      decreases |order|
    {
      if order != [] {
        var pre := order[..|order| - 1];
        var c := order[|order| - 1];
        var r0 := CascadeSpec(g, pre);
        CascadeMonotone(g, pre, up, down);
        CascadeFrame(g, pre);
        var r1 := if r0.cells[c].cascadeUp then UpVisit(r0, c) else r0;
        if r0.cells[c].cascadeUp {
          NearOf(c, up);
          UpVisitEffects(r0, c);
          UpVisitFrame(r0, c);
        }
        if r1.cells[c].cascadeDown {
          NearOf(c, down);
          DownVisitEffects(r1, c);
        }
      }
    }

    // ---- the cascade pass on the grid ----

    /** The growthCascadeUp branch with its flag reset. */
    method VisitUp(c: Pos)
      requires Shaped() && c in growingPoints && At(c).cascadeUp
      modifies this, points
      ensures Shaped() && maxHeight == old(maxHeight)
      ensures old(growingPoints) <= growingPoints
      ensures Snapshot() == UpVisit(old(Snapshot()), c)
    {
      ghost var g0 := Snapshot();
      SnapshotTaken();
      CascadeUpFrom(c, g0);
      ClearUp(c);
      UpBridge(g0, c);
    }

    /** The growthCascadeDown branch with its flag reset. */
    method VisitDown(c: Pos)
      requires Shaped() && c in growingPoints && At(c).cascadeDown
      modifies this, points
      ensures Shaped() && maxHeight == old(maxHeight)
      ensures old(growingPoints) <= growingPoints
      ensures Snapshot() == DownVisit(old(Snapshot()), c)
    {
      ghost var g0 := Snapshot();
      SnapshotTaken();
      CascadeDownFrom(c, g0);
      ClearDown(c);
      DownBridge(g0, c);
    }

    /** The grid reached by CascadeUpFrom and ClearUp from the grid
        `g0` is UpVisit(g0, c). */
    lemma UpBridge(g0: Ground, c: Pos)
      requires Shaped() && InMap(c) && c in g0.growing
      requires forall q :: q in g0.cells <==> InMap(q)
      requires forall i: nat, j: nat | i < sizeX && j < sizeY :: Pos(i, j) in g0.cells
      requires forall i: nat, j: nat | i < sizeX && j < sizeY ::
                 points[i, j] == if Pos(i, j) == c then g0.cells[c].(cascadeUp := false)
                                 else if Pos(i, j) in Nbrs(c) then RaiseNeighbour(g0.cells[Pos(i, j)], g0.cells[c])
                                 else g0.cells[Pos(i, j)]
      requires forall i: nat, j: nat | i < sizeX && j < sizeY ::
                 Pos(i, j) in growingPoints <==>
                   Pos(i, j) in g0.growing || (Pos(i, j) in Nbrs(c) && RaiseNeighbour(g0.cells[Pos(i, j)], g0.cells[c]) != g0.cells[Pos(i, j)])
      requires forall q | q in g0.growing :: InMap(q)
      ensures Snapshot() == UpVisit(g0, c)
    {
      UpCellsBridge(g0, c);
      UpGrowingBridge(g0, c);
    }

    /** The points half of UpBridge. */
    lemma UpCellsBridge(g0: Ground, c: Pos)
      requires Sized() && InMap(c)
      requires forall q :: q in g0.cells <==> InMap(q)
      requires forall i: nat, j: nat | i < sizeX && j < sizeY :: Pos(i, j) in g0.cells
      requires forall i: nat, j: nat | i < sizeX && j < sizeY ::
                 points[i, j] == if Pos(i, j) == c then g0.cells[c].(cascadeUp := false)
                                 else if Pos(i, j) in Nbrs(c) then RaiseNeighbour(g0.cells[Pos(i, j)], g0.cells[c])
                                 else g0.cells[Pos(i, j)]
      ensures Cells() == UpVisit(g0, c).cells
    {
      var r := UpVisit(g0, c);
      forall q | q in r.cells
        ensures Cells()[q] == r.cells[q]
      {
        assert Pos(q.x, q.y) == q;
      }
    }

    /** The growing-set half of UpBridge. */
    lemma UpGrowingBridge(g0: Ground, c: Pos)
      requires Sized() && InMap(c)
      requires forall q :: q in g0.cells <==> InMap(q)
      requires forall i: nat, j: nat | i < sizeX && j < sizeY :: Pos(i, j) in g0.cells
      requires forall q | q in growingPoints :: InMap(q)
      requires forall i: nat, j: nat | i < sizeX && j < sizeY ::
                 Pos(i, j) in growingPoints <==>
                   Pos(i, j) in g0.growing || (Pos(i, j) in Nbrs(c) && RaiseNeighbour(g0.cells[Pos(i, j)], g0.cells[c]) != g0.cells[Pos(i, j)])
      requires forall q | q in g0.growing :: InMap(q)
      ensures growingPoints == UpVisit(g0, c).growing
    {
      var r := UpVisit(g0, c);
      forall q
        ensures q in growingPoints <==> q in r.growing
      {
        if q in growingPoints || q in r.growing {
          assert InMap(q) && Pos(q.x, q.y) == q;
        }
      }
    }

    /** The grid reached by CascadeDownFrom and ClearDown from the grid
        `g0` is DownVisit(g0, c). */
    lemma DownBridge(g0: Ground, c: Pos)
      requires Shaped() && InMap(c) && c in g0.growing
      requires forall q :: q in g0.cells <==> InMap(q)
      requires forall i: nat, j: nat | i < sizeX && j < sizeY :: Pos(i, j) in g0.cells
      requires forall i: nat, j: nat | i < sizeX && j < sizeY ::
                 points[i, j] == if Pos(i, j) == c then g0.cells[c].(cascadeDown := false)
                                 else if Pos(i, j) in Nbrs(c) then LowerNeighbour(g0.cells[Pos(i, j)], g0.cells[c])
                                 else g0.cells[Pos(i, j)]
      requires forall i: nat, j: nat | i < sizeX && j < sizeY ::
                 Pos(i, j) in growingPoints <==>
                   Pos(i, j) in g0.growing || (Pos(i, j) in Nbrs(c) && LowerNeighbour(g0.cells[Pos(i, j)], g0.cells[c]) != g0.cells[Pos(i, j)])
      requires forall q | q in g0.growing :: InMap(q)
      ensures Snapshot() == DownVisit(g0, c)
    {
      DownCellsBridge(g0, c);
      DownGrowingBridge(g0, c);
    }

    /** The points half of DownBridge. */
    lemma DownCellsBridge(g0: Ground, c: Pos)
      requires Sized() && InMap(c)
      requires forall q :: q in g0.cells <==> InMap(q)
      requires forall i: nat, j: nat | i < sizeX && j < sizeY :: Pos(i, j) in g0.cells
      requires forall i: nat, j: nat | i < sizeX && j < sizeY ::
                 points[i, j] == if Pos(i, j) == c then g0.cells[c].(cascadeDown := false)
                                 else if Pos(i, j) in Nbrs(c) then LowerNeighbour(g0.cells[Pos(i, j)], g0.cells[c])
                                 else g0.cells[Pos(i, j)]
      ensures Cells() == DownVisit(g0, c).cells
    {
      var r := DownVisit(g0, c);
      forall q | q in r.cells
        ensures Cells()[q] == r.cells[q]
      {
        assert Pos(q.x, q.y) == q;
      }
    }

    /** The growing-set half of DownBridge. */
    lemma DownGrowingBridge(g0: Ground, c: Pos)
      requires Sized() && InMap(c)
      requires forall q :: q in g0.cells <==> InMap(q)
      requires forall i: nat, j: nat | i < sizeX && j < sizeY :: Pos(i, j) in g0.cells
      requires forall q | q in growingPoints :: InMap(q)
      requires forall i: nat, j: nat | i < sizeX && j < sizeY ::
                 Pos(i, j) in growingPoints <==>
                   Pos(i, j) in g0.growing || (Pos(i, j) in Nbrs(c) && LowerNeighbour(g0.cells[Pos(i, j)], g0.cells[c]) != g0.cells[Pos(i, j)])
      requires forall q | q in g0.growing :: InMap(q)
      ensures growingPoints == DownVisit(g0, c).growing
    {
      var r := DownVisit(g0, c);
      forall q
        ensures q in growingPoints <==> q in r.growing
      {
        if q in growingPoints || q in r.growing {
          assert InMap(q) && Pos(q.x, q.y) == q;
        }
      }
    }

    /** One visit of the second loop of Map::tick. */
    method VisitCascade(c: Pos)
      requires Shaped() && c in growingPoints
      modifies this, points
      ensures Shaped() && maxHeight == old(maxHeight)
      ensures old(growingPoints) <= growingPoints
      ensures Snapshot() == Visit(old(Snapshot()), c)
    {
      if points[c.x, c.y].cascadeUp {
        VisitUp(c);
      }
      if points[c.x, c.y].cascadeDown {
        VisitDown(c);
      }
    }

    /** The second loop of Map::tick visits the growing points in some order
        (the order of the set in the source); the grid then is CascadeSpec of
        the grid before over that order, and no point is flagged. Points the
        loop inserts are not flagged, so visiting them changes nothing. */
    method Cascade(ghost level: nat) returns (ghost order: seq<Pos>)
      requires Shaped() && DryAbove(level)
      modifies this, points
      ensures Valid() && maxHeight == old(maxHeight)
      ensures forall q :: q in order <==> q in old(growingPoints)
      ensures forall i | 0 <= i < |order| :: order[i] in old(Snapshot()).cells
      ensures Snapshot() == CascadeSpec(old(Snapshot()), order)
      ensures DryAbove(level)
    {
      ghost var g0 := Snapshot();
      ghost var start := growingPoints;
      ghost var trace := [g0];
      SnapshotTaken();
      FlaggedGrowing(g0);
      DryBridge(g0, level);
      var todo := growingPoints;
      order := [];
      while todo != {}
        invariant forall q :: q in start <==> q in todo || q in order
        invariant start <= growingPoints
        invariant Shaped() && maxHeight == old(maxHeight)
        invariant IsTrace(g0, order, trace) && trace[|order|] == Snapshot()
        decreases todo
      {
        var c :| c in todo;
        VisitCascade(c);
        TraceSnoc(g0, order, trace, c, Snapshot());
        todo, order, trace := todo - {c}, order + [c], trace + [Snapshot()];
      }
      TraceClears(g0, order, trace);
      NoFlagsValid();
      TraceDry(g0, order, trace, level);
      SnapshotTaken();
      DryBridge(Snapshot(), level);
    }

    /** The last grid of a trace is dry wherever its start was. */
    lemma TraceDry(g0: Ground, order: seq<Pos>, trace: seq<Ground>, level: nat)
      requires IsTrace(g0, order, trace) && DryGround(g0, level)
      ensures DryGround(trace[|order|], level)
    {
      TraceCascade(g0, order, trace);
      CascadeDry(g0, order, level);
    }

    /** No point of `g` at or above `level` holds water. */
    ghost predicate DryGround(g: Ground, level: nat)
    {
      forall q | q in g.cells && g.cells[q].height >= level :: g.cells[q].water == 0.0
    }

    lemma DryBridge(g: Ground, level: nat)
      requires Sized() && Taken(g)
      ensures DryAbove(level) <==> DryGround(g, level)
    {
      if DryAbove(level) {
        forall q | q in g.cells && g.cells[q].height >= level
          ensures g.cells[q].water == 0.0
        {
          assert Pos(q.x, q.y) == q;
        }
      }
    }

    /** The cascade changes neither heights nor water, so it keeps dry what
        was dry. */
    lemma CascadeDry(g: Ground, order: seq<Pos>, level: nat)
      requires forall i | 0 <= i < |order| :: order[i] in g.cells
      requires DryGround(g, level)
      ensures DryGround(CascadeSpec(g, order), level)
    {
      CascadeFrame(g, order);
    }

    /** A traced pass over every flagged point ends in CascadeSpec with no
        point flagged. */
    lemma TraceClears(g0: Ground, order: seq<Pos>, trace: seq<Ground>)
      requires IsTrace(g0, order, trace)
      requires forall q | q in g0.cells :: g0.cells[q].cascadeUp || g0.cells[q].cascadeDown ==> q in order
      ensures forall i | 0 <= i < |order| :: order[i] in g0.cells
      ensures trace[|order|] == CascadeSpec(g0, order) && NoFlags(trace[|order|])
    {
      TraceCascade(g0, order, trace);
      CascadeClears(g0, order);
    }

    /** `trace` lists the grids the second loop of Map::tick passes through:
        it starts at `g0` and each entry is the Visit of the previous one at
        the next point of `order`. */
    ghost predicate IsTrace(g0: Ground, order: seq<Pos>, trace: seq<Ground>)
    {
      |trace| == |order| + 1 && trace[0] == g0 &&
      forall k | 0 <= k < |order| :: order[k] in trace[k].cells && trace[k + 1] == Visit(trace[k], order[k])
    }

    lemma TraceSnoc(g0: Ground, order: seq<Pos>, trace: seq<Ground>, c: Pos, next: Ground)
      requires IsTrace(g0, order, trace) && c in trace[|order|].cells && next == Visit(trace[|order|], c)
      ensures IsTrace(g0, order + [c], trace + [next])
    {
    }

    /** The last grid of a trace is CascadeSpec over its order. */
    lemma {:induction false} TraceCascade(g0: Ground, order: seq<Pos>, trace: seq<Ground>)
      requires IsTrace(g0, order, trace)
      ensures forall i | 0 <= i < |order| :: order[i] in g0.cells
      ensures trace[|order|] == CascadeSpec(g0, order)
      decreases |order|
    {
      if order != [] {
        var n := |order| - 1;
        assert IsTrace(g0, order[..n], trace[..n + 1]);
        TraceCascade(g0, order[..n], trace[..n + 1]);
        TraceDomain(g0, order, trace, n);
      }
    }

    /** Every grid of a trace has the cells of its start. */
    lemma {:induction false} TraceDomain(g0: Ground, order: seq<Pos>, trace: seq<Ground>, k: nat)
      requires IsTrace(g0, order, trace) && k <= |order|
      ensures forall q :: q in trace[k].cells <==> q in g0.cells
      decreases k
    {
      if k > 0 {
        TraceDomain(g0, order, trace, k - 1);
      }
    }

    /** No point of `g` is flagged to cascade. */
    ghost predicate NoFlags(g: Ground)
    {
      forall q | q in g.cells :: !g.cells[q].cascadeUp && !g.cells[q].cascadeDown
    }

    /** In a grid `g` taken from a Shaped map, every flagged point is
        growing and every growing point is in the grid. */
    lemma FlaggedGrowing(g: Ground)
      requires Shaped() && Taken(g)
      ensures forall q | q in g.cells :: g.cells[q].cascadeUp || g.cells[q].cascadeDown ==> q in g.growing
      ensures forall q | q in g.growing :: q in g.cells
    {
      forall q | q in g.cells
        ensures g.cells[q].cascadeUp || g.cells[q].cascadeDown ==> q in g.growing
      {
        assert Pos(q.x, q.y) == q;
      }
    }

    /** A pass that visits every flagged point leaves no point flagged. */
    lemma CascadeClears(g: Ground, order: seq<Pos>)
      requires forall i | 0 <= i < |order| :: order[i] in g.cells
      requires forall q | q in g.cells :: g.cells[q].cascadeUp || g.cells[q].cascadeDown ==> q in order
      ensures NoFlags(CascadeSpec(g, order))
    {
      CascadeFrame(g, order);
    }

    /** The grid is Valid once its snapshot carries no flag. */
    lemma NoFlagsValid()
      requires Shaped() && NoFlags(Snapshot())
      ensures Valid()
    {
      forall x: nat, y: nat | x < sizeX && y < sizeY
        ensures !points[x, y].cascadeUp && !points[x, y].cascadeDown
      {
        assert Pos(x, y) in Snapshot().cells;
      }
    }

    /** Map::tick: the growth step, then the cascade. `mid` is the grid
        between the two loops and `order` the order the second loop visits
        the growing points in. */
    method Tick(dt: real, ghost level: nat) returns (destroyed: set<EntityId>, ghost mid: Ground, ghost order: seq<Pos>)
      requires Valid() && DryAbove(level)
      modifies this, points
      ensures Valid() && maxHeight == old(maxHeight)
      ensures forall q :: q in mid.cells <==> InMap(q)
      ensures forall i: nat, j: nat | i < sizeX && j < sizeY :: Pos(i, j) in mid.cells
      ensures forall i: nat, j: nat | i < sizeX && j < sizeY ::
                mid.cells[Pos(i, j)] == if Pos(i, j) in old(growingPoints) && Growing(old(points[i, j]))
                                        then GrowPoint(old(points[i, j]), dt) else old(points[i, j])
      ensures mid.growing == set q | q in old(growingPoints) && Growing(old(At(q)))
      ensures destroyed == set q | q in old(growingPoints) && Growing(old(At(q))) && old(At(q)).entity.Some? :: old(At(q)).entity.value
      ensures forall q :: q in order <==> q in mid.growing
      ensures forall i | 0 <= i < |order| :: order[i] in mid.cells
      ensures Snapshot() == CascadeSpec(mid, order)
      ensures DryAbove(level)
      ensures mid == Grown(old(Snapshot()), dt) && destroyed == GrownOn(old(Snapshot()))
    {
      ghost var g0 := Snapshot();
      SnapshotAt(g0);
      destroyed := Grow(dt);
      mid := Snapshot();
      GrownBridge(g0, mid, dt, destroyed);
      SnapshotTaken();
      order := Cascade(level);
    }

    /** The first loop of Map::tick on values: every growing point that still
        has growth ahead takes one growth step, and the others leave the
        growing set. */
    static ghost function Grown(g: Ground, dt: real): (r: Ground)
      ensures forall q :: q in r.cells <==> q in g.cells
      ensures forall q :: q in r.growing <==> q in g.growing && q in g.cells && Growing(g.cells[q])
    {
      Ground(imap q | q in g.cells :: if q in g.growing && Growing(g.cells[q]) then GrowPoint(g.cells[q], dt) else g.cells[q],
             set q | q in g.growing && q in g.cells && Growing(g.cells[q]))
    }

    /** The entities standing on a point that takes a growth step: the first
        loop of Map::tick destroys them. */
    static ghost function GrownOn(g: Ground): set<EntityId>
    {
      set q | q in g.growing && q in g.cells && Growing(g.cells[q]) && g.cells[q].entity.Some? :: g.cells[q].entity.value
    }

    /** The grid Grow leaves behind is Grown, and what it destroys GrownOn. */
    lemma GrownBridge(g0: Ground, g1: Ground, dt: real, destroyed: set<EntityId>)
      requires Sized() && g1 == Snapshot() && (forall q :: q in g0.cells <==> InMap(q))
      requires forall q | q in g0.growing :: InMap(q)
      requires forall i: nat, j: nat | i < sizeX && j < sizeY :: Pos(i, j) in g0.cells &&
                 points[i, j] == if Pos(i, j) in g0.growing && Growing(g0.cells[Pos(i, j)])
                                 then GrowPoint(g0.cells[Pos(i, j)], dt) else g0.cells[Pos(i, j)]
      requires growingPoints == set q | q in g0.growing && Growing(g0.cells[q])
      requires destroyed == set q | q in g0.growing && Growing(g0.cells[q]) && g0.cells[q].entity.Some? :: g0.cells[q].entity.value
      ensures g1 == Grown(g0, dt) && destroyed == GrownOn(g0)
    {
      var r := Grown(g0, dt);
      CellsAre(r.cells);
      assert growingPoints == r.growing;
    }

    // ---- water ----

    /** Only the water of a point differs. */
    static predicate WaterOnly(a: GridPoint, b: GridPoint)
    {
      b == a.(water := b.water)
    }

    /** A point below `level` holds no more water than reaches `level`. */
    ghost predicate Bounded(i: nat, j: nat, level: nat)
      reads this, points
      requires Sized() && i < sizeX && j < sizeY
    {
      points[i, j].height < level ==> points[i, j].water <= (level - points[i, j].height) as real
    }

    /** Map::waterTick, visiting the points x outer, y inner: a point below
        `level` and not yet full draws water from every neighbour standing
        higher, then a source tops up, and the water is clamped to `level`.
        `cols[i][j]` is the visit of point (i, j) with the order its
        neighbours were taken in. Points at or above the level never change,
        and every point below it ends up holding at most what reaches the
        level. */
    method WaterTick(dt: real, level: nat) returns (ghost cols: seq<seq<WaterStep>>)
      requires Valid() && DryAbove(level) && dt >= 0.0
      modifies points
      ensures Valid() && DryAbove(level)
      ensures forall i: nat, j: nat | i < sizeX && j < sizeY :: WaterOnly(old(points[i, j]), points[i, j])
      ensures forall i: nat, j: nat | i < sizeX && j < sizeY && old(points[i, j]).height >= level ::
                points[i, j] == old(points[i, j])
      ensures forall i: nat, j: nat | i < sizeX && j < sizeY :: Bounded(i, j, level)
      ensures |cols| == sizeX && (forall i | 0 <= i < sizeX :: Column(cols[i], i)) && ColumnsIn(old(Cells()), cols)
      ensures Cells() == Sweeps(old(Cells()), cols, dt, level)
    {
      ghost var c0 := Cells();
      SnapshotAt(Snapshot());
      DryCells(level);
      cols := WaterColumns(dt, level);
      WaterTickHeap(c0, cols, dt, level);
    }

    /** The loop of Map::waterTick over the columns. */
    method WaterColumns(dt: real, level: nat) returns (ghost cols: seq<seq<WaterStep>>)
      requires Sized() && DryAbove(level) && dt >= 0.0
      modifies points
      ensures |cols| == sizeX && (forall i | 0 <= i < sizeX :: Column(cols[i], i)) && ColumnsIn(old(Cells()), cols)
      ensures Cells() == Sweeps(old(Cells()), cols, dt, level)
    {
      ghost var c0 := Cells();
      cols := [];
      var x := 0;
      while x < sizeX
        invariant x <= sizeX && DryAbove(level)
        invariant |cols| == x && forall i | 0 <= i < x :: Column(cols[i], i)
        invariant ColumnsIn(c0, cols) && Cells() == Sweeps(c0, cols, dt, level)
      {
        cols := ColumnStep(x, dt, level, c0, cols);
        x := x + 1;
      }
    }

    /** One turn of the column loop: column `x` swept, and added to `cols`. */
    method ColumnStep(x: nat, dt: real, level: nat, ghost c0: imap<Pos, GridPoint>, ghost cols: seq<seq<WaterStep>>)
      returns (ghost cols': seq<seq<WaterStep>>)
      requires Sized() && x < sizeX && DryAbove(level) && dt >= 0.0
      requires |cols| == x && (forall i | 0 <= i < x :: Column(cols[i], i))
      requires ColumnsIn(c0, cols) && Cells() == Sweeps(c0, cols, dt, level)
      modifies points
      ensures DryAbove(level)
      ensures |cols'| == x + 1 && forall i | 0 <= i < x + 1 :: Column(cols'[i], i)
      ensures ColumnsIn(c0, cols') && Cells() == Sweeps(c0, cols', dt, level)
    {
      ghost var col := WaterColumn(x, dt, level);
      SweepsSnoc(c0, cols, col, dt, level);
      cols' := cols + [col];
    }

    /** The heap reading of SweepsFacts at the end of Map::waterTick. */
    lemma WaterTickHeap(c0: imap<Pos, GridPoint>, cols: seq<seq<WaterStep>>, dt: real, level: nat)
      requires Sized() && dt >= 0.0 && (forall q :: q in c0 <==> InMap(q)) && DryIn(c0, level)
      requires |cols| == sizeX && (forall i | 0 <= i < sizeX :: Column(cols[i], i)) && ColumnsIn(c0, cols)
      requires Cells() == Sweeps(c0, cols, dt, level)
      ensures DryAbove(level)
      ensures forall i: nat, j: nat | i < sizeX && j < sizeY :: WaterOnly(c0[Pos(i, j)], points[i, j])
      ensures forall i: nat, j: nat | i < sizeX && j < sizeY && c0[Pos(i, j)].height >= level ::
                points[i, j] == c0[Pos(i, j)]
      ensures forall i: nat, j: nat | i < sizeX && j < sizeY :: Bounded(i, j, level)
    {
      SweepsFacts(c0, cols, dt, level);
      SnapshotAt(Snapshot());
      DryCells(level);
      forall i: nat, j: nat | i < sizeX && j < sizeY
        ensures Bounded(i, j, level)
      {
        assert cols[i][j].at == Pos(i, j);
      }
    }

    /** The points of column `x` in turn. */
    method WaterColumn(x: nat, dt: real, level: nat) returns (ghost col: seq<WaterStep>)
      requires Sized() && x < sizeX && DryAbove(level) && dt >= 0.0
      modifies points
      ensures DryAbove(level)
      ensures Column(col, x) && StepsIn(old(Cells()), col)
      ensures Cells() == Sweep(old(Cells()), col, dt, level)
    {
      ghost var c0 := Cells();
      col := [];
      var y := 0;
      while y < sizeY
        invariant y <= sizeY && DryAbove(level)
        invariant ColumnSoFar(col, x, y)
        invariant StepsIn(c0, col) && Cells() == Sweep(c0, col, dt, level)
      {
        col := CellStep(x, y, dt, level, c0, col);
        y := y + 1;
      }
    }

    /** The first `y` visits of column `x`. */
    ghost predicate ColumnSoFar(col: seq<WaterStep>, x: nat, y: nat)
    {
      |col| == y && forall k | 0 <= k < y :: col[k].at == Pos(x, k) && NeighbourOrder(col[k].from, Nbrs(Pos(x, k)))
    }

    /** One turn of the loop over a column: point (x, y) visited, and its
        visit added to `col`. */
    method CellStep(x: nat, y: nat, dt: real, level: nat, ghost c0: imap<Pos, GridPoint>, ghost col: seq<WaterStep>)
      returns (ghost col': seq<WaterStep>)
      requires Sized() && x < sizeX && y < sizeY && DryAbove(level) && dt >= 0.0
      requires ColumnSoFar(col, x, y) && StepsIn(c0, col) && Cells() == Sweep(c0, col, dt, level)
      modifies points
      ensures DryAbove(level)
      ensures ColumnSoFar(col', x, y + 1) && StepsIn(c0, col') && Cells() == Sweep(c0, col', dt, level)
    {
      ghost var ns := WaterCell(x, y, dt, level);
      SweepSnoc(c0, col, WaterStep(Pos(x, y), ns), dt, level);
      col' := col + [WaterStep(Pos(x, y), ns)];
    }

    /** One point of Map::waterTick: flows only move water into (x, y), so
        every other point keeps at most the water it had. `ns` is the order
        the neighbours were taken in. */
    method WaterCell(x: nat, y: nat, dt: real, level: nat) returns (ghost ns: seq<Pos>)
      requires Sized() && x < sizeX && y < sizeY && DryAbove(level) && dt >= 0.0
      modifies points
      ensures DryAbove(level)
      ensures forall i: nat, j: nat | i < sizeX && j < sizeY :: WaterOnly(old(points[i, j]), points[i, j])
      ensures forall i: nat, j: nat | i < sizeX && j < sizeY && (i != x || j != y) ::
                points[i, j].water <= old(points[i, j]).water
      ensures Bounded(x, y, level)
      ensures NeighbourOrder(ns, Nbrs(Pos(x, y))) && Within(old(Cells()), ns)
      ensures Cells() == WaterVisit(old(Cells()), Pos(x, y), ns, dt, level)
    {
      ghost var c0 := Cells();
      SnapshotAt(Snapshot());
      DryCells(level);
      ns := WaterCellSteps(x, y, dt, level);
      WaterCellHeap(c0, Pos(x, y), ns, dt, level);
    }

    /** The body of WaterCell. */
    method WaterCellSteps(x: nat, y: nat, dt: real, level: nat) returns (ghost ns: seq<Pos>)
      requires Sized() && x < sizeX && y < sizeY && DryAbove(level) && dt >= 0.0
      modifies points
      ensures NeighbourOrder(ns, Nbrs(Pos(x, y))) && Within(old(Cells()), ns)
      ensures Cells() == WaterVisit(old(Cells()), Pos(x, y), ns, dt, level)
    {
      ghost var c0 := Cells();
      SnapshotAt(Snapshot());
      var p := points[x, y];
      if p.height < level {
        if p.water < (level - p.height) as real {
          ns := DrawAll(x, y, FLOW_PER_S * dt, level);
        } else {
          ns := SomeOrder(Nbrs(Pos(x, y)));
          WithinMap(c0, ns, Pos(x, y));
        }
        ghost var flowed := Cells();
        TopUp(x, y, dt, level);
        WaterVisitBelow(c0, Pos(x, y), ns, dt, level, flowed);
      } else {
        ns := SomeOrder(Nbrs(Pos(x, y)));
        WithinMap(c0, ns, Pos(x, y));
      }
    }

    /** The neighbour loop of Map::waterTick at (x, y). */
    method DrawAll(x: nat, y: nat, rate: real, ghost level: nat) returns (ghost ns: seq<Pos>)
      requires Sized() && x < sizeX && y < sizeY && DryAbove(level) && rate >= 0.0 && points[x, y].height < level
      modifies points
      ensures NeighbourOrder(ns, Nbrs(Pos(x, y))) && Within(old(Cells()), ns)
      ensures Cells() == FlowAll(old(Cells()), Pos(x, y), ns, rate)
      ensures points[x, y].height < level
    {
      ghost var c0 := Cells();
      SnapshotAt(Snapshot());
      var todo := Nbrs(Pos(x, y));
      ns := [];
      while todo != {}
        invariant todo <= Nbrs(Pos(x, y)) && DryAbove(level) && points[x, y].height < level
        invariant Ordered(ns, todo, Nbrs(Pos(x, y))) && Within(c0, ns)
        invariant Cells() == FlowAll(c0, Pos(x, y), ns, rate)
        decreases todo
      {
        var n :| n in todo;
        FlowInto(Pos(x, y), n, c0, ns, rate, level);
        OrderedSnoc(ns, todo, Nbrs(Pos(x, y)), n);
        ns := ns + [n];
        todo := todo - {n};
      }
      OrderedDone(ns, Nbrs(Pos(x, y)));
    }

    /** The heap reading of WaterVisitFacts at the end of WaterCell. */
    lemma WaterCellHeap(c0: imap<Pos, GridPoint>, c: Pos, ns: seq<Pos>, dt: real, level: nat)
      requires Sized() && InMap(c) && dt >= 0.0 && (forall q :: q in c0 <==> InMap(q)) && Within(c0, ns)
      requires DryIn(c0, level) && Cells() == WaterVisit(c0, c, ns, dt, level)
      ensures DryAbove(level)
      ensures forall i: nat, j: nat | i < sizeX && j < sizeY :: WaterOnly(c0[Pos(i, j)], points[i, j])
      ensures forall i: nat, j: nat | i < sizeX && j < sizeY && Pos(i, j) != c :: points[i, j].water <= c0[Pos(i, j)].water
      ensures Bounded(c.x, c.y, level)
    {
      WaterVisitFacts(c0, c, ns, dt, level);
      SnapshotAt(Snapshot());
      DryCells(level);
    }

    /** Neighbours are cells. */
    lemma WithinMap(c0: imap<Pos, GridPoint>, ns: seq<Pos>, c: Pos)
      requires (forall q :: q in c0 <==> InMap(q)) && NeighbourOrder(ns, Nbrs(c))
      ensures Within(c0, ns)
    {
      forall k | 0 <= k < |ns|
        ensures ns[k] in c0
      {
        assert ns[k] in Nbrs(c);
      }
    }

    /** DryAbove on the array is DryIn on its snapshot. */
    lemma DryCells(level: nat)
      requires Sized()
      ensures DryAbove(level) <==> DryIn(Cells(), level)
    {
      SnapshotAt(Snapshot());
      if DryAbove(level) {
        forall q | q in Cells() && Cells()[q].height >= level
          ensures Cells()[q].water == 0.0
        {
          assert points[q.x, q.y] == Cells()[Pos(q.x, q.y)];
        }
      }
    }

    /** One flow of Map::waterTick, from neighbour `n` into `c`, on the
        snapshot the flows so far have left. */
    method FlowInto(c: Pos, n: Pos, ghost c0: imap<Pos, GridPoint>, ghost ns: seq<Pos>, rate: real, ghost level: nat)
      requires Sized() && InMap(c) && n in Nbrs(c) && rate >= 0.0 && DryAbove(level) && points[c.x, c.y].height < level
      requires (forall q :: q in c0 <==> InMap(q)) && Within(c0, ns)
      requires Cells() == FlowAll(c0, c, ns, rate)
      modifies points
      ensures DryAbove(level)
      ensures forall i: nat, j: nat | i < sizeX && j < sizeY :: WaterOnly(old(points[i, j]), points[i, j])
      ensures forall i: nat, j: nat | i < sizeX && j < sizeY && Pos(i, j) != c ::
                points[i, j].water <= old(points[i, j]).water
      ensures points[c.x, c.y].height < level
      ensures Within(c0, ns + [n])
      ensures Cells() == FlowAll(c0, c, ns + [n], rate)
    {
      ghost var pre := Cells();
      SnapshotAt(Snapshot());
      FlowPair(c, n, rate, level);
      FlowBridge(pre, c, n, rate);
      FlowAllSnoc(c0, c, ns, n, rate);
    }

    static lemma FlowAllSnoc(c0: imap<Pos, GridPoint>, c: Pos, ns: seq<Pos>, n: Pos, rate: real)
      requires rate >= 0.0 && c in c0 && n in c0 && Within(c0, ns)
      ensures Within(c0, ns + [n])
      ensures var pre := FlowAll(c0, c, ns, rate);
              FlowAll(c0, c, ns + [n], rate) == pre[c := Flow(pre[c], pre[n], rate).0][n := Flow(pre[c], pre[n], rate).1]
    {
      assert (ns + [n])[..|ns|] == ns;
    }

    /** The assignments of one flow. */
    method FlowPair(c: Pos, n: Pos, rate: real, ghost level: nat)
      requires Sized() && InMap(c) && n in Nbrs(c) && rate >= 0.0 && DryAbove(level) && points[c.x, c.y].height < level
      modifies points
      ensures DryAbove(level)
      ensures forall i: nat, j: nat | i < sizeX && j < sizeY :: WaterOnly(old(points[i, j]), points[i, j])
      ensures forall i: nat, j: nat | i < sizeX && j < sizeY && Pos(i, j) != c ::
                points[i, j].water <= old(points[i, j]).water
      ensures points[c.x, c.y].height < level
      ensures forall i: nat, j: nat | i < sizeX && j < sizeY ::
                points[i, j] == if Pos(i, j) == n then Flow(old(points[c.x, c.y]), old(points[n.x, n.y]), rate).1
                                else if Pos(i, j) == c then Flow(old(points[c.x, c.y]), old(points[n.x, n.y]), rate).0
                                else old(points[i, j])
    {
      var r := Flow(points[c.x, c.y], points[n.x, n.y], rate);
      points[c.x, c.y] := r.0;
      points[n.x, n.y] := r.1;
    }

    /** The array after FlowPair holds the snapshot with both points
        replaced. */
    lemma FlowBridge(pre: imap<Pos, GridPoint>, c: Pos, n: Pos, rate: real)
      requires Sized() && InMap(c) && n in Nbrs(c) && rate >= 0.0 && (forall q :: q in pre <==> InMap(q))
      requires c in pre && n in pre
      requires forall i: nat, j: nat | i < sizeX && j < sizeY :: Pos(i, j) in pre &&
                 points[i, j] == if Pos(i, j) == n then Flow(pre[c], pre[n], rate).1
                                 else if Pos(i, j) == c then Flow(pre[c], pre[n], rate).0
                                 else pre[Pos(i, j)]
      ensures Cells() == pre[c := Flow(pre[c], pre[n], rate).0][n := Flow(pre[c], pre[n], rate).1]
    {
      CellsAre(pre[c := Flow(pre[c], pre[n], rate).0][n := Flow(pre[c], pre[n], rate).1]);
    }

    /** The last step of Map::waterTick on a point below the level. */
    method TopUp(x: nat, y: nat, dt: real, level: nat)
      requires Sized() && x < sizeX && y < sizeY && dt >= 0.0 && points[x, y].height < level
      modifies points
      ensures Pos(x, y) in old(Cells())
      ensures Cells() == old(Cells())[Pos(x, y) := TopUpAndClamp(old(Cells())[Pos(x, y)], dt, level)]
    {
      ghost var pre := Cells();
      SnapshotAt(Snapshot());
      points[x, y] := TopUpAndClamp(points[x, y], dt, level);
      CellsAre(pre[Pos(x, y) := points[x, y]]);
    }

    // ---- water, on values ----

    /** Every position of `ns` is a cell. */
    static ghost predicate Within(cells: imap<Pos, GridPoint>, ns: seq<Pos>)
    {
      forall k | 0 <= k < |ns| :: ns[k] in cells
    }

    /** `ns` lists the elements of `s`, each once: an order forNeighbors may
        visit them in. */
    static ghost predicate NeighbourOrder(ns: seq<Pos>, s: set<Pos>)
    {
      (forall q :: q in ns <==> q in s) && forall a, b | 0 <= a < b < |ns| :: ns[a] != ns[b]
    }

    /** `done` lists, each once, the elements of `all` not left in `todo`. */
    static ghost predicate Ordered(done: seq<Pos>, todo: set<Pos>, all: set<Pos>)
    {
      (forall q :: q in all <==> q in todo || q in done) &&
      (forall q | q in done :: q !in todo) &&
      forall a, b | 0 <= a < b < |done| :: done[a] != done[b]
    }

    static lemma OrderedSnoc(done: seq<Pos>, todo: set<Pos>, all: set<Pos>, n: Pos)
      requires Ordered(done, todo, all) && n in todo
      ensures Ordered(done + [n], todo - {n}, all)
    {
      forall q
        ensures q in done + [n] <==> q in done || q == n
      {
      }
    }

    static lemma OrderedDone(done: seq<Pos>, all: set<Pos>)
      requires Ordered(done, {}, all)
      ensures NeighbourOrder(done, all)
    {
    }

    /** Every finite set has an order. */
    static lemma {:induction false} SomeOrder(s: set<Pos>) returns (ns: seq<Pos>)
      ensures NeighbourOrder(ns, s)
      decreases |s|
    {
      if s == {} {
        ns := [];
      } else {
        var q :| q in s;
        var rest := SomeOrder(s - {q});
        ns := [q] + rest;
        forall a, b | 0 <= a < b < |ns|
          ensures ns[a] != ns[b]
        {
          if a > 0 {
            assert ns[a] == rest[a - 1] && ns[b] == rest[b - 1];
          } else {
            assert ns[b] in rest;
          }
        }
        forall r
          ensures r in ns <==> r in s
        {
          assert r in ns <==> r == q || r in rest;
        }
      }
    }

    /** The flows of Map::waterTick into `c` from the neighbours `ns`, taken
        in that order: each moves water from a neighbour standing higher into
        `c`. Only water changes, and only `c` gains any. */
    static ghost function FlowAll(cells: imap<Pos, GridPoint>, c: Pos, ns: seq<Pos>, rate: real): (r: imap<Pos, GridPoint>)
      requires rate >= 0.0 && c in cells && Within(cells, ns)
      ensures forall q :: q in r <==> q in cells
      ensures forall q | q in cells :: WaterOnly(cells[q], r[q])
      decreases |ns|
    {
      if ns == [] then cells
      else
        var pre := FlowAll(cells, c, ns[..|ns| - 1], rate);
        var n := ns[|ns| - 1];
        var f := Flow(pre[c], pre[n], rate);
        pre[c := f.0][n := f.1]
    }

    /** The flows only take water from the neighbours: no point but `c`
        gains, a dry point gives nothing, and a point not among `ns` is left
        alone. */
    static lemma FlowAllFacts(cells: imap<Pos, GridPoint>, c: Pos, ns: seq<Pos>, rate: real)
      requires rate >= 0.0 && c in cells && Within(cells, ns)
      ensures var r := FlowAll(cells, c, ns, rate);
              (forall q | q in cells && q != c :: r[q].water <= cells[q].water) &&
              (forall q | q in cells && q != c && cells[q].water == 0.0 :: r[q] == cells[q]) &&
              (forall q | q in cells && q != c && q !in ns :: r[q] == cells[q])
    {
      FlowAllGives(cells, c, ns, rate);
      FlowAllDry(cells, c, ns, rate);
      FlowAllElsewhere(cells, c, ns, rate);
    }

    /** The last flow of FlowAll, seen from a point other than `c`. */
    static lemma FlowAllLast(cells: imap<Pos, GridPoint>, c: Pos, ns: seq<Pos>, rate: real, q: Pos)
      requires rate >= 0.0 && c in cells && Within(cells, ns) && ns != [] && q in cells && q != c
      ensures Within(cells, ns[..|ns| - 1])
      ensures var pre := FlowAll(cells, c, ns[..|ns| - 1], rate);
              var n := ns[|ns| - 1];
              FlowAll(cells, c, ns, rate)[q] == if q == n then Flow(pre[c], pre[n], rate).1 else pre[q]
    {
    }

    static lemma {:induction false} FlowAllGives(cells: imap<Pos, GridPoint>, c: Pos, ns: seq<Pos>, rate: real)
      requires rate >= 0.0 && c in cells && Within(cells, ns)
      ensures forall q | q in cells && q != c :: FlowAll(cells, c, ns, rate)[q].water <= cells[q].water
      decreases |ns|
    {
      if ns != [] {
        var init := ns[..|ns| - 1];
        assert Within(cells, init);
        FlowAllGives(cells, c, init, rate);
        forall q | q in cells && q != c
          ensures FlowAll(cells, c, ns, rate)[q].water <= cells[q].water
        {
          FlowAllLast(cells, c, ns, rate, q);
        }
      }
    }

    static lemma {:induction false} FlowAllDry(cells: imap<Pos, GridPoint>, c: Pos, ns: seq<Pos>, rate: real)
      requires rate >= 0.0 && c in cells && Within(cells, ns)
      ensures forall q | q in cells && q != c && cells[q].water == 0.0 :: FlowAll(cells, c, ns, rate)[q] == cells[q]
      decreases |ns|
    {
      if ns != [] {
        var init := ns[..|ns| - 1];
        assert Within(cells, init);
        FlowAllDry(cells, c, init, rate);
        forall q | q in cells && q != c && cells[q].water == 0.0
          ensures FlowAll(cells, c, ns, rate)[q] == cells[q]
        {
          FlowAllLast(cells, c, ns, rate, q);
        }
      }
    }

    static lemma {:induction false} FlowAllElsewhere(cells: imap<Pos, GridPoint>, c: Pos, ns: seq<Pos>, rate: real)
      requires rate >= 0.0 && c in cells && Within(cells, ns)
      ensures forall q | q in cells && q != c && q !in ns :: FlowAll(cells, c, ns, rate)[q] == cells[q]
      decreases |ns|
    {
      if ns != [] {
        var init := ns[..|ns| - 1];
        assert Within(cells, init);
        FlowAllElsewhere(cells, c, init, rate);
        forall q | q in cells && q != c && q !in ns
          ensures FlowAll(cells, c, ns, rate)[q] == cells[q]
        {
          FlowAllLast(cells, c, ns, rate, q);
          assert q !in init;
        }
      }
    }

    /** The water the points `ns` hold less in `after` than in `before`. */
    static ghost function Lost(before: imap<Pos, GridPoint>, after: imap<Pos, GridPoint>, ns: seq<Pos>): real
      requires Within(before, ns) && Within(after, ns)
      decreases |ns|
    {
      if ns == [] then 0.0
      else
        var n := |ns| - 1;
        Lost(before, after, ns[..n]) + (before[ns[n]].water - after[ns[n]].water)
    }

    /** Lost reads `after` only at `ns`. */
    static lemma {:induction false} LostSame(before: imap<Pos, GridPoint>, a: imap<Pos, GridPoint>, b: imap<Pos, GridPoint>, ns: seq<Pos>)
      requires Within(before, ns) && Within(a, ns) && Within(b, ns)
      requires forall k | 0 <= k < |ns| :: a[ns[k]].water == b[ns[k]].water
      ensures Lost(before, a, ns) == Lost(before, b, ns)
      decreases |ns|
    {
      if ns != [] {
        var n := |ns| - 1;
        assert forall k | 0 <= k < n :: ns[..n][k] == ns[k];
        LostSame(before, a, b, ns[..n]);
      }
    }

    /** The flows into `c` conserve water: when `c` is not among the distinct
        neighbours `ns`, `c` gains exactly what they lose. */
    static lemma {:induction false} FlowAllConserves(cells: imap<Pos, GridPoint>, c: Pos, ns: seq<Pos>, rate: real)
      requires rate >= 0.0 && c in cells && Within(cells, ns)
      requires c !in ns && forall a, b | 0 <= a < b < |ns| :: ns[a] != ns[b]
      ensures Within(FlowAll(cells, c, ns, rate), ns)
      ensures FlowAll(cells, c, ns, rate)[c].water == cells[c].water + Lost(cells, FlowAll(cells, c, ns, rate), ns)
      decreases |ns|
    {
      if ns != [] {
        var n := |ns| - 1;
        var init, m := ns[..n], ns[n];
        assert forall k | 0 <= k < n :: init[k] == ns[k];
        assert Within(cells, init) && m !in init;
        FlowAllConserves(cells, c, init, rate);
        FlowAllElsewhere(cells, c, init, rate);
        FlowLast(cells, c, ns, rate);
        var pre, r := FlowAll(cells, c, init, rate), FlowAll(cells, c, ns, rate);
        LostSame(cells, r, pre, init);
        assert Lost(cells, r, ns) == Lost(cells, r, init) + (cells[m].water - r[m].water);
      }
    }

    /** The last flow of FlowAll moves water between `c` and the last
        neighbour only. */
    static lemma FlowLast(cells: imap<Pos, GridPoint>, c: Pos, ns: seq<Pos>, rate: real)
      requires rate >= 0.0 && c in cells && Within(cells, ns) && ns != []
      requires c !in ns && forall a, b | 0 <= a < b < |ns| :: ns[a] != ns[b]
      ensures var pre := FlowAll(cells, c, ns[..|ns| - 1], rate);
              var r := FlowAll(cells, c, ns, rate);
              r[c].water + r[ns[|ns| - 1]].water == pre[c].water + pre[ns[|ns| - 1]].water &&
              forall k | 0 <= k < |ns| - 1 :: r[ns[k]].water == pre[ns[k]].water
    {
      var n := |ns| - 1;
      var init, m := ns[..n], ns[n];
      assert forall k | 0 <= k < n :: init[k] == ns[k] && ns[k] != m && ns[k] != c;
      var pre := FlowAll(cells, c, init, rate);
      var f := Flow(pre[c], pre[m], rate);
      assert FlowAll(cells, c, ns, rate) == pre[c := f.0][m := f.1];
    }

    /** One point of Map::waterTick on values: below the level and not yet
        full, it draws from its neighbours in the order `ns`; below the level
        it is then topped up and clamped; otherwise nothing changes. */
    static ghost function WaterVisit(cells: imap<Pos, GridPoint>, c: Pos, ns: seq<Pos>, dt: real, level: nat): (r: imap<Pos, GridPoint>)
      requires dt >= 0.0 && c in cells && Within(cells, ns)
      ensures forall q :: q in r <==> q in cells
    {
      var p := cells[c];
      if p.height < level then
        var flowed := if p.water < (level - p.height) as real then FlowAll(cells, c, ns, FLOW_PER_S * dt) else cells;
        flowed[c := TopUpAndClamp(flowed[c], dt, level)]
      else
        cells
    }

    /** The visits of column `x`, y ascending, each with an order of the
        point's neighbours. */
    ghost predicate Column(col: seq<WaterStep>, x: nat)
    {
      |col| == sizeY &&
      forall k | 0 <= k < |col| :: col[k].at == Pos(x, k) && NeighbourOrder(col[k].from, Nbrs(Pos(x, k)))
    }

    /** Every visit of `steps` is at a cell and draws from cells. */
    static ghost predicate StepsIn(cells: imap<Pos, GridPoint>, steps: seq<WaterStep>)
    {
      forall k | 0 <= k < |steps| :: steps[k].at in cells && Within(cells, steps[k].from)
    }

    /** The visits `steps` in turn. */
    static ghost function Sweep(cells: imap<Pos, GridPoint>, steps: seq<WaterStep>, dt: real, level: nat): (r: imap<Pos, GridPoint>)
      requires dt >= 0.0 && StepsIn(cells, steps)
      ensures forall q :: q in r <==> q in cells
      decreases |steps|
    {
      if steps == [] then cells
      else
        var n := |steps| - 1;
        var pre := Sweep(cells, steps[..n], dt, level);
        assert StepsIn(cells, steps[..n]);
        WaterVisit(pre, steps[n].at, steps[n].from, dt, level)
    }

    /** The columns `cols` in turn. */
    static ghost function Sweeps(cells: imap<Pos, GridPoint>, cols: seq<seq<WaterStep>>, dt: real, level: nat): (r: imap<Pos, GridPoint>)
      requires dt >= 0.0 && ColumnsIn(cells, cols)
      ensures forall q :: q in r <==> q in cells
      decreases |cols|
    {
      if cols == [] then cells
      else
        var n := |cols| - 1;
        var pre := Sweeps(cells, cols[..n], dt, level);
        StepsInSame(cells, pre, cols[n]);
        Sweep(pre, cols[n], dt, level)
    }

    static lemma StepsInSame(a: imap<Pos, GridPoint>, b: imap<Pos, GridPoint>, steps: seq<WaterStep>)
      requires StepsIn(a, steps) && forall q :: q in a <==> q in b
      ensures StepsIn(b, steps)
    {
      forall k | 0 <= k < |steps|
        ensures steps[k].at in b && Within(b, steps[k].from)
      {
        assert Within(a, steps[k].from);
      }
    }

    static lemma SweepSnoc(cells: imap<Pos, GridPoint>, steps: seq<WaterStep>, v: WaterStep, dt: real, level: nat)
      requires dt >= 0.0 && StepsIn(cells, steps) && v.at in cells && Within(cells, v.from)
      ensures StepsIn(cells, steps + [v])
      ensures Sweep(cells, steps + [v], dt, level) ==
              WaterVisit(Sweep(cells, steps, dt, level), v.at, v.from, dt, level)
    {
      assert (steps + [v])[..|steps|] == steps;
    }

    static lemma SweepsSnoc(cells: imap<Pos, GridPoint>, cols: seq<seq<WaterStep>>, col: seq<WaterStep>, dt: real, level: nat)
      requires dt >= 0.0 && ColumnsIn(cells, cols)
      requires StepsIn(Sweeps(cells, cols, dt, level), col)
      ensures ColumnsIn(cells, cols + [col])
      ensures Sweeps(cells, cols + [col], dt, level) == Sweep(Sweeps(cells, cols, dt, level), col, dt, level)
    {
      StepsInSame(Sweeps(cells, cols, dt, level), cells, col);
      assert (cols + [col])[..|cols|] == cols;
    }

    /** Every column of `cols` visits cells only. */
    static ghost predicate ColumnsIn(cells: imap<Pos, GridPoint>, cols: seq<seq<WaterStep>>)
    {
      forall i | 0 <= i < |cols| :: StepsIn(cells, cols[i])
    }

    /** No point at or above `level` holds water. */
    static ghost predicate DryIn(cells: imap<Pos, GridPoint>, level: nat)
    {
      forall q | q in cells && cells[q].height >= level :: cells[q].water == 0.0
    }

    /** Point `q`, if below `level`, holds at most what reaches `level`. */
    static ghost predicate BoundedAt(cells: imap<Pos, GridPoint>, q: Pos, level: nat)
      requires q in cells
    {
      cells[q].height < level ==> cells[q].water <= (level - cells[q].height) as real
    }

    /** One visit of Map::waterTick changes only water; every point but the
        visited one keeps at most its water, the visited one ends bounded by
        the level, and a grid dry above the level stays so. */
    static lemma WaterVisitFacts(cells: imap<Pos, GridPoint>, c: Pos, ns: seq<Pos>, dt: real, level: nat)
      requires dt >= 0.0 && c in cells && Within(cells, ns)
      ensures var r := WaterVisit(cells, c, ns, dt, level);
              (forall q | q in cells :: WaterOnly(cells[q], r[q])) &&
              (forall q | q in cells && q != c :: r[q].water <= cells[q].water) &&
              BoundedAt(r, c, level) &&
              (DryIn(cells, level) ==> DryIn(r, level))
    {
      WaterVisitOthers(cells, c, ns, dt, level);
      if DryIn(cells, level) {
        WaterVisitDry(cells, c, ns, dt, level);
      }
    }

    /** The flows of a visit, when it makes any. */
    static ghost function Flowed(cells: imap<Pos, GridPoint>, c: Pos, ns: seq<Pos>, dt: real, level: nat): (f: imap<Pos, GridPoint>)
      requires dt >= 0.0 && c in cells && Within(cells, ns)
      ensures forall q :: q in f <==> q in cells
      ensures forall q | q in cells :: WaterOnly(cells[q], f[q])
    {
      var p := cells[c];
      if p.height < level && p.water < (level - p.height) as real then FlowAll(cells, c, ns, FLOW_PER_S * dt) else cells
    }

    static lemma WaterVisitOthers(cells: imap<Pos, GridPoint>, c: Pos, ns: seq<Pos>, dt: real, level: nat)
      requires dt >= 0.0 && c in cells && Within(cells, ns)
      ensures var r := WaterVisit(cells, c, ns, dt, level);
              (forall q | q in cells :: WaterOnly(cells[q], r[q])) &&
              (forall q | q in cells && q != c :: r[q].water <= cells[q].water) &&
              BoundedAt(r, c, level)
    {
      var f := Flowed(cells, c, ns, dt, level);
      if cells[c].height < level {
        FlowAllFacts(cells, c, ns, FLOW_PER_S * dt);
        WaterVisitBelow(cells, c, ns, dt, level, f);
      }
    }

    static lemma WaterVisitDry(cells: imap<Pos, GridPoint>, c: Pos, ns: seq<Pos>, dt: real, level: nat)
      requires dt >= 0.0 && c in cells && Within(cells, ns) && DryIn(cells, level)
      ensures DryIn(WaterVisit(cells, c, ns, dt, level), level)
    {
      var f := Flowed(cells, c, ns, dt, level);
      if cells[c].height < level {
        FlowAllFacts(cells, c, ns, FLOW_PER_S * dt);
        WaterVisitBelow(cells, c, ns, dt, level, f);
        var r := WaterVisit(cells, c, ns, dt, level);
        forall q | q in r && r[q].height >= level
          ensures r[q].water == 0.0
        {
          assert WaterOnly(cells[q], f[q]);
        }
      }
    }

    /** WaterVisit at a point below the level: the flows, if any, then the
        top-up. */
    static lemma WaterVisitBelow(cells: imap<Pos, GridPoint>, c: Pos, ns: seq<Pos>, dt: real, level: nat, flowed: imap<Pos, GridPoint>)
      requires dt >= 0.0 && c in cells && Within(cells, ns) && cells[c].height < level
      requires flowed == if cells[c].water < (level - cells[c].height) as real then FlowAll(cells, c, ns, FLOW_PER_S * dt) else cells
      ensures c in flowed && flowed[c].height < level
      ensures WaterVisit(cells, c, ns, dt, level) == flowed[c := TopUpAndClamp(flowed[c], dt, level)]
    {
    }

    /** What a sweep keeps: only water changes, a grid dry above the level
        stays so, every visited point ends bounded by the level and a bounded
        point stays bounded. */
    static lemma SweepFacts(cells: imap<Pos, GridPoint>, steps: seq<WaterStep>, dt: real, level: nat)
      requires dt >= 0.0 && StepsIn(cells, steps)
      ensures var r := Sweep(cells, steps, dt, level);
              (forall q | q in cells :: WaterOnly(cells[q], r[q])) &&
              (DryIn(cells, level) ==> DryIn(r, level)) &&
              (forall k | 0 <= k < |steps| :: BoundedAt(r, steps[k].at, level)) &&
              (forall q | q in cells && BoundedAt(cells, q, level) :: BoundedAt(r, q, level))
    {
      SweepWaterOnly(cells, steps, dt, level);
      if DryIn(cells, level) {
        SweepDry(cells, steps, dt, level);
      }
      SweepBounded(cells, steps, dt, level);
    }

    static lemma {:induction false} SweepWaterOnly(cells: imap<Pos, GridPoint>, steps: seq<WaterStep>, dt: real, level: nat)
      requires dt >= 0.0 && StepsIn(cells, steps)
      ensures forall q | q in cells :: WaterOnly(cells[q], Sweep(cells, steps, dt, level)[q])
      decreases |steps|
    {
      if steps != [] {
        var n := |steps| - 1;
        var pre := Sweep(cells, steps[..n], dt, level);
        assert StepsIn(cells, steps[..n]);
        SweepWaterOnly(cells, steps[..n], dt, level);
        var v := steps[n];
        assert Within(cells, v.from);
        WaterVisitFacts(pre, v.at, v.from, dt, level);
      }
    }

    static lemma {:induction false} SweepDry(cells: imap<Pos, GridPoint>, steps: seq<WaterStep>, dt: real, level: nat)
      requires dt >= 0.0 && StepsIn(cells, steps) && DryIn(cells, level)
      ensures DryIn(Sweep(cells, steps, dt, level), level)
      decreases |steps|
    {
      if steps != [] {
        var n := |steps| - 1;
        var pre := Sweep(cells, steps[..n], dt, level);
        assert StepsIn(cells, steps[..n]);
        SweepDry(cells, steps[..n], dt, level);
        var v := steps[n];
        assert Within(cells, v.from);
        WaterVisitFacts(pre, v.at, v.from, dt, level);
      }
    }

    static lemma {:induction false} SweepBounded(cells: imap<Pos, GridPoint>, steps: seq<WaterStep>, dt: real, level: nat)
      requires dt >= 0.0 && StepsIn(cells, steps)
      ensures forall k | 0 <= k < |steps| :: BoundedAt(Sweep(cells, steps, dt, level), steps[k].at, level)
      ensures forall q | q in cells && BoundedAt(cells, q, level) :: BoundedAt(Sweep(cells, steps, dt, level), q, level)
      decreases |steps|
    {
      if steps != [] {
        var n := |steps| - 1;
        var pre := Sweep(cells, steps[..n], dt, level);
        assert StepsIn(cells, steps[..n]);
        SweepBounded(cells, steps[..n], dt, level);
        var v := steps[n];
        assert Within(cells, v.from);
        WaterVisitFacts(pre, v.at, v.from, dt, level);
        var r := Sweep(cells, steps, dt, level);
        forall q | q in pre && BoundedAt(pre, q, level)
          ensures BoundedAt(r, q, level)
        {
          VisitKeepsBounded(pre, v, dt, level, q);
        }
        forall k | 0 <= k < |steps|
          ensures BoundedAt(r, steps[k].at, level)
        {
          if k < n {
            assert steps[k] == steps[..n][k];
          }
        }
      }
    }

    /** A visit keeps every bounded point bounded. */
    static lemma VisitKeepsBounded(cells: imap<Pos, GridPoint>, v: WaterStep, dt: real, level: nat, q: Pos)
      requires dt >= 0.0 && v.at in cells && Within(cells, v.from) && q in cells && BoundedAt(cells, q, level)
      ensures BoundedAt(WaterVisit(cells, v.at, v.from, dt, level), q, level)
    {
      WaterVisitFacts(cells, v.at, v.from, dt, level);
      var r := WaterVisit(cells, v.at, v.from, dt, level);
      assert WaterOnly(cells[q], r[q]);
    }

    /** SweepFacts over whole columns. */
    static lemma SweepsFacts(cells: imap<Pos, GridPoint>, cols: seq<seq<WaterStep>>, dt: real, level: nat)
      requires dt >= 0.0 && ColumnsIn(cells, cols)
      ensures var r := Sweeps(cells, cols, dt, level);
              (forall q | q in cells :: WaterOnly(cells[q], r[q])) &&
              (DryIn(cells, level) ==> DryIn(r, level)) &&
              (forall i, k | 0 <= i < |cols| && 0 <= k < |cols[i]| :: BoundedAt(r, cols[i][k].at, level))
    {
      SweepsWaterOnly(cells, cols, dt, level);
      if DryIn(cells, level) {
        SweepsDry(cells, cols, dt, level);
      }
      SweepsBounded(cells, cols, dt, level);
    }

    static lemma {:induction false} SweepsWaterOnly(cells: imap<Pos, GridPoint>, cols: seq<seq<WaterStep>>, dt: real, level: nat)
      requires dt >= 0.0 && ColumnsIn(cells, cols)
      ensures forall q | q in cells :: WaterOnly(cells[q], Sweeps(cells, cols, dt, level)[q])
      decreases |cols|
    {
      if cols != [] {
        var n := |cols| - 1;
        var pre := Sweeps(cells, cols[..n], dt, level);
        assert ColumnsIn(cells, cols[..n]);
        SweepsWaterOnly(cells, cols[..n], dt, level);
        StepsInSame(cells, pre, cols[n]);
        SweepWaterOnly(pre, cols[n], dt, level);
      }
    }

    static lemma {:induction false} SweepsDry(cells: imap<Pos, GridPoint>, cols: seq<seq<WaterStep>>, dt: real, level: nat)
      requires dt >= 0.0 && ColumnsIn(cells, cols) && DryIn(cells, level)
      ensures DryIn(Sweeps(cells, cols, dt, level), level)
      decreases |cols|
    {
      if cols != [] {
        var n := |cols| - 1;
        var pre := Sweeps(cells, cols[..n], dt, level);
        assert ColumnsIn(cells, cols[..n]);
        SweepsDry(cells, cols[..n], dt, level);
        StepsInSame(cells, pre, cols[n]);
        SweepDry(pre, cols[n], dt, level);
      }
    }

    static lemma {:induction false} SweepsBounded(cells: imap<Pos, GridPoint>, cols: seq<seq<WaterStep>>, dt: real, level: nat)
      requires dt >= 0.0 && ColumnsIn(cells, cols)
      ensures forall i, k | 0 <= i < |cols| && 0 <= k < |cols[i]| :: BoundedAt(Sweeps(cells, cols, dt, level), cols[i][k].at, level)
      decreases |cols|
    {
      if cols != [] {
        var n := |cols| - 1;
        var pre := Sweeps(cells, cols[..n], dt, level);
        assert ColumnsIn(cells, cols[..n]);
        SweepsBounded(cells, cols[..n], dt, level);
        StepsInSame(cells, pre, cols[n]);
        SweepBounded(pre, cols[n], dt, level);
        var r := Sweeps(cells, cols, dt, level);
        forall i, k | 0 <= i < |cols| && 0 <= k < |cols[i]|
          ensures BoundedAt(r, cols[i][k].at, level)
        {
          if i < n {
            assert cols[i] == cols[..n][i];
            assert cols[i][k].at in pre by {
              assert StepsIn(cells, cols[i]);
            }
          }
        }
      }
    }

    /** Resets the cascadeUp flag of `c` once its neighbours are done. */
    method ClearUp(c: Pos)
      requires Shaped() && InMap(c)
      modifies points
      ensures Shaped()
      ensures forall i: nat, j: nat | i < sizeX && j < sizeY ::
                points[i, j] == if Pos(i, j) == c then old(points[i, j]).(cascadeUp := false) else old(points[i, j])
    {
      points[c.x, c.y] := points[c.x, c.y].(cascadeUp := false);
    }

    /** Resets the cascadeDown flag of `c` once its neighbours are done. */
    method ClearDown(c: Pos)
      requires Shaped() && InMap(c)
      modifies points
      ensures Shaped()
      ensures forall i: nat, j: nat | i < sizeX && j < sizeY ::
                points[i, j] == if Pos(i, j) == c then old(points[i, j]).(cascadeDown := false) else old(points[i, j])
    {
      points[c.x, c.y] := points[c.x, c.y].(cascadeDown := false);
    }
  }
}
