/**
 * Collision detection: the per-sprite record the tests work on, the test of
 * a sprite against the mouse, the view or the tile map, and the test of two
 * sprites through a chosen collision kernel, a shared raycast cache and an
 * optional quadtree filter.
 *
 * The kernels themselves (circle, bounding box, raycast sweep, pixel
 * perfect), the quadtree query, the tile map's walkability lookup, the
 * drawable's global bounds and the sprite's radius are computed outside
 * this model and come in as parameters.
 */
module Collision {
  import opened Results
  import opened Geometry
  import opened CppInt
  import opened Sprites

  /** `CollisionData`: what a collision kernel may look at for one sprite. */
  datatype CollisionData = CollisionData(
    position: Vec2,
    radius: real,
    direction: Vec2,
    speed: real,
    acceleration: Vec2,
    size: Vec2,
    bitmask: Option<seq<bv8>>,
    bounds: FloatRect)

  /**
   * `extractCollisionData`. `globalBounds` is the drawable's bounds in world
   * coordinates and `radius` the sprite's `getRadius`. An animated sprite is
   * placed at the top-left corner of its bounds and sized by its current
   * frame; any other sprite keeps its logical position and takes the size
   * of its bounds. The mask is the one for the current frame. The record
   * cannot be built when `getRects` or `getBitmask` fails.
   */
  function ExtractCollisionData(s: Sprite, globalBounds: FloatRect, radius: real): (r: Result<CollisionData, string>)
    reads s
    ensures r.Err? <==> s.kind.IsAnimated() && (|s.animationRects| == 0 || ToSizeT(s.currentIndex) >= |s.bitMask|)
    ensures r.Ok? ==> r.value.bounds == globalBounds && r.value.radius == radius &&
                      r.value.direction == s.GetDirectionVector() && r.value.speed == s.GetSpeed() &&
                      r.value.acceleration == s.GetAcceleration()
    ensures r.Ok? && s.kind.IsAnimated() ==>
              r.value.position == Vec2(globalBounds.left, globalBounds.top) &&
              r.value.size == Vec2(s.GetRects().value.width as real, s.GetRects().value.height as real) &&
              r.value.bitmask == s.bitMask[ToSizeT(s.currentIndex)]
    ensures r.Ok? && s.kind.IsAnimated() && 0 <= s.currentIndex < |s.animationRects| && s.currentIndex < TwoTo64 ==>
              r.value.size == Vec2(s.animationRects[s.currentIndex].width as real,
                                   s.animationRects[s.currentIndex].height as real)
    ensures r.Ok? && !s.kind.IsAnimated() ==>
              r.value.position == s.position && r.value.size == Vec2(globalBounds.width, globalBounds.height) &&
              r.value.bitmask == None
  {
    var frame := s.GetRects();
    if frame.Err? then Err(frame.error)
    else
      var mask := s.GetBitmask(ToSizeT(s.GetCurrIndex()));
      if mask.Err? then Err(mask.error)
      else
        var data := CollisionData(s.position, radius, s.GetDirectionVector(), s.GetSpeed(), s.GetAcceleration(),
                                  Vec2(globalBounds.width, globalBounds.height), mask.value, globalBounds);
        if s.IsAnimated() then
          Ok(data.(position := Vec2(globalBounds.left, globalBounds.top),
                   size := Vec2(frame.value.width as real, frame.value.height as real)))
        else Ok(data)
  }

  /** `boundingBoxCollision(position1, size1, position2, size2)`. */
  type BoxTest = (Vec2, Vec2, Vec2, Vec2) -> bool

  /** The tile and tile map settings read from the configuration. */
  datatype TileConfig = TileConfig(
    tileWidth: nat,
    tileHeight: nat,
    mapPosition: Vec2,
    tilemapWidth: nat,
    tilemapHeight: nat,
    tilesColumns: nat)

  /** The inclusive range of tile columns `startX..endX` and rows `startY..endY` to look at. */
  datatype Span = Span(startX: int, startY: int, endX: int, endY: int)

  /**
   * The tiles under the sprite's box: its corners divided by the tile size,
   * truncated toward zero, and clamped — columns to `[0, tilemapHeight]`,
   * rows to `[0, tilemapWidth]`, both bounds included.
   */
  function TileSpan(position: Vec2, size: Vec2, cfg: TileConfig): (s: Span)
    requires cfg.tileWidth > 0 && cfg.tileHeight > 0
    ensures 0 <= s.startX <= cfg.tilemapHeight && 0 <= s.endX <= cfg.tilemapHeight
    ensures 0 <= s.startY <= cfg.tilemapWidth && 0 <= s.endY <= cfg.tilemapWidth
  {
    var dx, dy := position.x - cfg.mapPosition.x, position.y - cfg.mapPosition.y;
    Span(TileIndex(dx, cfg.tileWidth, cfg.tilemapHeight), TileIndex(dy, cfg.tileHeight, cfg.tilemapWidth),
         TileIndex(dx + size.x, cfg.tileWidth, cfg.tilemapHeight), TileIndex(dy + size.y, cfg.tileHeight, cfg.tilemapWidth))
  }

  /** An offset from the map's corner divided by the tile size, truncated, and clamped to `[0, bound]`. */
  function TileIndex(offset: real, tile: nat, bound: nat): (n: int)
    requires tile > 0
    ensures 0 <= n <= bound
  {
    Clamp(TruncToInt(offset / tile as real), 0, bound)
  }

  /** The cells `(x, y)` of row `y` from column `x` to `endX`, left to right. */
  function RowCells(y: int, x: int, endX: int): seq<(int, int)>
    decreases endX - x + 1
  {
    if x > endX then [] else [(x, y)] + RowCells(y, x + 1, endX)
  }

  /** The cells of rows `y..endY` and columns `startX..endX`, row by row. */
  function Cells(y: int, endY: int, startX: int, endX: int): seq<(int, int)>
    decreases endY - y + 1
  {
    if y > endY then [] else RowCells(y, startX, endX) + Cells(y + 1, endY, startX, endX)
  }

  /** A row holds columns `x..endX` in increasing order. */
  lemma {:induction false} RowCellsAt(y: int, x: int, endX: int)
    ensures |RowCells(y, x, endX)| == if x <= endX then endX - x + 1 else 0
    ensures forall k :: 0 <= k < |RowCells(y, x, endX)| ==> RowCells(y, x, endX)[k] == (x + k, y)
    decreases endX - x + 1
  {
    if x <= endX {
      RowCellsAt(y, x + 1, endX);
    }
  }

  /** The walk has one cell per column and row of the span. */
  lemma {:induction false} CellsCount(y: int, endY: int, startX: int, endX: int)
    ensures |Cells(y, endY, startX, endX)| ==
            if y <= endY && startX <= endX then (endY - y + 1) * (endX - startX + 1) else 0
    decreases endY - y + 1
  {
    if y <= endY {
      CellsCount(y + 1, endY, startX, endX);
      RowCellsAt(y, startX, endX);
      if startX <= endX {
        var cols := endX - startX + 1;
        assert (endY - y + 1) * cols == cols + (endY - y) * cols;
      }
    }
  }

  /** Every cell of the walk lies in the span: rows `y..endY`, columns `startX..endX`, and every such cell is walked. */
  lemma {:induction false} CellsInSpan(y: int, endY: int, startX: int, endX: int)
    ensures forall c: (int, int) :: c in Cells(y, endY, startX, endX) <==> y <= c.1 <= endY && startX <= c.0 <= endX
    decreases endY - y + 1
  {
    if y <= endY {
      CellsInSpan(y + 1, endY, startX, endX);
      RowCellsAt(y, startX, endX);
      var row := RowCells(y, startX, endX);
      var below := Cells(y + 1, endY, startX, endX);
      assert Cells(y, endY, startX, endX) == row + below;
      forall c: (int, int)
        ensures c in row <==> c.1 == y && startX <= c.0 <= endX
      {
        if c.1 == y && startX <= c.0 <= endX {
          assert row[c.0 - startX] == c;
        }
      }
    }
  }

  /** At most this many walkable tiles are checked against the sprite's box. */
  const MaxTilesChecked: nat := 4

  /**
   * Everything the tile walk consults: the settings, the tile map's
   * walkability by tile index, the box kernel and the sprite's box.
   */
  datatype TileProbe = TileProbe(cfg: TileConfig, tileWalkable: int -> bool, box: BoxTest,
                                 position: Vec2, size: Vec2)
  {
    /** The tile index of a cell is `y * tilesColumns + x`. */
    predicate Walkable(c: (int, int)) {
      tileWalkable(c.1 * cfg.tilesColumns + c.0)
    }

    /** The top-left corner of the tile in cell `c`. */
    function TilePosition(c: (int, int)): Vec2 {
      Vec2(cfg.mapPosition.x + c.0 as real * cfg.tileWidth as real,
           cfg.mapPosition.y + c.1 as real * cfg.tileHeight as real)
    }

    /** Whether the box kernel reports the sprite's box against the tile in cell `c`. */
    predicate Hits(c: (int, int)) {
      box(position, size, TilePosition(c), Vec2(cfg.tileWidth as real, cfg.tileHeight as real))
    }
  }

  /** Some cell of `cells` is walkable and hit by the box test. */
  predicate SomeWalkableHit(cells: seq<(int, int)>, pr: TileProbe)
    decreases |cells|
  {
    |cells| > 0 && ((pr.Walkable(cells[0]) && pr.Hits(cells[0])) || SomeWalkableHit(cells[1..], pr))
  }

  /**
   * The tile walk over `cells` with `budget` tests left: unwalkable cells
   * are skipped without using up the budget, the first walkable cell the
   * box test hits ends the walk with a collision, and every walkable miss
   * uses up one test.
   */
  function Probe(cells: seq<(int, int)>, budget: nat, pr: TileProbe): (hit: bool)
    ensures budget == 0 ==> !hit
    ensures hit ==> SomeWalkableHit(cells, pr)
    decreases |cells|
  {
    if budget == 0 || |cells| == 0 then false
    else if !pr.Walkable(cells[0]) then Probe(cells[1..], budget, pr)
    else pr.Hits(cells[0]) || Probe(cells[1..], budget - 1, pr)
  }

  /** The walkable cells of `cells`, in order. */
  function WalkableCells(cells: seq<(int, int)>, pr: TileProbe): seq<(int, int)>
  {
    if |cells| == 0 then []
    else if pr.Walkable(cells[0]) then [cells[0]] + WalkableCells(cells[1..], pr)
    else WalkableCells(cells[1..], pr)
  }

  /** The walkable cells are exactly the cells of the walk that are walkable. */
  lemma {:induction false} WalkableCellsFilter(cells: seq<(int, int)>, pr: TileProbe)
    ensures var w := WalkableCells(cells, pr);
            |w| <= |cells| &&
            (forall k :: 0 <= k < |w| ==> pr.Walkable(w[k]) && w[k] in cells) &&
            (forall c :: c in cells && pr.Walkable(c) ==> c in w)
  {
    if |cells| > 0 {
      WalkableCellsFilter(cells[1..], pr);
      assert forall c :: c in cells ==> c == cells[0] || c in cells[1..];
    }
  }

  /**
   * The tile walk reports a collision exactly when one of the first
   * `budget` walkable cells is hit: unwalkable tiles are never checked and
   * never count.
   */
  lemma {:induction false} ProbeTestsFirstWalkable(cells: seq<(int, int)>, budget: nat, pr: TileProbe)
    ensures Probe(cells, budget, pr) <==>
            exists k :: 0 <= k < |WalkableCells(cells, pr)| && k < budget && pr.Hits(WalkableCells(cells, pr)[k])
    decreases |cells|
  {
    var w := WalkableCells(cells, pr);
    if budget == 0 || |cells| == 0 {
    } else if !pr.Walkable(cells[0]) {
      ProbeTestsFirstWalkable(cells[1..], budget, pr);
    } else {
      var rest := WalkableCells(cells[1..], pr);
      assert w == [cells[0]] + rest;
      ProbeTestsFirstWalkable(cells[1..], budget - 1, pr);
      if Probe(cells, budget, pr) {
        if pr.Hits(cells[0]) {
          assert pr.Hits(w[0]);
        } else {
          var k :| 0 <= k < |rest| && k < budget - 1 && pr.Hits(rest[k]);
          assert w[k + 1] == rest[k];
        }
      } else {
        forall k | 0 <= k < |w| && k < budget
          ensures !pr.Hits(w[k])
        {
          if k > 0 {
            assert w[k] == rest[k - 1];
          }
        }
      }
    }
  }

  /**
   * The tile loop of the target overload of `collisionHelper`: rows
   * `startY..endY`, in each the columns `startX..endX`, while fewer than
   * four tiles have been checked.
   */
  method TileMapCollision(pr: TileProbe, span: Span) returns (hit: bool)
    ensures hit == Probe(Cells(span.startY, span.endY, span.startX, span.endX), MaxTilesChecked, pr)
  {
    ghost var all := Cells(span.startY, span.endY, span.startX, span.endX);
    var tilesChecked := 0;
    var y := span.startY;
    while y <= span.endY && tilesChecked < MaxTilesChecked
      invariant 0 <= tilesChecked <= MaxTilesChecked
      invariant Probe(all, MaxTilesChecked, pr) ==
                Probe(Cells(y, span.endY, span.startX, span.endX), MaxTilesChecked - tilesChecked, pr)
      decreases span.endY - y + 1
    {
      ghost var below := Cells(y + 1, span.endY, span.startX, span.endX);
      CellsStep(y, span.endY, span.startX, span.endX);
      var rowHit;
      rowHit, tilesChecked := TileRowCollision(pr, y, span.startX, span.endX, below, tilesChecked);
      if rowHit {
        return true;
      }
      y := y + 1;
    }
    ProbeCellsDone(y, span.endY, span.startX, span.endX, MaxTilesChecked - tilesChecked, pr);
    return false;
  }

  /**
   * The inner loop of the tile walk: columns `x..endX` of row `y`, while
   * fewer than four tiles have been checked, counting on from `checked0`.
   * A hit is a collision of the walk over this row and the rows `below`;
   * otherwise the walk goes on over `below` with the tests that are left.
   */
  method TileRowCollision(pr: TileProbe, y: int, x0: int, endX: int, ghost below: seq<(int, int)>, checked0: nat)
    returns (hit: bool, tilesChecked: nat)
    requires checked0 <= MaxTilesChecked
    ensures checked0 <= tilesChecked <= MaxTilesChecked
    ensures hit ==> Probe(RowCells(y, x0, endX) + below, MaxTilesChecked - checked0, pr)
    ensures !hit ==> Probe(RowCells(y, x0, endX) + below, MaxTilesChecked - checked0, pr) ==
                     Probe(below, MaxTilesChecked - tilesChecked, pr)
  {
    tilesChecked := checked0;
    var x := x0;
    while x <= endX && tilesChecked < MaxTilesChecked
      invariant checked0 <= tilesChecked <= MaxTilesChecked
      invariant Probe(RowCells(y, x0, endX) + below, MaxTilesChecked - checked0, pr) ==
                Probe(RowCells(y, x, endX) + below, MaxTilesChecked - tilesChecked, pr)
      decreases endX - x + 1
    {
      ProbeStep(y, x, endX, below, MaxTilesChecked - tilesChecked, pr);
      if pr.Walkable((x, y)) {
        if pr.Hits((x, y)) {
          return true, tilesChecked;
        }
        tilesChecked := tilesChecked + 1;
      }
      x := x + 1;
    }
    ProbeRowDone(y, x, endX, below, MaxTilesChecked - tilesChecked, pr);
    hit := false;
  }

  /** A row of cells unfolds into its first cell's row and the rows below. */
  lemma CellsStep(y: int, endY: int, startX: int, endX: int)
    requires y <= endY
    ensures Cells(y, endY, startX, endX) == RowCells(y, startX, endX) + Cells(y + 1, endY, startX, endX)
  {
  }

  /** The inner loop leaves when the row is done or the budget is spent; either way what is left is the rows below. */
  lemma ProbeRowDone(y: int, x: int, endX: int, below: seq<(int, int)>, budget: nat, pr: TileProbe)
    requires x > endX || budget == 0
    ensures Probe(RowCells(y, x, endX) + below, budget, pr) == Probe(below, budget, pr)
  {
    if x > endX {
      assert RowCells(y, x, endX) + below == below;
    }
  }

  /** The outer loop leaves when the rows are done or the budget is spent; either way no collision is left to find. */
  lemma ProbeCellsDone(y: int, endY: int, startX: int, endX: int, budget: nat, pr: TileProbe)
    requires y > endY || budget == 0
    ensures !Probe(Cells(y, endY, startX, endX), budget, pr)
  {
  }

  /** One step of the tile walk over the rest of a row followed by the rows below. */
  lemma ProbeStep(y: int, x: int, endX: int, below: seq<(int, int)>, budget: nat, pr: TileProbe)
    requires x <= endX && budget > 0
    ensures var rest := RowCells(y, x + 1, endX) + below;
            Probe(RowCells(y, x, endX) + below, budget, pr) ==
            if pr.Walkable((x, y)) then pr.Hits((x, y)) || Probe(rest, budget - 1, pr)
            else Probe(rest, budget, pr)
  {
    var rest := RowCells(y, x + 1, endX) + below;
    assert RowCells(y, x, endX) == [(x, y)] + RowCells(y, x + 1, endX);
    ConsTail((x, y), RowCells(y, x + 1, endX), below);
    assert RowCells(y, x, endX) + below == [(x, y)] + rest;
  }

  /** Regrouping a cell in front of two sequences. */
  lemma ConsTail(c: (int, int), r: seq<(int, int)>, b: seq<(int, int)>)
    ensures ([c] + r) + b == [c] + (r + b)
  {
  }

  /** The things the single-sprite overload of `collisionHelper` can test against. */
  datatype Target =
    | MouseTarget(point: Vec2)
    | ViewTarget(center: Vec2, viewSize: Vec2)
    | TilesTarget(tileWalkable: int -> bool)
    | OtherTarget

  /** The 1 by 1 box a mouse position stands for. */
  const MouseSize := Vec2(1.0, 1.0)

  /** The top-left corner of a view with the given centre and size. */
  function ViewCorner(center: Vec2, viewSize: Vec2): (c: Vec2)
    ensures c.x + viewSize.x / 2.0 == center.x && c.y + viewSize.y / 2.0 == center.y
  {
    Vec2(center.x - viewSize.x / 2.0, center.y - viewSize.y / 2.0)
  }

  /**
   * `collisionHelper(sprite, target)`: the sprite's box against a 1 by 1
   * box at the mouse, against the view's rectangle, or against the walkable
   * tiles under it; anything else never collides. Fails when the sprite's
   * collision record cannot be built.
   */
  method CollisionWithTarget(s: Sprite, globalBounds: FloatRect, radius: real, target: Target,
                             box: BoxTest, cfg: TileConfig)
    returns (r: Result<bool, string>)
    requires target.TilesTarget? ==> cfg.tileWidth > 0 && cfg.tileHeight > 0
    ensures ExtractCollisionData(s, globalBounds, radius).Err? ==>
              r == Err(ExtractCollisionData(s, globalBounds, radius).error)
    ensures ExtractCollisionData(s, globalBounds, radius).Ok? && target.MouseTarget? ==>
              var d := ExtractCollisionData(s, globalBounds, radius).value;
              r == Ok(box(d.position, d.size, target.point, MouseSize))
    ensures ExtractCollisionData(s, globalBounds, radius).Ok? && target.ViewTarget? ==>
              var d := ExtractCollisionData(s, globalBounds, radius).value;
              r == Ok(box(d.position, d.size, ViewCorner(target.center, target.viewSize), target.viewSize))
    ensures ExtractCollisionData(s, globalBounds, radius).Ok? && target.TilesTarget? ==>
              var d := ExtractCollisionData(s, globalBounds, radius).value;
              var span := TileSpan(d.position, d.size, cfg);
              r == Ok(Probe(Cells(span.startY, span.endY, span.startX, span.endX), MaxTilesChecked,
                            TileProbe(cfg, target.tileWalkable, box, d.position, d.size)))
    ensures ExtractCollisionData(s, globalBounds, radius).Ok? && target.OtherTarget? ==> r == Ok(false)
  {
    var data := ExtractCollisionData(s, globalBounds, radius);
    if data.Err? {
      return Err(data.error);
    }
    var d := data.value;
    match target {
      case MouseTarget(point) =>
        return Ok(box(d.position, d.size, point, MouseSize));
      case ViewTarget(center, viewSize) =>
        return Ok(box(d.position, d.size, ViewCorner(center, viewSize), viewSize));
      case TilesTarget(tileWalkable) =>
        var span := TileSpan(d.position, d.size, cfg);
        var hit := TileMapCollision(TileProbe(cfg, tileWalkable, box, d.position, d.size), span);
        return Ok(hit);
      case OtherTarget =>
        return Ok(false);
    }
  }

  /** Dividing by a positive tile size keeps the order of offsets. */
  lemma DivideMonotone(d: real, e: real, w: real)
    requires d <= e && w > 0.0
    ensures d / w <= e / w
  {
    assert e / w - d / w == (e - d) / w;
  }

  /** Truncation toward zero keeps the order of its arguments. */
  lemma TruncMonotone(a: real, b: real)
    requires a <= b
    ensures TruncToInt(a) <= TruncToInt(b)
  {
  }

  /** A larger offset never gives a smaller tile index. */
  lemma TileIndexMonotone(d: real, e: real, tile: nat, bound: nat)
    requires tile > 0 && d <= e
    ensures TileIndex(d, tile, bound) <= TileIndex(e, tile, bound)
  {
    DivideMonotone(d, e, tile as real);
    TruncMonotone(d / tile as real, e / tile as real);
  }

  /** A box of non-negative size spans at least one column and one row: neither range is empty. */
  lemma SpanOrdered(position: Vec2, size: Vec2, cfg: TileConfig)
    requires cfg.tileWidth > 0 && cfg.tileHeight > 0 && size.x >= 0.0 && size.y >= 0.0
    ensures var s := TileSpan(position, size, cfg);
            s.startX <= s.endX && s.startY <= s.endY
  {
    var dx, dy := position.x - cfg.mapPosition.x, position.y - cfg.mapPosition.y;
    TileIndexMonotone(dx, dx + size.x, cfg.tileWidth, cfg.tilemapHeight);
    TileIndexMonotone(dy, dy + size.y, cfg.tileHeight, cfg.tilemapWidth);
  }

  /** A collision kernel of one of the four shapes `collisionHelper` dispatches on, or another callable. */
  datatype CollisionFunc =
    | CircleKernel(circle: (Vec2, real, Vec2, real) -> bool)
    | BoxKernel(box: BoxTest)
    | RaycastKernel(sweep: (Vec2, Vec2, real, FloatRect, Vec2, Vec2, Vec2, real, FloatRect, Vec2) -> bool)
    | PixelKernel(pixel: (Option<seq<bv8>>, Vec2, Vec2, Option<seq<bv8>>, Vec2, Vec2) -> bool)
    | OtherKernel

  /** `RaycastResult`: predicted collision times and a counter that is non-zero while they are in use. */
  class RaycastResult {
    var collisionTimes: seq<real>
    var counter: int

    constructor(collisionTimes: seq<real>, counter: int)
      ensures this.collisionTimes == collisionTimes && this.counter == counter
    {
      this.collisionTimes := collisionTimes;
      this.counter := counter;
    }
  }

  /** What one run of the collision lambda answers and the cache counter it leaves. */
  datatype Outcome = Outcome(hit: bool, counter: int)

  /**
   * The collision lambda of the sprite-against-sprite overload as its
   * `if constexpr` chain dispatches. The circle, box and pixel kernels get
   * their fields of the two records. The raycast branch is taken only for a
   * callable of five arguments, and the sweep kernel takes ten, so a sweep
   * kernel falls through to the final `false` like any other callable: the
   * sweep never runs and the cache is neither read nor cleared.
   */
  function LambdaAsWritten(d1: CollisionData, d2: CollisionData, f: CollisionFunc): (hit: bool)
    ensures f.RaycastKernel? || f.OtherKernel? ==> !hit
  {
    match f
    case CircleKernel(circle) => circle(d1.position, d1.radius, d2.position, d2.radius)
    case BoxKernel(box) => box(d1.position, d1.size, d2.position, d2.size)
    case RaycastKernel(_) => false
    case PixelKernel(pixel) => pixel(d1.bitmask, d1.position, d1.size, d2.bitmask, d2.position, d2.size)
    case OtherKernel => false
  }

  /**
   * The collision lambda as its raycast branch is evidently meant to work,
   * with the branch taken for the ten-argument sweep kernel. The sweep runs
   * only while the cached counter is 0; while it is set, the call answers
   * whether `timeElapsed` has passed the cached time at `counterIndex`, and
   * passing it clears the counter. The other kernels are dispatched as
   * written.
   */
  function LambdaOutcome(d1: CollisionData, d2: CollisionData, f: CollisionFunc, counter: int,
                         times: seq<real>, timeElapsed: real, counterIndex: nat): (o: Outcome)
    requires f.RaycastKernel? && counter != 0 ==> counterIndex < |times|
    ensures !f.RaycastKernel? ==> o.counter == counter
    ensures o.counter == counter || o.counter == 0
    ensures f.RaycastKernel? && counter == 0 ==>
              o == Outcome(f.sweep(d1.position, d1.direction, d1.speed, d1.bounds, d1.acceleration,
                                   d2.position, d2.direction, d2.speed, d2.bounds, d2.acceleration), 0)
    ensures f.RaycastKernel? && counter != 0 ==>
              (o.hit <==> timeElapsed > times[counterIndex]) && (o.counter == 0 <==> o.hit)
    ensures f.OtherKernel? ==> !o.hit
  {
    match f
    case CircleKernel(circle) => Outcome(circle(d1.position, d1.radius, d2.position, d2.radius), counter)
    case BoxKernel(box) => Outcome(box(d1.position, d1.size, d2.position, d2.size), counter)
    case RaycastKernel(sweep) =>
      if counter == 0 then
        Outcome(sweep(d1.position, d1.direction, d1.speed, d1.bounds, d1.acceleration,
                      d2.position, d2.direction, d2.speed, d2.bounds, d2.acceleration), counter)
      else if timeElapsed > times[counterIndex] then Outcome(true, 0)
      else Outcome(false, counter)
    case PixelKernel(pixel) => Outcome(pixel(d1.bitmask, d1.position, d1.size, d2.bitmask, d2.position, d2.size), counter)
    case OtherKernel => Outcome(false, counter)
  }

  /**
   * Once the cached time has been reported, the cache is spent: the next
   * raycast test, whatever the time, goes back to sweeping.
   */
  lemma RaycastCacheSpentOnce(d1: CollisionData, d2: CollisionData, f: CollisionFunc, counter: int,
                              times: seq<real>, timeElapsed: real, later: real, counterIndex: nat)
    requires f.RaycastKernel? && counter != 0 && counterIndex < |times|
    requires LambdaOutcome(d1, d2, f, counter, times, timeElapsed, counterIndex).hit
    ensures var next := LambdaOutcome(d1, d2, f, LambdaOutcome(d1, d2, f, counter, times, timeElapsed, counterIndex).counter,
                                      times, later, counterIndex);
            next.hit == f.sweep(d1.position, d1.direction, d1.speed, d1.bounds, d1.acceleration,
                                d2.position, d2.direction, d2.speed, d2.bounds, d2.acceleration) &&
            next.counter == 0
  {
  }

  /** Away from the raycast branch the lambda as written and the intended one agree, and neither touches the cache. */
  lemma LambdaAgreesOffSweep(d1: CollisionData, d2: CollisionData, f: CollisionFunc, counter: int,
                             times: seq<real>, timeElapsed: real, counterIndex: nat)
    requires !f.RaycastKernel?
    ensures LambdaOutcome(d1, d2, f, counter, times, timeElapsed, counterIndex) ==
            Outcome(LambdaAsWritten(d1, d2, f), counter)
  {
  }

  /**
   * A sweep kernel that reports a hit whatever its arguments, with an empty
   * cache: the lambda as written answers false without sweeping, while the
   * intended lambda sweeps and reports the hit.
   */
  lemma SweepKernelNeverRuns(d1: CollisionData, d2: CollisionData)
    ensures var f := RaycastKernel((p1, v1, s1, b1, a1, p2, v2, s2, b2, a2) => true);
            !LambdaAsWritten(d1, d2, f) && LambdaOutcome(d1, d2, f, 0, [], 0.0, 0) == Outcome(true, 0)
  {
  }

  /**
   * The intended lambda run against the global cache, updating it in place:
   * the answer and the new counter are those of `LambdaOutcome`, and the
   * cached times are left alone.
   */
  method IntendedLambda(cache: RaycastResult, d1: CollisionData, d2: CollisionData, f: CollisionFunc,
                        timeElapsed: real, counterIndex: nat) returns (hit: bool)
    requires f.RaycastKernel? && cache.counter != 0 ==> counterIndex < |cache.collisionTimes|
    modifies cache
    ensures var o := LambdaOutcome(d1, d2, f, old(cache.counter), old(cache.collisionTimes), timeElapsed, counterIndex);
            hit == o.hit && cache.counter == o.counter
    ensures cache.collisionTimes == old(cache.collisionTimes)
  {
    if f.RaycastKernel? {
      if cache.counter == 0 {
        hit := f.sweep(d1.position, d1.direction, d1.speed, d1.bounds, d1.acceleration,
                       d2.position, d2.direction, d2.speed, d2.bounds, d2.acceleration);
      } else if timeElapsed > cache.collisionTimes[counterIndex] {
        cache.counter := 0;
        hit := true;
      } else {
        hit := false;
      }
    } else {
      LambdaAgreesOffSweep(d1, d2, f, cache.counter, cache.collisionTimes, timeElapsed, counterIndex);
      hit := LambdaAsWritten(d1, d2, f);
    }
  }

  /** Whether some sprite of `c1` differs from some sprite of `c2`. */
  predicate DistinctPairExists(c1: seq<Sprite>, c2: seq<Sprite>) {
    exists i, j :: 0 <= i < |c1| && 0 <= j < |c2| && c1[i] != c2[j]
  }

  /**
   * The quadtree filter's double loop: it skips pairs of one and the same
   * sprite and reports whether it reached any other pair.
   */
  method FindDistinctPair(c1: seq<Sprite>, c2: seq<Sprite>) returns (found: bool)
    ensures found <==> DistinctPairExists(c1, c2)
  {
    var i := 0;
    while i < |c1|
      invariant 0 <= i <= |c1|
      invariant forall a, b :: 0 <= a < i && 0 <= b < |c2| ==> c1[a] == c2[b]
    {
      var j := 0;
      while j < |c2|
        invariant 0 <= j <= |c2|
        invariant forall b :: 0 <= b < j ==> c1[i] == c2[b]
      {
        if c1[i] != c2[j] {
          return true;
        }
        j := j + 1;
      }
      i := i + 1;
    }
    return false;
  }

  /**
   * The filter lets a test through unless a list is empty or both lists
   * hold nothing but one and the same sprite.
   */
  lemma {:induction false} NoDistinctPairMeansOneSprite(c1: seq<Sprite>, c2: seq<Sprite>)
    requires |c1| > 0 && |c2| > 0
    ensures !DistinctPairExists(c1, c2) <==>
            (forall i :: 0 <= i < |c1| ==> c1[i] == c2[0]) && (forall j :: 0 <= j < |c2| ==> c2[j] == c2[0])
  {
    if !DistinctPairExists(c1, c2) {
      forall j | 0 <= j < |c2|
        ensures c2[j] == c2[0]
      {
        assert c1[0] == c2[j] && c1[0] == c2[0];
      }
    }
  }

  /**
   * `collisionHelper(sprite1, sprite2, collisionFunc, quadtree, timeElapsed,
   * counterIndex)`. A missing sprite never collides. Otherwise both records
   * are built (failing if either cannot be); without a quadtree the lambda
   * decides; with one, `colliders` holds the quadtree's answers for the two
   * sprites' bounds, and the lambda decides only when some pair of them
   * differs, otherwise there is no collision. The lambda as written never
   * reaches the raycast cache, so the method changes no state: a sweep
   * kernel never reports a collision.
   */
  method CollisionHelper(s1: Sprite?, s2: Sprite?, bounds1: FloatRect, bounds2: FloatRect,
                         radius1: real, radius2: real, f: CollisionFunc,
                         colliders: Option<(seq<Sprite>, seq<Sprite>)>)
    returns (r: Result<bool, string>)
    ensures s1 == null || s2 == null ==> r == Ok(false)
    ensures s1 != null && s2 != null ==>
              var e1, e2 := ExtractCollisionData(s1, bounds1, radius1), ExtractCollisionData(s2, bounds2, radius2);
              (e1.Err? ==> r == Err(e1.error)) &&
              (e1.Ok? && e2.Err? ==> r == Err(e2.error)) &&
              (e1.Ok? && e2.Ok? ==>
                r == Ok((colliders.None? || DistinctPairExists(colliders.value.0, colliders.value.1)) &&
                        LambdaAsWritten(e1.value, e2.value, f)))
    ensures f.RaycastKernel? || f.OtherKernel? ==> r != Ok(true)
  {
    if s1 == null || s2 == null {
      return Ok(false);
    }
    var e1 := ExtractCollisionData(s1, bounds1, radius1);
    if e1.Err? {
      return Err(e1.error);
    }
    var e2 := ExtractCollisionData(s2, bounds2, radius2);
    if e2.Err? {
      return Err(e2.error);
    }
    if colliders.Some? {
      var (c1, c2) := colliders.value;
      if |c1| == 0 || |c2| == 0 {
        return Ok(false);
      }
      var found := FindDistinctPair(c1, c2);
      if !found {
        return Ok(false);
      }
    }
    return Ok(LambdaAsWritten(e1.value, e2.value, f));
  }
}
