/**
 * Tables the game derives from its configuration: the name lookups for
 * directions and colours, the row-major rectangle grids cut out of the
 * sprite sheets, the masks made from them, and the walkable-tile flags.
 */
module ConfigTables {
  import opened Results
  import opened Geometry
  import opened CppInt
  import opened Bitmask

  /** `SpriteComponents::Direction`. */
  datatype Direction = NONE | LEFT | RIGHT | UP | DOWN

  /** The static name table of `toDirection`. */
  const DirectionNames: map<string, Direction> :=
    map["LEFT" := LEFT, "RIGHT" := RIGHT, "UP" := UP, "DOWN" := DOWN]

  /** `toDirection`: the four upper-case names map to their directions, anything else to `NONE`. */
  function ToDirection(name: string): (d: Direction)
    ensures d == LEFT <==> name == "LEFT"
    ensures d == RIGHT <==> name == "RIGHT"
    ensures d == UP <==> name == "UP"
    ensures d == DOWN <==> name == "DOWN"
    ensures d == NONE <==> name !in {"LEFT", "RIGHT", "UP", "DOWN"}
  {
    if name in DirectionNames then DirectionNames[name] else NONE
  }

  /** `sf::Color`: four 8-bit channels. */
  datatype Color = Color(r: bv8, g: bv8, b: bv8, a: bv8)

  const Red := Color(255, 0, 0, 255)
  const Green := Color(0, 255, 0, 255)
  const Blue := Color(0, 0, 255, 255)
  const Yellow := Color(255, 255, 0, 255)
  const Magenta := Color(255, 0, 255, 255)
  const Cyan := Color(0, 255, 255, 255)
  const White := Color(255, 255, 255, 255)
  const Black := Color(0, 0, 0, 255)
  const Transparent := Color(0, 0, 0, 0)
  /** `sf::Color(240, 128, 128)`: the alpha channel defaults to opaque. */
  const LightCoral := Color(240, 128, 128, 255)
  /** `sf::Color(75, 20, 9)`. */
  const Brown := Color(75, 20, 9, 255)

  /** The static name table of `toSfColor`. */
  const ColorNames: map<string, Color> :=
    map["RED" := Red, "GREEN" := Green, "BLUE" := Blue, "YELLOW" := Yellow,
        "MAGENTA" := Magenta, "CYAN" := Cyan, "WHITE" := White, "BLACK" := Black,
        "TRANSPARENT" := Transparent, "CUSTOMCOLOR_LIGHTCORAL" := LightCoral,
        "CUSTOMCOLOR_BROWN" := Brown]

  /**
   * `toSfColor`: every listed name yields its colour and any other name
   * yields black. Only "TRANSPARENT" yields a colour that is not opaque.
   */
  function ToSfColor(name: string): (c: Color)
    ensures name == "RED" ==> c == Red
    ensures name == "GREEN" ==> c == Green
    ensures name == "BLUE" ==> c == Blue
    ensures name == "YELLOW" ==> c == Yellow
    ensures name == "MAGENTA" ==> c == Magenta
    ensures name == "CYAN" ==> c == Cyan
    ensures name == "WHITE" ==> c == White
    ensures name == "BLACK" ==> c == Black
    ensures name == "TRANSPARENT" ==> c == Transparent
    ensures name == "CUSTOMCOLOR_LIGHTCORAL" ==> c == LightCoral
    ensures name == "CUSTOMCOLOR_BROWN" ==> c == Brown
    ensures name !in ColorNames ==> c == Black
    ensures c.a == 0 <==> name == "TRANSPARENT"
  {
    if name in ColorNames then ColorNames[name] else Black
  }

  /** The cell in column `k % cols`, row `k / cols` of a grid of `cellW` by `cellH` rectangles. */
  function GridCell(k: nat, cols: nat, cellW: int, cellH: int): IntRect
    requires cols > 0
  {
    IntRect((k % cols) * cellW, (k / cols) * cellH, cellW, cellH)
  }

  /** How many rectangles the nested row/column loops emit. */
  function GridCount(rows: int, cols: int): nat {
    if rows > 0 && cols > 0 then rows * cols else 0
  }

  /**
   * One rectangle grid of `makeRectsAndBitmasks`: rows outer, columns inner,
   * cell `(col, row)` at `{col * cellW, row * cellH, cellW, cellH}`.
   */
  method MakeRectGrid(rows: int, cols: int, cellW: int, cellH: int) returns (rects: seq<IntRect>)
    ensures |rects| == GridCount(rows, cols)
    ensures forall k :: 0 <= k < |rects| ==> cols > 0 && rects[k] == GridCell(k, cols, cellW, cellH)
  {
    rects := [];
    var row := 0;
    while row < rows
      invariant 0 <= row <= (if rows > 0 then rows else 0)
      invariant |rects| == GridCount(row, cols)
      invariant forall k :: 0 <= k < |rects| ==> cols > 0 && rects[k] == GridCell(k, cols, cellW, cellH)
    {
      var col := 0;
      while col < cols
        invariant 0 <= col <= (if cols > 0 then cols else 0)
        invariant cols > 0 ==> |rects| == row * cols + col
        invariant cols <= 0 ==> |rects| == 0
        invariant forall k :: 0 <= k < |rects| ==> cols > 0 && rects[k] == GridCell(k, cols, cellW, cellH)
      {
        RowMajorSplit(row, col, cols);
        rects := rects + [IntRect(col * cellW, row * cellH, cellW, cellH)];
        col := col + 1;
      }
      assert cols > 0 ==> (row + 1) * cols == row * cols + cols;
      row := row + 1;
    }
  }

  /**
   * The column count of an animation sheet: `indexMax / animationRows`,
   * evaluated only when the outer loop runs at all.
   */
  function AnimationColumns(indexMax: int, animationRows: int): int {
    if animationRows > 0 then TDiv(indexMax, animationRows) else 0
  }

  /**
   * An animation sheet never yields more frames than `indexMax`, and yields
   * `indexMax` exactly when the row count divides it.
   */
  lemma AnimationFrameCount(indexMax: int, animationRows: int)
    requires indexMax >= 0 && animationRows > 0
    ensures GridCount(animationRows, AnimationColumns(indexMax, animationRows)) <= indexMax
    ensures indexMax - animationRows < GridCount(animationRows, AnimationColumns(indexMax, animationRows))
    ensures indexMax % animationRows == 0 ==>
            GridCount(animationRows, AnimationColumns(indexMax, animationRows)) == indexMax
  {
    var q := indexMax / animationRows;
    assert indexMax == animationRows * q + indexMax % animationRows;
    if q == 0 {
      assert GridCount(animationRows, AnimationColumns(indexMax, animationRows)) == 0;
    }
  }

  /** Distinct positions of a grid give distinct rectangles when the cells have a positive size. */
  lemma GridCellsDistinct(i: nat, j: nat, cols: nat, cellW: int, cellH: int)
    requires cols > 0 && cellW > 0 && cellH > 0
    ensures GridCell(i, cols, cellW, cellH) == GridCell(j, cols, cellW, cellH) <==> i == j
  {
    if GridCell(i, cols, cellW, cellH) == GridCell(j, cols, cellW, cellH) {
      MulCancel(i % cols, j % cols, cellW);
      MulCancel(i / cols, j / cols, cellH);
      assert i == (i / cols) * cols + i % cols;
      assert j == (j / cols) * cols + j % cols;
    }
  }

  lemma MulCancel(a: int, b: int, c: int)
    requires c > 0 && a * c == b * c
    ensures a == b
  {
  }

  /**
   * Every cell of a `rows` by `cols` grid lies inside the sheet of
   * `cols * cellW` by `rows * cellH` pixels.
   */
  lemma GridCellInSheet(k: nat, rows: nat, cols: nat, cellW: nat, cellH: nat)
    requires cols > 0 && k < rows * cols
    ensures var r := GridCell(k, cols, cellW, cellH);
            0 <= r.left && r.left + r.width <= cols * cellW &&
            0 <= r.top && r.top + r.height <= rows * cellH
  {
    RowMajorBounds(k, cols, rows);
    MulMonotone(k % cols + 1, cols, cellW);
    MulMonotone(k / cols + 1, rows, cellH);
  }

  /**
   * A tile sheet at least `cols * tileW` by `rows * tileH` pixels yields a
   * mask for every tile.
   */
  lemma TileMasksPresent(tiles: Image, k: nat, rows: nat, cols: nat, tileW: nat, tileH: nat)
    requires cols > 0 && k < rows * cols
    requires cols * tileW <= tiles.sizeX && rows * tileH <= tiles.sizeY
    ensures BitmaskOf(Some(tiles), GridCell(k, cols, tileW, tileH), DefaultThreshold).Some?
  {
    GridCellInSheet(k, rows, cols, tileW, tileH);
  }

  /** The configuration values `makeRectsAndBitmasks` reads. */
  datatype SheetConfig = SheetConfig(
    spriteIndexMax: int, spriteAnimationRows: int,
    bulletIndexMax: int, bulletAnimationRows: int,
    tileRows: nat, tileColumns: nat, tileWidth: nat, tileHeight: nat)

  /** The opacity threshold and the bottom-row count used for the player's frames. */
  const SpriteMaskRows: int32 := 3

  /** The global rectangle and mask vectors that `makeRectsAndBitmasks` appends to. */
  class AssetTables {
    var spriteRects: seq<IntRect>
    var bulletRects: seq<IntRect>
    var tileRects: seq<IntRect>
    var tileMasks: seq<Option<seq<bv8>>>
    var spriteMasks: seq<Option<seq<bv8>>>

    /** The vectors start empty. */
    constructor()
      ensures spriteRects == [] && bulletRects == [] && tileRects == []
      ensures tileMasks == [] && spriteMasks == []
    {
      spriteRects := [];
      bulletRects := [];
      tileRects := [];
      tileMasks := [];
      spriteMasks := [];
    }

    /**
     * `makeRectsAndBitmasks`: appends the player and bullet animation grids
     * (32 and 16 pixel cells), the tile grid, a full mask per tile and a
     * bottom-three-rows mask per player frame.
     */
    method MakeRectsAndBitmasks(cfg: SheetConfig, tilesTexture: Option<Image>, spriteTexture: Option<Image>)
      modifies this
      ensures |spriteRects| == |old(spriteRects)| +
              GridCount(cfg.spriteAnimationRows, AnimationColumns(cfg.spriteIndexMax, cfg.spriteAnimationRows))
      ensures forall k :: |old(spriteRects)| <= k < |spriteRects| ==>
              var c := AnimationColumns(cfg.spriteIndexMax, cfg.spriteAnimationRows);
              c > 0 && spriteRects[k] == GridCell(k - |old(spriteRects)|, c, 32, 32)
      ensures spriteRects[..|old(spriteRects)|] == old(spriteRects)
      ensures |bulletRects| == |old(bulletRects)| +
              GridCount(cfg.bulletAnimationRows, AnimationColumns(cfg.bulletIndexMax, cfg.bulletAnimationRows))
      ensures forall k :: |old(bulletRects)| <= k < |bulletRects| ==>
              var c := AnimationColumns(cfg.bulletIndexMax, cfg.bulletAnimationRows);
              c > 0 && bulletRects[k] == GridCell(k - |old(bulletRects)|, c, 16, 16)
      ensures bulletRects[..|old(bulletRects)|] == old(bulletRects)
      ensures |tileRects| == |old(tileRects)| + GridCount(cfg.tileRows, cfg.tileColumns)
      ensures forall k :: |old(tileRects)| <= k < |tileRects| ==>
              tileRects[k] == GridCell(k - |old(tileRects)|, cfg.tileColumns, cfg.tileWidth, cfg.tileHeight)
      ensures tileRects[..|old(tileRects)|] == old(tileRects)
      ensures tileMasks == old(tileMasks) + MasksOf(tilesTexture, tileRects)
      ensures spriteMasks == old(spriteMasks) + BottomMasksOf(spriteTexture, spriteRects)
    {
      var sprite := MakeRectGrid(cfg.spriteAnimationRows, AnimationColumns(cfg.spriteIndexMax, cfg.spriteAnimationRows), 32, 32);
      spriteRects := spriteRects + sprite;
      var bullet := MakeRectGrid(cfg.bulletAnimationRows, AnimationColumns(cfg.bulletIndexMax, cfg.bulletAnimationRows), 16, 16);
      bulletRects := bulletRects + bullet;
      var tiles := MakeRectGrid(cfg.tileRows, cfg.tileColumns, cfg.tileWidth, cfg.tileHeight);
      tileRects := tileRects + tiles;
      var tm := MakeMasks(tilesTexture, tileRects);
      tileMasks := tileMasks + tm;
      var sm := MakeBottomMasks(spriteTexture, spriteRects);
      spriteMasks := spriteMasks + sm;
    }
  }

  /** One full mask per rectangle, with the default threshold. */
  function MasksOf(texture: Option<Image>, rects: seq<IntRect>): (masks: seq<Option<seq<bv8>>>)
    ensures |masks| == |rects|
  {
    seq(|rects|, k requires 0 <= k < |rects| => BitmaskOf(texture, rects[k], DefaultThreshold))
  }

  /** One bottom-rows mask per rectangle: default threshold, the last three rows. */
  function BottomMasksOf(texture: Option<Image>, rects: seq<IntRect>): (masks: seq<Option<seq<bv8>>>)
    ensures |masks| == |rects|
  {
    seq(|rects|, k requires 0 <= k < |rects| => BottomBitmaskOf(texture, rects[k], DefaultThreshold, SpriteMaskRows))
  }

  /** The tile-mask loop: `createBitmask(texture, rect)` for each rectangle in turn. */
  method MakeMasks(texture: Option<Image>, rects: seq<IntRect>) returns (masks: seq<Option<seq<bv8>>>)
    ensures masks == MasksOf(texture, rects)
  {
    masks := [];
    var k := 0;
    while k < |rects|
      invariant 0 <= k <= |rects|
      invariant masks == MasksOf(texture, rects[..k])
    {
      var m := CreateBitmask(texture, rects[k], DefaultThreshold);
      assert rects[..k + 1] == rects[..k] + [rects[k]];
      masks := masks + [m];
      k := k + 1;
    }
    assert rects[..k] == rects;
  }

  /** The player-mask loop: `createBitmaskForBottom(texture, rect, 0, 3)` for each rectangle. */
  method MakeBottomMasks(texture: Option<Image>, rects: seq<IntRect>) returns (masks: seq<Option<seq<bv8>>>)
    ensures masks == BottomMasksOf(texture, rects)
  {
    masks := [];
    var k := 0;
    while k < |rects|
      invariant 0 <= k <= |rects|
      invariant masks == BottomMasksOf(texture, rects[..k])
    {
      var m := CreateBitmaskForBottom(texture, rects[k], DefaultThreshold, SpriteMaskRows);
      assert rects[..k + 1] == rects[..k] + [rects[k]];
      masks := masks + [m];
      k := k + 1;
    }
    assert rects[..k] == rects;
  }

  /** `TILES_NUMBER`: the fixed capacity of the walkable-flag array. */
  const TilesNumber: nat := 60

  /** The only walkable tile kind. */
  const WalkableTile: nat := 6

  /**
   * The walkable-flag loop of `readFromYaml`: for every tile kind below
   * `tilesNum`, the flag is set exactly for kind 6. Entries from `tilesNum`
   * on keep what they held.
   */
  method InitTileFlags(flags: array<bool>, tilesNum: nat)
    requires tilesNum <= flags.Length
    modifies flags
    ensures forall i :: 0 <= i < tilesNum ==> flags[i] == (i == WalkableTile)
    ensures forall i :: tilesNum <= i < flags.Length ==> flags[i] == old(flags[i])
  {
    var i := 0;
    while i < tilesNum
      invariant 0 <= i <= tilesNum
      invariant forall j :: 0 <= j < i ==> flags[j] == (j == WalkableTile)
      invariant forall j :: tilesNum <= j < flags.Length ==> flags[j] == old(flags[j])
    {
      if i != WalkableTile {
        flags[i] := false;
      } else {
        flags[i] := true;
      }
      i := i + 1;
    }
  }
}
