/**
 * LevelLoader::LoadTileMap (src/game/level_loader.cpp): read a CSV tile map,
 * one row per line, and create one background tile entity per cell.
 */
module LevelLoader {
  import opened Wrappers
  import opened Components
  import opened Sprite
  import opened Ecs
  import opened Utils
  import Text

  /**
   * f applied to every element, left to right; the first failure is the result
   * (an exception thrown from inside the loop).
   */
  function MapAll<T, U, E>(f: T -> Result<U, E>, xs: seq<T>): (r: Result<seq<U>, E>)
    ensures r.Ok? ==> |r.value| == |xs| && forall i :: 0 <= i < |xs| ==> f(xs[i]) == Ok(r.value[i])
  {
    if xs == [] then Ok([])
    else
      match MapAll(f, xs[..|xs| - 1])
      case Err(e) => Err(e)
      case Ok(vs) =>
        match f(xs[|xs| - 1])
        case Err(e) => Err(e)
        case Ok(v) => Ok(vs + [v])
  }

  /** Once a prefix fails, the whole sequence fails with the same error. */
  lemma {:induction false} MapAllFailurePersists<T, U, E>(f: T -> Result<U, E>, xs: seq<T>, i: nat)
    requires i <= |xs| && MapAll(f, xs[..i]).Err?
    ensures MapAll(f, xs) == MapAll(f, xs[..i])
    decreases |xs| - i
  {
    if i < |xs| {
      assert xs[..i + 1][..i] == xs[..i];
      MapAllFailurePersists(f, xs, i + 1);
    } else {
      assert xs[..i] == xs;
    }
  }

  /** Extending a successful prefix by one element. */
  lemma MapAllStep<T, U, E>(f: T -> Result<U, E>, xs: seq<T>, i: nat, vs: seq<U>)
    requires i < |xs| && MapAll(f, xs[..i]) == Ok(vs)
    ensures f(xs[i]).Ok? ==> MapAll(f, xs[..i + 1]) == Ok(vs + [f(xs[i]).value])
    ensures f(xs[i]).Err? ==> MapAll(f, xs[..i + 1]) == Err(f(xs[i]).error)
  {
    assert xs[..i + 1][..i] == xs[..i];
  }

  /** A failure is the error of the first element that fails. */
  lemma {:induction false} MapAllFirstFailure<T, U, E>(f: T -> Result<U, E>, xs: seq<T>)
    requires MapAll(f, xs).Err?
    ensures exists i :: 0 <= i < |xs| && f(xs[i]) == Err(MapAll(f, xs).error)
                        && forall j :: 0 <= j < i ==> f(xs[j]).Ok?
  {
    var init := xs[..|xs| - 1];
    if MapAll(f, init).Err? {
      MapAllFirstFailure(f, init);
      var i :| 0 <= i < |init| && f(init[i]) == Err(MapAll(f, init).error)
               && forall j :: 0 <= j < i ==> f(init[j]).Ok?;
      assert forall j :: 0 <= j <= i ==> xs[j] == init[j];
    } else {
      var i := |xs| - 1;
      assert forall j :: 0 <= j < i ==> xs[j] == init[j];
    }
  }

  /** One line of the map file: its ','-separated fields, each through std::stoi. */
  function ParseRow(line: string): (r: Result<seq<int>, Text.ParseError>)
  {
    MapAll(Text.ParseInt, Text.Split(line, ','))
  }

  /** The whole map file: one row per line. */
  function ParseGrid(content: string): (r: Result<seq<seq<int>>, Text.ParseError>)
  {
    MapAll(ParseRow, Text.Split(content, '\n'))
  }

  /** Every row holds the fields of its line, parsed as integers, in order. */
  lemma ParseGridRows(content: string)
    requires ParseGrid(content).Ok?
    ensures |ParseGrid(content).value| == |Text.Split(content, '\n')|
    ensures forall y :: 0 <= y < |ParseGrid(content).value| ==>
              var fields := Text.Split(Text.Split(content, '\n')[y], ',');
              var row := ParseGrid(content).value[y];
              |row| == |fields| && forall x :: 0 <= x < |row| ==> Text.ParseInt(fields[x]) == Ok(row[x])
  {
  }

  /** The reading loops of LoadTileMap: std::getline over lines, then over ','-fields. */
  method ReadTileData(content: string) returns (r: Result<seq<seq<int>>, Text.ParseError>)
    ensures r == ParseGrid(content)
  {
    var lines := Text.Split(content, '\n');
    var tileData: seq<seq<int>> := [];
    var i := 0;
    while i < |lines|
      invariant 0 <= i <= |lines|
      invariant MapAll(ParseRow, lines[..i]) == Ok(tileData)
    {
      var row := ReadRow(lines[i]);
      MapAllStep(ParseRow, lines, i, tileData);
      if row.Err? {
        MapAllFailurePersists(ParseRow, lines, i + 1);
        return Err(row.error);
      }
      tileData := tileData + [row.value];
      i := i + 1;
    }
    assert lines[..i] == lines;
    return Ok(tileData);
  }

  /** The inner loop: std::stoi on each ','-separated field of one line. */
  method ReadRow(line: string) returns (r: Result<seq<int>, Text.ParseError>)
    ensures r == ParseRow(line)
  {
    var fields := Text.Split(line, ',');
    var row: seq<int> := [];
    var j := 0;
    while j < |fields|
      invariant 0 <= j <= |fields|
      invariant MapAll(Text.ParseInt, fields[..j]) == Ok(row)
    {
      var v := Text.ParseInt(fields[j]);
      MapAllStep(Text.ParseInt, fields, j, row);
      if v.Err? {
        MapAllFailurePersists(Text.ParseInt, fields, j + 1);
        return Err(v.error);
      }
      row := row + [v.value];
      j := j + 1;
    }
    assert fields[..j] == fields;
    return Ok(row);
  }

  /** A grid cell: column, row and tile id. */
  datatype Cell = Cell(x: int, y: int, tileId: int)

  function RowCells(row: seq<int>, y: int): (cells: seq<Cell>)
    ensures |cells| == |row|
    ensures forall x :: 0 <= x < |row| ==> cells[x] == Cell(x, y, row[x])
  {
    seq(|row|, x requires 0 <= x < |row| => Cell(x, y, row[x]))
  }

  /** The cells in the order LoadTileMap visits them: row by row, left to right. */
  function Cells(grid: seq<seq<int>>): (cells: seq<Cell>)
  {
    if grid == [] then [] else Cells(grid[..|grid| - 1]) + RowCells(grid[|grid| - 1], |grid| - 1)
  }

  lemma CellsPrefixStep(grid: seq<seq<int>>, y: nat)
    requires y < |grid|
    ensures Cells(grid[..y + 1]) == Cells(grid[..y]) + RowCells(grid[y], y)
  {
    assert grid[..y + 1][..y] == grid[..y];
  }

  lemma MulMonotone(a: nat, b: nat, w: nat)
    requires a <= b
    ensures a * w <= b * w
  {
  }

  lemma {:induction false} CellsLength(grid: seq<seq<int>>, w: nat)
    requires forall y :: 0 <= y < |grid| ==> |grid[y]| == w
    ensures |Cells(grid)| == |grid| * w
  {
    if grid != [] {
      CellsLength(grid[..|grid| - 1], w);
      assert (|grid| - 1) * w + w == |grid| * w;
    }
  }

  /** On a grid whose rows all have width w, cell (x, y) is visited at position y * w + x. */
  lemma {:induction false} CellsRowMajor(grid: seq<seq<int>>, w: nat, y: nat, x: nat)
    requires forall row :: 0 <= row < |grid| ==> |grid[row]| == w
    requires y < |grid| && x < w
    ensures |Cells(grid)| == |grid| * w
    ensures y * w + x < |Cells(grid)| && Cells(grid)[y * w + x] == Cell(x, y, grid[y][x])
  {
    var n := |grid| - 1;
    var init := grid[..n];
    CellsLength(grid, w);
    CellsLength(init, w);
    assert Cells(grid) == Cells(init) + RowCells(grid[n], n);
    if y < n {
      MulMonotone(y + 1, n, w);
      assert y * w + x < (y + 1) * w;
      CellsRowMajor(init, w, y, x);
      assert grid[y] == init[y];
    } else {
      assert Cells(grid)[y * w + x] == RowCells(grid[n], n)[x];
    }
  }

  /** The map's size in pixels and the tile entities, in creation order. */
  datatype Tile = Tile(entity: Entity, group: string, transform: TransformComponent, sprite: SpriteComponent)

  datatype TileMap = TileMap(tiles: seq<Tile>, mapWidth: int, mapHeight: int)

  /** Reading the file failed (std::stoi threw), or it held no line at all. */
  datatype LoadError = ParseFailed(error: Text.ParseError) | NoRows

  /**
   * The tile for one cell: group "tiles"; placed at (x, y) times tileSize * tileScale;
   * a background sprite of the tile size cut from column tileId % 10 and row
   * tileId / 10 of the tile sheet (C++ truncating division).
   */
  function MakeTile(entity: Entity, cell: Cell, assetId: string, tileSize: int, tileScale: int): (t: Tile)
    ensures t.entity == entity && t.group == "tiles"
    ensures t.transform.position == Vec2(cell.x * (tileSize * tileScale), cell.y * (tileSize * tileScale))
    ensures t.transform.scale == Vec2(tileScale, tileScale) && t.transform.rotation == 0
    ensures t.sprite.srcRect == Rect(TruncRem(cell.tileId, 10) * tileSize, TruncDiv(cell.tileId, 10) * tileSize,
                                     tileSize, tileSize)
    ensures t.sprite.layer == BackgroundLayer && t.sprite.assetId == assetId
    ensures t.sprite.width == tileSize && t.sprite.height == tileSize
  {
    var scale := tileSize * tileScale;
    Tile(entity, "tiles",
         TransformComponent(Vec2(cell.x * scale, cell.y * scale), Vec2(tileScale, tileScale), 0),
         NewSprite(assetId, tileSize, tileSize, BackgroundLayer,
                   TruncRem(cell.tileId, 10) * tileSize, TruncDiv(cell.tileId, 10) * tileSize))
  }

  /** A non-negative tile id t is cut from column t % 10 and row t / 10. */
  lemma TileSourceOfNonNegativeId(entity: Entity, cell: Cell, assetId: string, tileSize: int, tileScale: int)
    requires cell.tileId >= 0
    ensures MakeTile(entity, cell, assetId, tileSize, tileScale).sprite.srcRect
            == Rect((cell.tileId % 10) * tileSize, (cell.tileId / 10) * tileSize, tileSize, tileSize)
  {
    TruncDivRem(cell.tileId, 10);
  }

  /** The tiles for a run of cells, with consecutive entity ids starting at firstId. */
  function TilesFor(cells: seq<Cell>, firstId: int, assetId: string, tileSize: int, tileScale: int): (ts: seq<Tile>)
    ensures |ts| == |cells|
    ensures forall k :: 0 <= k < |cells| ==> ts[k] == MakeTile(Entity(firstId + k), cells[k], assetId, tileSize, tileScale)
  {
    seq(|cells|, k requires 0 <= k < |cells| => MakeTile(Entity(firstId + k), cells[k], assetId, tileSize, tileScale))
  }

  lemma TilesForStep(cells: seq<Cell>, cell: Cell, firstId: int, assetId: string, tileSize: int, tileScale: int)
    ensures TilesFor(cells + [cell], firstId, assetId, tileSize, tileScale)
            == TilesFor(cells, firstId, assetId, tileSize, tileScale)
               + [MakeTile(Entity(firstId + |cells|), cell, assetId, tileSize, tileScale)]
  {
  }

  /** The entities of a run of tiles, in order. */
  function EntitiesOf(tiles: seq<Tile>): (es: seq<Entity>)
    ensures |es| == |tiles| && forall k :: 0 <= k < |tiles| ==> es[k] == tiles[k].entity
  {
    seq(|tiles|, k requires 0 <= k < |tiles| => tiles[k].entity)
  }

  lemma EntitiesOfStep(tiles: seq<Tile>, t: Tile)
    ensures EntitiesOf(tiles + [t]) == EntitiesOf(tiles) + [t.entity]
    ensures (set e | e in EntitiesOf(tiles + [t])) == (set e | e in EntitiesOf(tiles)) + {t.entity}
  {
    assert EntitiesOf(tiles + [t]) == EntitiesOf(tiles) + [t.entity];
  }

  lemma TilesForAppend(a: seq<Cell>, b: seq<Cell>, firstId: int, assetId: string, tileSize: int, tileScale: int)
    ensures TilesFor(a + b, firstId, assetId, tileSize, tileScale)
            == TilesFor(a, firstId, assetId, tileSize, tileScale) + TilesFor(b, firstId + |a|, assetId, tileSize, tileScale)
  {
  }

  lemma EntitiesOfAppend(a: seq<Tile>, b: seq<Tile>)
    ensures EntitiesOf(a + b) == EntitiesOf(a) + EntitiesOf(b)
    ensures (set e | e in EntitiesOf(a + b)) == (set e | e in EntitiesOf(a)) + (set e | e in EntitiesOf(b))
  {
    assert EntitiesOf(a + b) == EntitiesOf(a) + EntitiesOf(b);
  }

  /**
   * The inner loop of LoadTileMap for row y: one tile entity per cell, left to
   * right, each with the next id from the registry.
   */
  method CreateRowTiles(registry: Registry, row: seq<int>, y: int, assetId: string, tileSize: int, tileScale: int)
    returns (tiles: seq<Tile>)
    requires registry.Valid()
    modifies registry
    ensures registry.Valid()
    ensures tiles == TilesFor(RowCells(row, y), old(registry.numEntities), assetId, tileSize, tileScale)
    ensures registry.numEntities == old(registry.numEntities) + |tiles|
    ensures registry.created == old(registry.created) + EntitiesOf(tiles)
    ensures registry.entitiesToBeAdded == old(registry.entitiesToBeAdded) + set e | e in EntitiesOf(tiles)
  {
    var scale := tileSize * tileScale;
    ghost var firstId := registry.numEntities;
    ghost var cells := RowCells(row, y);
    tiles := [];
    var x := 0;
    while x < |row|
      invariant 0 <= x <= |row|
      invariant registry.Valid()
      invariant tiles == TilesFor(cells[..x], firstId, assetId, tileSize, tileScale)
      invariant registry.numEntities == firstId + |tiles|
      invariant registry.created == old(registry.created) + EntitiesOf(tiles)
      invariant registry.entitiesToBeAdded == old(registry.entitiesToBeAdded) + set e | e in EntitiesOf(tiles)
    {
      var tileId := row[x];
      var tileRow := TruncDiv(tileId, 10);
      var tileCol := TruncRem(tileId, 10);
      var srcRect := Rect(tileCol * tileSize, tileRow * tileSize, tileSize, tileSize);
      var tileEntity := registry.CreateEntity();
      var tile := Tile(tileEntity, "tiles",
                       TransformComponent(Vec2(x * scale, y * scale), Vec2(tileScale, tileScale), 0),
                       NewSprite(assetId, tileSize, tileSize, BackgroundLayer, srcRect.x, srcRect.y));
      assert cells[x] == Cell(x, y, tileId);
      assert tile == MakeTile(Entity(firstId + x), cells[x], assetId, tileSize, tileScale);
      assert cells[..x + 1] == cells[..x] + [cells[x]];
      TilesForStep(cells[..x], cells[x], firstId, assetId, tileSize, tileScale);
      EntitiesOfStep(tiles, tile);
      tiles := tiles + [tile];
      x := x + 1;
    }
    assert cells[..x] == cells;
  }

  /** The outer loop of LoadTileMap: the rows of the grid, top to bottom. */
  method CreateTiles(registry: Registry, tileData: seq<seq<int>>, assetId: string, tileSize: int, tileScale: int)
    returns (tiles: seq<Tile>)
    requires registry.Valid()
    modifies registry
    ensures registry.Valid()
    ensures tiles == TilesFor(Cells(tileData), old(registry.numEntities), assetId, tileSize, tileScale)
    ensures registry.numEntities == old(registry.numEntities) + |tiles|
    ensures registry.created == old(registry.created) + EntitiesOf(tiles)
    ensures registry.entitiesToBeAdded == old(registry.entitiesToBeAdded) + set e | e in EntitiesOf(tiles)
  {
    ghost var firstId := registry.numEntities;
    ghost var created0 := registry.created;
    ghost var pending0 := registry.entitiesToBeAdded;
    tiles := [];
    var y := 0;
    while y < |tileData|
      invariant 0 <= y <= |tileData|
      invariant registry.Valid()
      invariant tiles == TilesFor(Cells(tileData[..y]), firstId, assetId, tileSize, tileScale)
      invariant registry.numEntities == firstId + |tiles|
      invariant registry.created == created0 + EntitiesOf(tiles)
      invariant registry.entitiesToBeAdded == pending0 + set e | e in EntitiesOf(tiles)
    {
      var rowTiles := CreateRowTiles(registry, tileData[y], y, assetId, tileSize, tileScale);
      CellsPrefixStep(tileData, y);
      TilesForAppend(Cells(tileData[..y]), RowCells(tileData[y], y), firstId, assetId, tileSize, tileScale);
      EntitiesOfAppend(tiles, rowTiles);
      tiles := tiles + rowTiles;
      y := y + 1;
    }
    assert tileData[..y] == tileData;
  }

  /**
   * LoadTileMap. `content` is the text of the map file (empty when it cannot be
   * opened). A field std::stoi rejects aborts before any entity is created. The
   * source reads tile_data[0] without checking that a line was read; that case is
   * the NoRows error here. Otherwise the map size is (width of the first row,
   * number of rows) times tileSize * tileScale, and one tile entity is created per
   * cell in row-major order, with consecutive ids from the registry.
   */
  method LoadTileMap(registry: Registry, assetId: string, content: string, tileSize: int, tileScale: int)
    returns (r: Result<TileMap, LoadError>)
    requires registry.Valid()
    modifies registry
    ensures registry.Valid()
    ensures ParseGrid(content).Err? ==> r == Err(ParseFailed(ParseGrid(content).error))
    ensures ParseGrid(content) == Ok([]) ==> r == Err(NoRows)
    ensures r.Err? ==> registry.numEntities == old(registry.numEntities)
                       && registry.entitiesToBeAdded == old(registry.entitiesToBeAdded)
    ensures ParseGrid(content).Ok? && ParseGrid(content).value != [] ==>
              var grid := ParseGrid(content).value;
              var scale := tileSize * tileScale;
              var tiles := TilesFor(Cells(grid), old(registry.numEntities), assetId, tileSize, tileScale);
              && r == Ok(TileMap(tiles, |grid[0]| * scale, |grid| * scale))
              && registry.numEntities == old(registry.numEntities) + |tiles|
              && registry.created == old(registry.created) + EntitiesOf(tiles)
              && registry.entitiesToBeAdded == old(registry.entitiesToBeAdded) + set e | e in EntitiesOf(tiles)
  {
    var scale := tileSize * tileScale;
    var data := ReadTileData(content);
    if data.Err? {
      return Err(ParseFailed(data.error));
    }
    var tileData := data.value;
    if |tileData| == 0 {
      return Err(NoRows);
    }
    var mapWidth := |tileData[0]| * scale;
    var mapHeight := |tileData| * scale;
    var tiles := CreateTiles(registry, tileData, assetId, tileSize, tileScale);
    return Ok(TileMap(tiles, mapWidth, mapHeight));
  }
}
