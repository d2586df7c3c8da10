/**
 * The level's map: the ground tilemap's origin and extents, the array of
 * tiles, the conversions between map cells and world positions, and the
 * random choice of a cell. The map is initialised once, lazily, from the
 * Grid it is attached to.
 */
module Maps {
  import opened Engine

  /** Drawing depth of agents. */
  const AgentLayer: real := -1.0
  /** Drawing depth of the ground tilemap. */
  const GroundLayer: real := 0.0

  /** One tile of the map; no movement logic reads the flag yet. */
  datatype Tile = Tile(isTraversable: bool)

  /**
   * What initialisation reads from the scene: the Grid component's cell size
   * and the ground tilemap (the Grid's first child).
   */
  datatype GridSource = GridSource(cellSize: Vector3, ground: Tilemap)

  /**
   * Initialisation logs tiles[2, 3], so it only completes on a ground tilemap
   * with more than 2 columns and more than 3 rows.
   */
  predicate Loadable(source: GridSource) {
    source.ground.size.x > 2 && source.ground.size.y > 3
  }

  class Map {
    var OriginX: Int32
    var OriginY: Int32
    var SizeX: Int32
    var SizeY: Int32
    var CellSize: real
    var GroundTilemap: Tilemap
    var tiles: array2?<Tile>
    var isInitialized: bool

    /** Once initialised, the tile array has the extents of the ground tilemap. */
    ghost predicate Valid()
      reads this
    {
      isInitialized ==>
        && tiles != null
        && tiles.Length0 == SizeX && tiles.Length1 == SizeY
        && SizeX > 2 && SizeY > 3
    }

    /** A fresh map component: not initialised, no tile array. */
    constructor ()
      ensures Valid() && !isInitialized && tiles == null
    {
      isInitialized := false;
      tiles := null;
    }

    /**
     * The state a complete initialisation from `source` leaves: origin, extents
     * and tilemap taken from the ground tilemap, the cell size taken from the
     * grid only when it is the same on both axes, every tile traversable.
     */
    ghost predicate InitializedFrom(source: GridSource, previousCellSize: real)
      reads this, tiles
    {
      && isInitialized
      && GroundTilemap == source.ground
      && OriginX == source.ground.origin.x && OriginY == source.ground.origin.y
      && SizeX == source.ground.size.x && SizeY == source.ground.size.y
      && CellSize == (if source.cellSize.x == source.cellSize.y then source.cellSize.x else previousCellSize)
      && tiles != null && tiles.Length0 == SizeX && tiles.Length1 == SizeY
      && forall x, y :: 0 <= x < SizeX && 0 <= y < SizeY ==> tiles[x, y].isTraversable
    }

    /**
     * Loads everything from `source`, whether or not the map was initialised
     * before. Returns whether the cell-size error was logged.
     */
    method ForceInitialize(source: GridSource) returns (cellSizeError: bool)
      requires Loadable(source)
      modifies this
      ensures Valid() && fresh(tiles)
      ensures InitializedFrom(source, old(CellSize))
      ensures cellSizeError <==> source.cellSize.x != source.cellSize.y
    {
      cellSizeError := source.cellSize.x != source.cellSize.y;
      if !cellSizeError {
        CellSize := source.cellSize.x;
      }
      GroundTilemap := source.ground;
      OriginX := source.ground.origin.x;
      OriginY := source.ground.origin.y;
      var sizeX, sizeY := source.ground.size.x, source.ground.size.y;
      SizeX, SizeY := sizeX, sizeY;

      var grid := new Tile[sizeX, sizeY];
      for x := 0 to sizeX
        modifies grid
        invariant forall i, j :: 0 <= i < x && 0 <= j < sizeY ==> grid[i, j].isTraversable
      {
        for y := 0 to sizeY
          modifies grid
          invariant forall i, j :: 0 <= i < x && 0 <= j < sizeY ==> grid[i, j].isTraversable
          invariant forall j :: 0 <= j < y ==> grid[x, j].isTraversable
        {
          grid[x, y] := Tile(true);
        }
      }
      tiles := grid;
      // the tile the initialisation logs
      var logged := grid[2, 3];
      isInitialized := true;
    }

    /** Initialises the map unless that has already happened. */
    method Initialize(source: GridSource)
      requires Valid()
      requires !isInitialized ==> Loadable(source)
      modifies this
      ensures Valid() && isInitialized
      ensures old(isInitialized) ==> unchanged(this)
      ensures !old(isInitialized) ==> InitializedFrom(source, old(CellSize)) && fresh(tiles)
    {
      if !isInitialized {
        var _ := ForceInitialize(source);
      }
    }

    /** The cell is within the extents of the map. */
    predicate InBounds(c: Vector2Int)
      reads this
    {
      0 <= c.x < SizeX && 0 <= c.y < SizeY
    }

    /**
     * The map cell of a world position: the tilemap cell minus the origin, so
     * that adding the origin back gives the tilemap cell.
     */
    function GetPositionMap(positionWorld: Vector3): (r: Vector2Int)
      reads this
      requires isInitialized
      ensures Add32(r.x, OriginX) == GroundTilemap.worldToCell(positionWorld).x
      ensures Add32(r.y, OriginY) == GroundTilemap.worldToCell(positionWorld).y
    {
      var cell := GroundTilemap.worldToCell(positionWorld);
      AddUndoesSub(cell.x, OriginX);
      AddUndoesSub(cell.y, OriginY);
      Vector2Int(Sub32(cell.x, OriginX), Sub32(cell.y, OriginY))
    }

    /**
     * The world centre of map cell (mapX, mapY): the origin is added before the
     * tilemap lookup, so that locating the centre gives back the cell.
     */
    function GetCellCenterWorld(mapX: Int32, mapY: Int32): (r: Vector3)
      reads this
      requires isInitialized
      ensures GroundTilemap.Consistent() ==> GetPositionMap(r) == Vector2Int(mapX, mapY)
    {
      SubUndoesAdd(mapX, OriginX);
      SubUndoesAdd(mapY, OriginY);
      GroundTilemap.cellCenterWorld(Vector3Int(Add32(mapX, OriginX), Add32(mapY, OriginY), 0))
    }

    /** The overload that takes the cell as one vector; it agrees with the other. */
    function GetCellCenterWorldOf(positionMap: Vector2Int): (r: Vector3)
      reads this
      requires isInitialized
      ensures r == GetCellCenterWorld(positionMap.x, positionMap.y)
    {
      GroundTilemap.cellCenterWorld(Vector3Int(Add32(positionMap.x, OriginX), Add32(positionMap.y, OriginY), 0))
    }

    /** A random cell, drawing x and then y from the map's random source. */
    function GetRandomPositionMap(sampleX: Sample, sampleY: Sample): (c: Vector2Int)
      reads this
      requires Valid() && isInitialized
      ensures InBounds(c)
    {
      Vector2Int(RandomNext(sampleX, 0, SizeX), RandomNext(sampleY, 0, SizeY))
    }

    /**
     * The world centre of a random cell: the centre of some cell inside the
     * map; the tiles are not consulted.
     */
    function GetRandomCellCenterWorld(sampleX: Sample, sampleY: Sample): (r: Vector3)
      reads this
      requires Valid() && isInitialized
      ensures exists c :: InBounds(c) && r == GetCellCenterWorldOf(c)
    {
      var c := GetRandomPositionMap(sampleX, sampleY);
      assert InBounds(c) && GetCellCenterWorldOf(c) == GetCellCenterWorldOf(c);
      GetCellCenterWorldOf(c)
    }
  }

  /** Locating the centre of a cell gives back that cell, for every cell. */
  lemma PositionMapInvertsCellCenter(m: Map, c: Vector2Int)
    requires m.isInitialized && m.GroundTilemap.Consistent()
    ensures m.GetPositionMap(m.GetCellCenterWorldOf(c)) == c
  {
  }

  /** The cell found for a position does not depend on its drawing depth. */
  lemma PositionMapIgnoresDepth(m: Map, p: Vector3, z: real)
    requires m.isInitialized && m.GroundTilemap.Consistent()
    ensures m.GetPositionMap(p.(z := z)) == m.GetPositionMap(p)
  {
  }

  /** Every cell of the map is drawn by some pair of samples. */
  lemma RandomPositionReaches(m: Map, c: Vector2Int) returns (sampleX: Sample, sampleY: Sample)
    requires m.Valid() && m.isInitialized && m.InBounds(c)
    ensures m.GetRandomPositionMap(sampleX, sampleY) == c
  {
    sampleX := RandomNextReaches(c.x, 0, m.SizeX);
    sampleY := RandomNextReaches(c.y, 0, m.SizeY);
  }

  /**
   * A random cell centre is the centre of a cell inside the map, and every such
   * centre can be drawn, traversable or not.
   */
  lemma RandomCellCenterLocates(m: Map, sampleX: Sample, sampleY: Sample)
    requires m.Valid() && m.isInitialized && m.GroundTilemap.Consistent()
    ensures m.InBounds(m.GetPositionMap(m.GetRandomCellCenterWorld(sampleX, sampleY)))
  {
    PositionMapInvertsCellCenter(m, m.GetRandomPositionMap(sampleX, sampleY));
  }

  /** Every cell centre of the map is a possible random cell centre. */
  lemma RandomCellCenterReaches(m: Map, c: Vector2Int) returns (sampleX: Sample, sampleY: Sample)
    requires m.Valid() && m.isInitialized && m.InBounds(c)
    ensures m.GetRandomCellCenterWorld(sampleX, sampleY) == m.GetCellCenterWorldOf(c)
  {
    sampleX, sampleY := RandomPositionReaches(m, c);
  }
}
