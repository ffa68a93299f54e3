/**
 * The fixed 20x20 tile map and the lookup "is this world point inside a wall?".
 * World coordinates are Python floats, modelled as reals; a coordinate becomes a
 * cell index through Python's `int()`, which truncates toward zero, and the map is
 * indexed with Python's tuple/string indexing, where a negative index counts from
 * the end and anything else out of range raises IndexError.
 */
module Grid {

  datatype Option<T> = None | Some(value: T)

  /** A point in world units (the map covers [0, MAP_SIZE) on both axes). */
  datatype Point = Point(x: real, y: real)

  const MAP_SIZE: real := 240.0
  const CELLS: nat := 20
  /** MAP_SIZE / 20: the side of one cell in world units. */
  const SQUARE_SIZE: real := 12.0

  /** The map, row by row; '#' is a wall, ' ' is floor. */
  const MAP: seq<string> := [
    "####################",
    "#                  #",
    "#                  #",
    "#          ###     #",
    "#          # #     #",
    "#          ###     #",
    "#   ####           #",
    "#   #  #           #",
    "#   #  #           #",
    "#   #  #           #",
    "#   #  #           #",
    "#   ####           #",
    "#               # ##",
    "#          #    #  #",
    "#          #    #  #",
    "#        ###    #  #",
    "#               #  #",
    "#                  #",
    "#                  #",
    "####################"
  ]

  /** Python's `int(r)` on a float: truncation toward zero. */
  function Trunc(r: real): (n: int)
    ensures 0.0 <= r ==> n >= 0 && n as real <= r < n as real + 1.0
    ensures r < 0.0 ==> n <= 0 && n as real - 1.0 < r <= n as real
  {
    if r >= 0.0 then r.Floor else -((-r).Floor)
  }

  /**
   * The row (from y) or column (from x) index of a world coordinate: the cell
   * whose span of SQUARE_SIZE units holds it, counted toward zero for negatives.
   */
  function CellIndex(coord: real): (n: int)
    ensures 0.0 <= coord ==> n >= 0 && n as real * SQUARE_SIZE <= coord < (n as real + 1.0) * SQUARE_SIZE
    ensures coord < 0.0 ==> n <= 0 && (n as real - 1.0) * SQUARE_SIZE < coord <= n as real * SQUARE_SIZE
  {
    Trunc(coord / SQUARE_SIZE)
  }

  /**
   * Python indexing of a sequence of length `len` with `i`: None is IndexError,
   * otherwise the position actually read.
   */
  function PyIndex(len: nat, i: int): (k: Option<nat>)
    ensures k.Some? <==> -(len as int) <= i < len
    ensures k.Some? ==> k.value < len && k.value == (if i >= 0 then i else i + len)
  {
    if 0 <= i < len then Some(i)
    else if -(len as int) <= i < 0 then Some(len + i)
    else None
  }

  /** The grid has CELLS rows of CELLS characters each. */
  predicate Square(grid: seq<string>)
  {
    |grid| == CELLS && forall r :: 0 <= r < |grid| ==> |grid[r]| == CELLS
  }

  /** A square grid whose first and last row and column are all walls. */
  predicate Bordered(grid: seq<string>)
  {
    && Square(grid)
    && (forall k :: 0 <= k < CELLS ==> grid[0][k] == '#' && grid[CELLS - 1][k] == '#')
    && (forall k :: 0 <= k < CELLS ==> grid[k][0] == '#' && grid[k][CELLS - 1] == '#')
  }

  /** MAP is a 20x20 grid, walled all around. */
  lemma MapIsBordered()
    ensures Bordered(MAP)
  {
  }

  /** `grid[row][col]`: None when Python would raise IndexError. */
  function CellAt(grid: seq<string>, row: int, col: int): (c: Option<char>)
    ensures Square(grid) ==> (c.Some? <==> -(CELLS as int) <= row < CELLS && -(CELLS as int) <= col < CELLS)
    ensures Square(grid) && 0 <= row < CELLS && 0 <= col < CELLS ==> c == Some(grid[row][col])
    ensures Square(grid) && -(CELLS as int) <= row < 0 && 0 <= col < CELLS ==> c == Some(grid[row + CELLS][col])
    ensures Square(grid) && c.Some? ==> c == Some(grid[PyIndex(CELLS, row).value][PyIndex(CELLS, col).value])
  {
    match PyIndex(|grid|, row)
    case None => None
    case Some(r) =>
      match PyIndex(|grid[r]|, col)
      case None => None
      case Some(k) => Some(grid[r][k])
  }

  /**
   * The wall test of the caster and of the collision check: the cell under `p`
   * holds '#'. None when the lookup raises IndexError.
   */
  function IsWallAt(grid: seq<string>, p: Point): (w: Option<bool>)
    ensures Square(grid) ==> (w.Some? <==> -20 <= CellIndex(p.y) < 20 && -20 <= CellIndex(p.x) < 20)
    ensures Square(grid) && 0 <= CellIndex(p.y) < 20 && 0 <= CellIndex(p.x) < 20 ==>
      w == Some(grid[CellIndex(p.y)][CellIndex(p.x)] == '#')
    ensures Square(grid) && w.Some? ==>
      w == Some(grid[PyIndex(CELLS, CellIndex(p.y)).value][PyIndex(CELLS, CellIndex(p.x)).value] == '#')
  {
    match CellAt(grid, CellIndex(p.y), CellIndex(p.x))
    case None => None
    case Some(c) => Some(c == '#')
  }

  /**
   * The lookup the program uses: IsWallAt on MAP. It raises exactly when a cell
   * index leaves [-20, 20), and reads the '#' of the cell under the point.
   */
  function MapWall(p: Point): (w: Option<bool>)
    ensures w.Some? <==> -20 <= CellIndex(p.y) < 20 && -20 <= CellIndex(p.x) < 20
    ensures 0 <= CellIndex(p.y) < 20 && 0 <= CellIndex(p.x) < 20 ==>
      w == Some(MAP[CellIndex(p.y)][CellIndex(p.x)] == '#')
    ensures w.Some? ==>
      w == Some(MAP[PyIndex(CELLS, CellIndex(p.y)).value][PyIndex(CELLS, CellIndex(p.x)).value] == '#')
  {
    assert Square(MAP);
    IsWallAt(MAP, p)
  }

  /** The point lies on the map's physical extent [0, MAP_SIZE) x [0, MAP_SIZE). */
  predicate OnMap(p: Point)
  {
    0.0 <= p.x < MAP_SIZE && 0.0 <= p.y < MAP_SIZE
  }

  /** The point lies in a cell that is neither in the first or last row nor column. */
  predicate Interior(p: Point)
  {
    SQUARE_SIZE <= p.x < MAP_SIZE - SQUARE_SIZE && SQUARE_SIZE <= p.y < MAP_SIZE - SQUARE_SIZE
  }

  /** On the map a coordinate falls in a cell 0..19, and in 1..18 exactly on the interior band. */
  lemma CellIndexOnMap(c: real)
    requires 0.0 <= c < MAP_SIZE
    ensures 0 <= CellIndex(c) < CELLS
    ensures 1 <= CellIndex(c) < CELLS - 1 <==> SQUARE_SIZE <= c < MAP_SIZE - SQUARE_SIZE
  {
    var n := CellIndex(c);
    assert n as real <= c / SQUARE_SIZE < n as real + 1.0;
  }

  /**
   * The lookup never raises on the map, and every point of the map outside the
   * interior is inside a wall, because the border cells are all walls.
   */
  lemma BorderIsWall(grid: seq<string>, p: Point)
    requires Bordered(grid)
    requires OnMap(p)
    ensures IsWallAt(grid, p).Some?
    ensures !Interior(p) ==> IsWallAt(grid, p) == Some(true)
  {
    CellIndexOnMap(p.x);
    CellIndexOnMap(p.y);
    var row, col := CellIndex(p.y), CellIndex(p.x);
    if !Interior(p) {
      if row == 0 {
        assert grid[0][col] == '#';
      } else if row == CELLS - 1 {
        assert grid[CELLS - 1][col] == '#';
      } else if col == 0 {
        assert grid[row][0] == '#';
      } else {
        assert col == CELLS - 1;
        assert grid[row][CELLS - 1] == '#';
      }
    }
  }
}
