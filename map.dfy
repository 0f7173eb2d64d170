/**
 * The tile grid of the game: an 80 x 50 row-major sequence of tiles, its
 * index mapping, the random-splatter generator and the walk that turns the
 * grid into glyphs for the renderer.
 */
module Map {

  datatype TileType = Wall | Floor

  const Width: int := 80
  const Height: int := 50
  /** Number of tiles in a map: 80 * 50 = 4000. */
  const TileCount: int := Width * Height
  /** Number of random wall splats the generator makes. */
  const SplatCount: int := 400
  /** The spawn tile the generator never splats. */
  const SpawnX: int := 40
  const SpawnY: int := 25

  predicate InBounds(x: int, y: int) {
    0 <= x < Width && 0 <= y < Height
  }

  /** A cell in one of the four outer rows or columns. */
  predicate OnBorder(x: int, y: int) {
    x == 0 || x == Width - 1 || y == 0 || y == Height - 1
  }

  /**
   * Row-major index of (x, y). The source casts both coordinates to an
   * unsigned size, so negative coordinates are excluded here rather than
   * wrapped. An in-bounds cell gets an index below 4000 from which % and /
   * recover the cell, so distinct cells never share a tile.
   */
  function XyIdx(x: int, y: int): (i: nat)
    requires 0 <= x && 0 <= y
    ensures InBounds(x, y) ==> i < TileCount && i % Width == x && i / Width == y
  {
    (y * 80) + x
  }

  /** Every tile index is the index of exactly the cell (i % 80, i / 80). */
  lemma IdxRoundTrip(i: int)
    requires 0 <= i < TileCount
    ensures InBounds(i % Width, i / Width)
    ensures XyIdx(i % Width, i / Width) == i
  {
  }

  lemma XyIdxInjective(x1: int, y1: int, x2: int, y2: int)
    requires InBounds(x1, y1) && InBounds(x2, y2)
    ensures XyIdx(x1, y1) == XyIdx(x2, y2) <==> x1 == x2 && y1 == y2
  {
  }

  /** A die roll for one splat, within the ranges roll_dice(1, 79) and roll_dice(1, 49) produce. */
  predicate RollInRange(r: (int, int)) {
    1 <= r.0 <= 79 && 1 <= r.1 <= 49
  }

  predicate RollsInRange(rolls: seq<(int, int)>) {
    forall k :: 0 <= k < |rolls| ==> RollInRange(rolls[k])
  }

  /** Some roll in `rolls` lands on tile index i. */
  predicate Splatted(rolls: seq<(int, int)>, i: int)
    requires RollsInRange(rolls)
  {
    exists k :: 0 <= k < |rolls| && XyIdx(rolls[k].0, rolls[k].1) == i
  }

  /**
   * The tile the generator leaves at (x, y): a Wall on the border, a Wall
   * where some roll landed unless that is the spawn tile, and Floor otherwise.
   */
  function SplatterTile(rolls: seq<(int, int)>, x: int, y: int): (t: TileType)
    requires RollsInRange(rolls) && InBounds(x, y)
  {
    if OnBorder(x, y) then Wall
    else if XyIdx(x, y) != XyIdx(SpawnX, SpawnY) && Splatted(rolls, XyIdx(x, y)) then Wall
    else Floor
  }

  /** `tiles` is the map the generator builds from `rolls`. */
  ghost predicate IsSplatterMap(rolls: seq<(int, int)>, tiles: seq<TileType>)
    requires RollsInRange(rolls)
  {
    |tiles| == TileCount &&
    forall x, y | InBounds(x, y) :: tiles[XyIdx(x, y)] == SplatterTile(rolls, x, y)
  }

  /**
   * The generator's result tile by tile, in index form: tile i is Floor
   * exactly when its cell is off the border and either no roll landed on
   * it or it is the spawn tile.
   */
  lemma SplatterMapFloorIff(rolls: seq<(int, int)>, tiles: seq<TileType>, i: int)
    requires RollsInRange(rolls) && IsSplatterMap(rolls, tiles) && 0 <= i < TileCount
    ensures tiles[i] == Floor <==>
              !OnBorder(i % Width, i / Width) &&
              (i == XyIdx(SpawnX, SpawnY) || !Splatted(rolls, i))
  {
    IdxRoundTrip(i);
    assert tiles[XyIdx(i % Width, i / Width)] == SplatterTile(rolls, i % Width, i / Width);
  }

  /** A full-size map whose four outer rows and columns are all Wall. */
  ghost predicate BorderWalled(tiles: seq<TileType>) {
    |tiles| == TileCount &&
    forall x, y | InBounds(x, y) && OnBorder(x, y) :: tiles[XyIdx(x, y)] == Wall
  }

  lemma SplattedExtend(rolls: seq<(int, int)>, n: int, i: int)
    requires RollsInRange(rolls) && 0 <= n < |rolls|
    ensures Splatted(rolls[..n + 1], i) <==>
            Splatted(rolls[..n], i) || XyIdx(rolls[n].0, rolls[n].1) == i
  {
  }

  /**
   * Builds a map: all Floor, then the border rows and columns Wall, then one
   * Wall per roll except on the spawn tile. `rolls` stands for the 400 pairs
   * the random number generator would produce.
   */
  method NewMap(rolls: seq<(int, int)>) returns (tiles: seq<TileType>)
    requires |rolls| == SplatCount && RollsInRange(rolls)
    ensures IsSplatterMap(rolls, tiles)
    ensures BorderWalled(tiles)
    ensures tiles[XyIdx(SpawnX, SpawnY)] == Floor
  {
    var grid := new TileType[80 * 50](_ => Floor);

    for x := 0 to 80
      invariant forall a, b | InBounds(a, b) ::
        grid[XyIdx(a, b)] == (if (b == 0 || b == 49) && a < x then Wall else Floor)
    {
      grid[XyIdx(x, 0)] := Wall;
      grid[XyIdx(x, 49)] := Wall;
    }
    for y := 0 to 50
      invariant forall a, b | InBounds(a, b) ::
        grid[XyIdx(a, b)] ==
          (if b == 0 || b == 49 || ((a == 0 || a == 79) && b < y) then Wall else Floor)
    {
      grid[XyIdx(0, y)] := Wall;
      grid[XyIdx(79, y)] := Wall;
    }

    for i := 0 to 400
      invariant forall a, b | InBounds(a, b) ::
        grid[XyIdx(a, b)] ==
          (if OnBorder(a, b) then Wall
           else if XyIdx(a, b) != XyIdx(SpawnX, SpawnY) && Splatted(rolls[..i], XyIdx(a, b)) then Wall
           else Floor)
    {
      var x := rolls[i].0;
      var y := rolls[i].1;
      var idx := XyIdx(x, y);
      forall a, b | InBounds(a, b)
        ensures Splatted(rolls[..i + 1], XyIdx(a, b)) <==>
                Splatted(rolls[..i], XyIdx(a, b)) || idx == XyIdx(a, b)
      {
        SplattedExtend(rolls, i, XyIdx(a, b));
      }
      if idx != XyIdx(40, 25) {
        grid[idx] := Wall;
      }
    }
    assert rolls[..400] == rolls;
    tiles := grid[..];
  }

  /** What the renderer draws at one cell. Colours are not modelled. */
  datatype Cell = Cell(x: int, y: int, glyph: char)

  function Glyph(t: TileType): (c: char)
    ensures c == '.' <==> t == Floor
    ensures c == '#' <==> t == Wall
  {
    match t
    case Floor => '.'
    case Wall => '#'
  }

  lemma AdvanceCursor(i: int)
    requires 0 <= i
    ensures (i + 1) % Width == (if i % Width + 1 > 79 then 0 else i % Width + 1)
    ensures (i + 1) / Width == (if i % Width + 1 > 79 then i / Width + 1 else i / Width)
  {
  }

  /**
   * Walks the tiles in order with a column and a row counter, wrapping the
   * column after 79, and emits one cell per tile: the i-th tile is drawn at
   * (i % 80, i / 80), the cell whose index it is.
   */
  method DrawMap(tiles: seq<TileType>) returns (cells: seq<Cell>)
    ensures |cells| == |tiles|
    ensures forall i :: 0 <= i < |tiles| ==>
              cells[i] == Cell(i % Width, i / Width, Glyph(tiles[i]))
    ensures forall x, y | InBounds(x, y) && XyIdx(x, y) < |tiles| ::
              cells[XyIdx(x, y)] == Cell(x, y, Glyph(tiles[XyIdx(x, y)]))
  {
    var y := 0;
    var x := 0;
    cells := [];
    for i := 0 to |tiles|
      invariant |cells| == i
      invariant x == i % Width && y == i / Width
      invariant forall k :: 0 <= k < i ==> cells[k] == Cell(k % Width, k / Width, Glyph(tiles[k]))
    {
      cells := cells + [Cell(x, y, Glyph(tiles[i]))];
      AdvanceCursor(i);
      x := x + 1;
      if x > 79 {
        x := 0;
        y := y + 1;
      }
    }
  }
}
