/** The order in which a decoded image is cut into tiles (`heif_service.rs`, `tile_coordinates`). */
module Tiling {
  import opened Machine
  import opened Sorting

  datatype Corner = Corner(x: nat, y: nat)

  /** Where the tile with this corner ends: the image may cut it off. */
  function Extent(from: nat, total: nat, tile: nat): nat
    requires from <= total
  {
    if tile < total - from then tile else total - from
  }

  predicate Covers(c: Corner, width: nat, height: nat, tile: nat, px: nat, py: nat) {
    && c.x <= width && c.x <= px < c.x + Extent(c.x, width, tile)
    && c.y <= height && c.y <= py < c.y + Extent(c.y, height, tile)
  }

  // ---- The grid ----

  function Row(y: nat, x: nat, width: nat, tile: nat): seq<Corner>
    requires tile > 0
    decreases width - x
  {
    if x < width then [Corner(x, y)] + Row(y, x + tile, width, tile) else []
  }

  function Grid(y: nat, width: nat, height: nat, tile: nat): seq<Corner>
    requires tile > 0
    decreases height - y
  {
    if y < height then Row(y, 0, width, tile) + Grid(y + tile, width, height, tile) else []
  }

  /** The square of the distance between the tile's centre and the image's. */
  function Distance(c: Corner, width: nat, height: nat, tile: nat): int {
    if c.x <= width && c.y <= height then
      Square(c.x + Extent(c.x, width, tile) / 2 - width / 2) + Square(c.y + Extent(c.y, height, tile) / 2 - height / 2)
    else 0
  }

  function Square(n: int): int { n * n }

  function Nearer(width: nat, height: nat, tile: nat): (Corner, Corner) -> bool {
    (a, b) => Distance(a, width, height, tile) <= Distance(b, width, height, tile)
  }

  function RowMajor(): (Corner, Corner) -> bool {
    (a: Corner, b: Corner) => a.y < b.y || (a.y == b.y && a.x < b.x)
  }

  function Tiles(width: nat, height: nat, tile: nat): seq<Corner>
    requires tile > 0
  {
    StableSort(Grid(0, width, height, tile), Nearer(width, height, tile))
  }

  method TileCoordinates(width: nat, height: nat, tile: nat) returns (result: seq<Corner>)
    requires 0 < tile <= U32_MAX && width <= U32_MAX && height <= U32_MAX
    ensures result == Tiles(width, height, tile)
  {
    result := [];
    var y := 0;
    while y < height
      invariant result + Grid(y, width, height, tile) == Grid(0, width, height, tile)
    {
      ghost var done := result;
      var x := 0;
      while x < width
        invariant result + Row(y, x, width, tile) == done + Row(y, 0, width, tile)
      {
        ghost var rest := Row(y, x + tile, width, tile);
        assert result + ([Corner(x, y)] + rest) == result + [Corner(x, y)] + rest;
        result := result + [Corner(x, y)];
        x := x + tile;
      }
      assert result + [] == result;
      ghost var below := Grid(y + tile, width, height, tile);
      assert done + (Row(y, 0, width, tile) + below) == done + Row(y, 0, width, tile) + below;
      y := y + tile;
    }
    assert result + [] == result;
    result := StableSort(result, Nearer(width, height, tile));
  }

  /** The key is computed in `i64` without overflow. */
  lemma DistanceFits(c: Corner, width: nat, height: nat, tile: nat)
    requires width <= U32_MAX && height <= U32_MAX && c.x < width && c.y < height
    ensures 0 <= Distance(c, width, height, tile) <= 0x7FFF_FFFF_FFFF_FFFF
  {
    SquareBound(c.x + Extent(c.x, width, tile) / 2 - width / 2);
    SquareBound(c.y + Extent(c.y, height, tile) / 2 - height / 2);
  }

  lemma Scale(a: nat, b: int, c: int)
    requires b <= c
    ensures a * b <= a * c
  {
    assert a * (c - b) >= 0;
  }

  lemma SquareBound(n: int)
    requires -0x7FFF_FFFF <= n <= 0x7FFF_FFFF
    ensures 0 <= Square(n) <= 0x3FFF_FFFF_0000_0001
  {
    var m := if n < 0 then -n else n;
    assert n * n == m * m;
    Scale(m, m, 0x7FFF_FFFF);
    Scale(m, 0, m);
  }

  // ---- What the grid holds ----

  /** Division with remainder is unique. */
  lemma Division(tile: nat, q: int, r: int)
    requires 0 <= r < tile
    ensures (tile * q + r) / tile == q && (tile * q + r) % tile == r
  {
    var n := tile * q + r;
    var p, m := n / tile, n % tile;
    assert n == tile * p + m;
    if p < q {
      Scale(tile, p + 1, q);
    } else if q < p {
      Scale(tile, q + 1, p);
    }
  }

  lemma Multiples(a: nat, b: nat, tile: nat)
    requires tile > 0 && a % tile == 0 && b % tile == 0 && a <= b < a + tile
    ensures a == b
  {
    assert b == tile * (a / tile) + (b - a);
    Division(tile, a / tile, b - a);
  }

  lemma NextMultiple(a: nat, tile: nat)
    requires tile > 0 && a % tile == 0
    ensures (a + tile) % tile == 0
  {
    var q := a / tile;
    assert a + tile == tile * (q + 1) + 0;
    Division(tile, q + 1, 0);
  }

  predicate InRow(c: Corner, y: nat, x: nat, width: nat, tile: nat)
    requires tile > 0
  {
    c.y == y && x <= c.x < width && c.x % tile == 0
  }

  lemma {:induction false} RowMembers(y: nat, x: nat, width: nat, tile: nat)
    requires tile > 0 && x % tile == 0
    ensures forall c :: c in Row(y, x, width, tile) <==> InRow(c, y, x, width, tile)
    ensures Pairwise(Row(y, x, width, tile), RowMajor())
    decreases width - x
  {
    if x < width {
      NextMultiple(x, tile);
      RowMembers(y, x + tile, width, tile);
      forall c
        ensures c in Row(y, x, width, tile) <==> InRow(c, y, x, width, tile)
      {
        if InRow(c, y, x, width, tile) && c.x < x + tile {
          Multiples(x, c.x, tile);
        }
      }
      PrependPairwise(Corner(x, y), Row(y, x + tile, width, tile), RowMajor());
    }
  }

  predicate InGrid(c: Corner, y: nat, width: nat, height: nat, tile: nat)
    requires tile > 0
  {
    y <= c.y < height && c.y % tile == 0 && c.x < width && c.x % tile == 0
  }

  lemma JoinPairwise<T>(a: seq<T>, b: seq<T>, rel: (T, T) -> bool)
    requires Pairwise(a, rel) && Pairwise(b, rel) && forall x, y :: x in a && y in b ==> rel(x, y)
    ensures Pairwise(a + b, rel)
  {
  }

  lemma {:induction false} GridMembers(y: nat, width: nat, height: nat, tile: nat)
    requires tile > 0 && y % tile == 0
    ensures forall c :: c in Grid(y, width, height, tile) <==> InGrid(c, y, width, height, tile)
    ensures Pairwise(Grid(y, width, height, tile), RowMajor())
    decreases height - y
  {
    if y < height {
      NextMultiple(y, tile);
      RowMembers(y, 0, width, tile);
      GridMembers(y + tile, width, height, tile);
      forall c
        ensures c in Grid(y, width, height, tile) <==> InGrid(c, y, width, height, tile)
      {
        if InGrid(c, y, width, height, tile) && c.y < y + tile {
          Multiples(y, c.y, tile);
        }
      }
      JoinPairwise(Row(y, 0, width, tile), Grid(y + tile, width, height, tile), RowMajor());
    }
  }

  // ---- The promises ----

  lemma TileMembers(width: nat, height: nat, tile: nat)
    requires tile > 0
    ensures forall c :: c in Tiles(width, height, tile) <==> InGrid(c, 0, width, height, tile)
  {
    var grid := Grid(0, width, height, tile);
    GridMembers(0, width, height, tile);
    SortPermutes(grid, Nearer(width, height, tile));
    SameElements(Tiles(width, height, tile), grid);
  }

  /** Nearest to the centre first; tiles equally near stay in row-major order, so the order is strict. */
  lemma TilesAreOrdered(width: nat, height: nat, tile: nat, i: nat, j: nat)
    requires tile > 0 && i < j < |Tiles(width, height, tile)|
    ensures var tiles := Tiles(width, height, tile);
      var di, dj := Distance(tiles[i], width, height, tile), Distance(tiles[j], width, height, tile);
      di < dj || (di == dj && RowMajor()(tiles[i], tiles[j]))
  {
    GridMembers(0, width, height, tile);
    SortIsStable(Grid(0, width, height, tile), Nearer(width, height, tile), RowMajor());
    var tiles := Tiles(width, height, tile);
    assert Before(Nearer(width, height, tile), RowMajor(), tiles[i], tiles[j]);
  }

  lemma Floor(p: nat, total: nat, tile: nat) returns (from: nat)
    requires tile > 0 && p < total
    ensures from % tile == 0 && from <= p < from + Extent(from, total, tile)
    ensures from < total
  {
    from := tile * (p / tile);
    Division(tile, p / tile, 0);
  }

  /** Every pixel lies in exactly one tile of the list. */
  lemma EveryPixelOnce(width: nat, height: nat, tile: nat, px: nat, py: nat) returns (i: nat)
    requires tile > 0 && px < width && py < height
    ensures i < |Tiles(width, height, tile)|
    ensures forall j :: 0 <= j < |Tiles(width, height, tile)| ==>
      (Covers(Tiles(width, height, tile)[j], width, height, tile, px, py) <==> j == i)
  {
    var tiles := Tiles(width, height, tile);
    TileMembers(width, height, tile);
    var x := Floor(px, width, tile);
    var y := Floor(py, height, tile);
    var home := Corner(x, y);
    assert InGrid(home, 0, width, height, tile);
    i :| 0 <= i < |tiles| && tiles[i] == home;
    forall j | 0 <= j < |tiles|
      ensures Covers(tiles[j], width, height, tile, px, py) <==> j == i
    {
      assert InGrid(tiles[j], 0, width, height, tile);
      if Covers(tiles[j], width, height, tile, px, py) {
        OneMultipleCovers(tiles[j].x, x, px, tile);
        OneMultipleCovers(tiles[j].y, y, py, tile);
        if i < j {
          TilesAreOrdered(width, height, tile, i, j);
        } else if j < i {
          TilesAreOrdered(width, height, tile, j, i);
        }
      }
    }
  }

  lemma OneMultipleCovers(a: nat, b: nat, p: nat, tile: nat)
    requires tile > 0 && a % tile == 0 && b % tile == 0 && a <= p < a + tile && b <= p < b + tile
    ensures a == b
  {
    if a <= b {
      Multiples(a, b, tile);
    } else {
      Multiples(b, a, tile);
    }
  }

  // ---- How many ----

  function Steps(from: nat, total: nat, tile: nat): nat
    requires tile > 0
    decreases total - from
  {
    if from < total then 1 + Steps(from + tile, total, tile) else 0
  }

  lemma {:induction false} StepsRoundUp(from: nat, total: nat, tile: nat)
    requires tile > 0
    ensures Steps(from, total, tile) == if from < total then (total - from + tile - 1) / tile else 0
    decreases total - from
  {
    if from < total {
      StepsRoundUp(from + tile, total, tile);
      var n := total - from - 1;
      assert n == tile * (n / tile) + n % tile;
      assert n + tile == tile * (n / tile + 1) + n % tile;
      Division(tile, n / tile + 1, n % tile);
      if n < tile {
        Division(tile, 0, n);
      }
    }
  }

  lemma {:induction false} RowLength(y: nat, x: nat, width: nat, tile: nat)
    requires tile > 0
    ensures |Row(y, x, width, tile)| == Steps(x, width, tile)
    decreases width - x
  {
    if x < width {
      RowLength(y, x + tile, width, tile);
    }
  }

  lemma {:induction false} GridLength(y: nat, width: nat, height: nat, tile: nat)
    requires tile > 0
    ensures |Grid(y, width, height, tile)| == Steps(y, height, tile) * Steps(0, width, tile)
    decreases height - y
  {
    if y < height {
      RowLength(y, 0, width, tile);
      GridLength(y + tile, width, height, tile);
      var rows, columns := Steps(y + tile, height, tile), Steps(0, width, tile);
      assert (1 + rows) * columns == columns + rows * columns;
    }
  }

  function Ceiling(total: nat, tile: nat): nat
    requires tile > 0
  {
    (total + tile - 1) / tile
  }

  lemma StepsFromZero(total: nat, tile: nat)
    requires tile > 0
    ensures Steps(0, total, tile) == Ceiling(total, tile)
  {
    StepsRoundUp(0, total, tile);
    Division(tile, 0, tile - 1);
  }

  /** One tile for every started tile height and tile width. */
  lemma TileCount(width: nat, height: nat, tile: nat)
    requires tile > 0
    ensures |Tiles(width, height, tile)| == Ceiling(height, tile) * Ceiling(width, tile)
  {
    hide Ceiling;
    var grid := Grid(0, width, height, tile);
    SortPermutes(grid, Nearer(width, height, tile));
    SameElements(Tiles(width, height, tile), grid);
    GridLength(0, width, height, tile);
    StepsFromZero(width, tile);
    StepsFromZero(height, tile);
  }

  /** A tile's middle along one axis, rounded down. */
  function Middle(from: nat, total: nat, tile: nat): nat
    requires from <= total
  {
    from + (if from + tile <= total then tile else total - from) / 2
  }

  function Apart(a: nat, b: nat): nat {
    if a < b then b - a else a - b
  }

  /** The order in a caller's terms: middles nearer to the middle of the image come first. */
  lemma NearerMiddlesComeFirst(width: nat, height: nat, tile: nat, i: nat, j: nat)
    requires tile > 0 && i < j < |Tiles(width, height, tile)|
    ensures var a, b := Tiles(width, height, tile)[i], Tiles(width, height, tile)[j];
      && a.x < width && b.x < width && a.y < height && b.y < height
      && var fromX, fromY := Apart(Middle(a.x, width, tile), width / 2), Apart(Middle(a.y, height, tile), height / 2);
      var toX, toY := Apart(Middle(b.x, width, tile), width / 2), Apart(Middle(b.y, height, tile), height / 2);
      fromX * fromX + fromY * fromY <= toX * toX + toY * toY
  {
    var tiles := Tiles(width, height, tile);
    TileMembers(width, height, tile);
    TilesAreOrdered(width, height, tile, i, j);
    var a, b := tiles[i], tiles[j];
    assert InGrid(a, 0, width, height, tile) && InGrid(b, 0, width, height, tile);
    hide Tiles;
    SquaredApart(Middle(a.x, width, tile), width / 2);
    SquaredApart(Middle(a.y, height, tile), height / 2);
    SquaredApart(Middle(b.x, width, tile), width / 2);
    SquaredApart(Middle(b.y, height, tile), height / 2);
    hide Square;
    hide Apart;
  }

  lemma SquaredApart(a: nat, b: nat)
    ensures Square(a - b) == Apart(a, b) * Apart(a, b)
  {
    assert (a - b) * (a - b) == (b - a) * (b - a);
  }
}
