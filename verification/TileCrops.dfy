/** Cutting and sharpening the tiles of an RGBA image (`heif_service.rs`, `crop_rgba`). */
module TileCrops {
  import opened Machine
  import opened Tiling

  /** Four bytes: red, green, blue, alpha. */
  type Pixel = p: seq<Byte> | |p| == 4 witness [0, 0, 0, 0]

  /** An `RgbaImage`: rows of pixels, one behind the other. */
  datatype Image = Image(width: nat, height: nat, bytes: seq<Byte>) {
    ghost predicate Valid() {
      width <= U32_MAX && height <= U32_MAX && |bytes| == 4 * (width * height)
    }

    /** The number of pixels before this one. */
    function Index(x: nat, y: nat): (n: nat)
      requires Valid() && x < width && y < height
      ensures 4 * n + 4 <= |bytes|
    {
      Scale(width, y + 1, height);
      width * y + x
    }
  }

  function PixelAt(image: Image, x: nat, y: nat): Pixel
    requires image.Valid() && x < image.width && y < image.height
  {
    var i := 4 * image.Index(x, y);
    image.bytes[i..i + 4]
  }

  // ---- Sharpening ----

  /** The `i32` expression of the source; it stays within a byte. */
  function PixelLuma(source: seq<Byte>, index: nat): (luma: nat)
    requires index + 4 <= |source|
    ensures luma <= 255
  {
    (2 * (source[index] as int) + 5 * (source[index + 1] as int) + (source[index + 2] as int)) / 8
  }

  function Luma(image: Image, x: nat, y: nat): nat
    requires image.Valid() && x < image.width && y < image.height
  {
    PixelLuma(image.bytes, 4 * image.Index(x, y))
  }

  /** The neighbour one step back or ahead, or the pixel itself at the edge. */
  function Back(n: nat): nat { SaturatingSub(n, 1) }

  function Ahead(n: nat, total: nat): nat
    requires n < total
  {
    if n + 1 < total - 1 then n + 1 else total - 1
  }

  function Laplacian(image: Image, x: nat, y: nat): int
    requires image.Valid() && x < image.width && y < image.height
  {
    4 * Luma(image, x, y)
    - Luma(image, Back(x), y) - Luma(image, Ahead(x, image.width), y)
    - Luma(image, x, Back(y)) - Luma(image, x, Ahead(y, image.height))
  }

  function Clamped(n: int): Byte {
    if n < 0 then 0 else if n > 255 then 255 else n
  }

  function Lifted(p: Pixel, delta: int): Pixel {
    [Clamped(p[0] as int + delta), Clamped(p[1] as int + delta), Clamped(p[2] as int + delta), p[3]]
  }

  /** What the tile shows at a pixel of the image. */
  function Shown(image: Image, sharpen: bool, x: nat, y: nat): Pixel
    requires image.Valid() && x < image.width && y < image.height
  {
    if sharpen then Lifted(PixelAt(image, x, y), TruncatingDiv(Laplacian(image, x, y), 5)) else PixelAt(image, x, y)
  }

  // ---- Crops ----

  datatype Rect = Rect(x: nat, y: nat, width: nat, height: nat) {
    predicate Inside(image: Image) {
      x + width <= image.width && y + height <= image.height
    }

    function Area(): nat { width * height }

    /** How many pixels come before the one at this row and column. */
    function Count(row: nat, col: nat): nat { width * row + col }
  }

  lemma CountPixels(r: Rect, row: nat, col: nat)
    requires row < r.height && col < r.width
    ensures r.Count(row, col) + 1 == r.Count(row, col + 1) <= r.Area()
  {
    Scale(r.width, row + 1, r.height);
  }

  lemma CountRows(r: Rect, row: nat)
    requires row <= r.height
    ensures r.Count(0, 0) == 0 && r.Count(r.height, 0) == r.Area()
    ensures r.Count(row, 0) <= r.Area()
    ensures row < r.height ==> r.Count(row, r.width) == r.Count(row + 1, 0) <= r.Area()
  {
    Scale(r.width, row, r.height);
    if row < r.height {
      Scale(r.width, row + 1, r.height);
    }
  }

  datatype Tile = Tile(width: nat, height: nat, stride: nat, bytes: seq<Byte>)

  /** `width * 4` in `u32`, which release builds wrap and debug builds refuse. */
  function Stride(width: nat): (stride: nat)
    ensures stride == 4 * width <==> width < 0x4000_0000
  {
    4 * width % 0x1_0000_0000
  }

  /** The `n`-th pixel of a rectangle, in row-major order. */
  function Nth(r: Rect, n: nat): (at: Corner)
    requires n < r.Area()
    ensures r.x <= at.x < r.x + r.width && r.y <= at.y < r.y + r.height
  {
    RowOf(r.width, r.height, n);
    Corner(r.x + n % r.width, r.y + n / r.width)
  }

  lemma RowOf(width: nat, height: nat, n: nat)
    requires n < width * height
    ensures width > 0 && n / width < height && n == width * (n / width) + n % width
  {
    if width > 0 && n / width >= height {
      Scale(width, height, n / width);
    }
  }

  /** The first `n` pixels of a rectangle. */
  function Crop(image: Image, sharpen: bool, r: Rect, n: nat): (bytes: seq<Byte>)
    requires image.Valid() && r.Inside(image) && n <= r.Area()
    ensures |bytes| == 4 * n
  {
    if n == 0 then []
    else
      var at := Nth(r, n - 1);
      Crop(image, sharpen, r, n - 1) + Shown(image, sharpen, at.x, at.y)
  }

  lemma {:induction false} CropNth(image: Image, sharpen: bool, r: Rect, n: nat, k: nat)
    requires image.Valid() && r.Inside(image) && k < n <= r.Area()
    ensures Crop(image, sharpen, r, n)[4 * k..4 * k + 4] == Shown(image, sharpen, Nth(r, k).x, Nth(r, k).y)
  {
    hide Shown;
    hide Nth;
    var at := Nth(r, n - 1);
    var before := Crop(image, sharpen, r, n - 1);
    if k < n - 1 {
      CropNth(image, sharpen, r, n - 1, k);
      assert Crop(image, sharpen, r, n)[4 * k..4 * k + 4] == before[4 * k..4 * k + 4];
    }
  }

  lemma NthOf(r: Rect, row: nat, col: nat)
    requires row < r.height && col < r.width
    ensures r.Count(row, col) < r.Area() && Nth(r, r.Count(row, col)) == Corner(r.x + col, r.y + row)
  {
    CountPixels(r, row, col);
    Division(r.width, row, col);
  }

  /** Pixel for pixel, a crop shows the image at the rectangle's place. */
  lemma CropShows(image: Image, sharpen: bool, r: Rect, row: nat, col: nat)
    requires image.Valid() && r.Inside(image) && row < r.height && col < r.width
    ensures r.Count(row, col) < r.Area()
    ensures var k := 4 * (r.Count(row, col));
      Crop(image, sharpen, r, r.Area())[k..k + 4] == Shown(image, sharpen, r.x + col, r.y + row)
  {
    hide Crop;
    hide Shown;
    hide Nth;
    hide Rect.Count;
    hide Rect.Area;
    NthOf(r, row, col);
    CropNth(image, sharpen, r, r.Area(), r.Count(row, col));
  }

  method Offset(image: Image, x: nat, y: nat) returns (index: nat)
    requires image.Valid() && x < image.width && y < image.height
    ensures index == 4 * image.Index(x, y)
  {
    var stride := image.width * 4;
    index := y * stride + x * 4;
    assert y * (image.width * 4) == 4 * (image.width * y);
  }

  /** One pixel, as the inner loop writes it. */
  method SharpenPixel(image: Image, x: nat, y: nat) returns (rgba: Pixel)
    requires image.Valid() && x < image.width && y < image.height
    ensures rgba == Shown(image, true, x, y)
  {
    hide PixelLuma;
    hide TruncatingDiv;
    hide Clamped;
    var source := image.bytes;
    var up, down := SaturatingSub(y, 1), if y + 1 < image.height - 1 then y + 1 else image.height - 1;
    var left, right := SaturatingSub(x, 1), if x + 1 < image.width - 1 then x + 1 else image.width - 1;
    var center := Offset(image, x, y);
    var atLeft := Offset(image, left, y);
    var atRight := Offset(image, right, y);
    var above := Offset(image, x, up);
    var below := Offset(image, x, down);
    hide Image.Index;
    var laplacian := 4 * PixelLuma(source, center)
      - PixelLuma(source, atLeft) - PixelLuma(source, atRight)
      - PixelLuma(source, above) - PixelLuma(source, below);
    assert laplacian == Laplacian(image, x, y);
    hide Laplacian;
    var delta := TruncatingDiv(laplacian, 5);
    rgba := [
      Clamped(source[center] as int + delta),
      Clamped(source[center + 1] as int + delta),
      Clamped(source[center + 2] as int + delta),
      source[center + 3]
    ];
  }

  /** The next pixel of a crop. */
  lemma CropGrows(image: Image, sharpen: bool, r: Rect, row: nat, col: nat)
    requires image.Valid() && r.Inside(image) && row < r.height && col < r.width
    ensures var n := r.Count(row, col);
      && n + 1 <= r.Area()
      && Crop(image, sharpen, r, n + 1) == Crop(image, sharpen, r, n) + Shown(image, sharpen, r.x + col, r.y + row)
  {
    NthOf(r, row, col);
  }

  /** Where a row of the rectangle starts; a rectangle without width may start at the right edge. */
  function RowStart(image: Image, r: Rect, row: nat): nat {
    4 * (image.width * (r.y + row) + r.x)
  }

  lemma IndexInRow(image: Image, r: Rect, row: nat, col: nat)
    requires image.Valid() && r.Inside(image) && row < r.height && col < r.width
    ensures 4 * image.Index(r.x + col, r.y + row) == RowStart(image, r, row) + 4 * col
  {
  }

  lemma RowStartFits(image: Image, r: Rect, row: nat)
    requires image.Valid() && r.Inside(image) && row < r.height
    ensures RowStart(image, r, row) <= |image.bytes|
  {
    Scale(image.width, r.y + row + 1, image.height);
  }

  /** The next row of an unsharpened crop is a slice of the image. */
  lemma {:induction false} CropGrowsByASlice(image: Image, r: Rect, row: nat, col: nat)
    requires image.Valid() && r.Inside(image) && row < r.height && col <= r.width
    ensures r.Count(row, 0) <= r.Count(row, col) <= r.Area()
    ensures var start := RowStart(image, r, row);
      && start + 4 * col <= |image.bytes|
      && Crop(image, false, r, r.Count(row, col))
         == Crop(image, false, r, r.Count(row, 0)) + image.bytes[start..start + 4 * col]
    decreases col
  {
    hide RowStart;
    hide Rect.Count;
    hide Rect.Area;
    hide Crop;
    hide Image.Index;
    CountRows(r, row);
    RowStartFits(image, r, row);
    var start := RowStart(image, r, row);
    if col > 0 {
      CropGrowsByASlice(image, r, row, col - 1);
      CountPixels(r, row, col - 1);
      CropGrows(image, false, r, row, col - 1);
      IndexInRow(image, r, row, col - 1);
      var end := start + 4 * (col - 1);
      assert image.bytes[start..end] + image.bytes[end..end + 4] == image.bytes[start..end + 4];
    }
  }

  lemma EmptyCrop(image: Image, sharpen: bool, r: Rect)
    requires image.Valid() && r.Inside(image)
    ensures r.Count(0, 0) <= r.Area() && Crop(image, sharpen, r, r.Count(0, 0)) == []
  {
    CountRows(r, 0);
  }

  method CopyRows(image: Image, r: Rect) returns (rgba: seq<Byte>)
    requires image.Valid() && r.Inside(image)
    ensures rgba == Crop(image, false, r, r.Area())
  {
    hide Crop;
    hide Rect.Count;
    hide Rect.Area;
    var rowBytes := r.width * 4;
    var stride := image.width * 4;
    rgba := [];
    var row := 0;
    EmptyCrop(image, false, r);
    while row < r.height
      invariant row <= r.height && r.Count(row, 0) <= r.Area()
      invariant rgba == Crop(image, false, r, r.Count(row, 0))
    {
      var start := (r.y + row) * stride + r.x * 4;
      StrideIsFourBytes(image.width, r.y + row, r.x);
      CropGrowsByASlice(image, r, row, r.width);
      rgba := rgba + image.bytes[start..start + rowBytes];
      CountRows(r, row);
      row := row + 1;
    }
    CountRows(r, row);
  }

  lemma StrideIsFourBytes(width: nat, y: nat, x: nat)
    ensures y * (width * 4) + x * 4 == 4 * (width * y + x)
  {
    assert y * (width * 4) == 4 * (width * y);
  }

  method SharpenRows(image: Image, r: Rect) returns (rgba: seq<Byte>)
    requires image.Valid() && r.Inside(image)
    ensures rgba == Crop(image, true, r, r.Area())
  {
    hide Crop;
    hide Shown;
    hide Rect.Count;
    hide Rect.Area;
    rgba := [];
    var row := 0;
    EmptyCrop(image, true, r);
    while row < r.height
      invariant row <= r.height && r.Count(row, 0) <= r.Area()
      invariant rgba == Crop(image, true, r, r.Count(row, 0))
    {
      var col := 0;
      while col < r.width
        invariant col <= r.width && r.Count(row, col) <= r.Area()
        invariant rgba == Crop(image, true, r, r.Count(row, col))
      {
        var pixel := SharpenPixel(image, r.x + col, r.y + row);
        CountPixels(r, row, col);
        CropGrows(image, true, r, row, col);
        rgba := rgba + pixel;
        col := col + 1;
      }
      CountRows(r, row);
      row := row + 1;
    }
    CountRows(r, row);
  }

  method CropRgbaRect(image: Image, r: Rect, sharpen: bool) returns (tile: Tile)
    requires image.Valid() && r.Inside(image)
    ensures tile == Tile(r.width, r.height, Stride(r.width), Crop(image, sharpen, r, r.Area()))
  {
    var rgba: seq<Byte>;
    if !sharpen {
      rgba := CopyRows(image, r);
    } else {
      rgba := SharpenRows(image, r);
    }
    tile := Tile(r.width, r.height, Stride(r.width), rgba);
  }

  /** The tile with its corner at `(x, y)`: what is left of the image there, at most `tileSize` each way. */
  method CropRgba(image: Image, x: nat, y: nat, tileSize: nat, sharpen: bool) returns (tile: Tile)
    requires image.Valid() && x <= image.width && y <= image.height
    ensures InImage(image, Corner(x, y))
    ensures var r := TileRect(image, Corner(x, y), tileSize);
      && tile == Tile(r.width, r.height, Stride(r.width), Crop(image, sharpen, r, r.Area()))
      && (tileSize < 0x4000_0000 ==> tile.stride == 4 * tile.width)
  {
    var width := if tileSize < image.width - x then tileSize else image.width - x;
    var height := if tileSize < image.height - y then tileSize else image.height - y;
    tile := CropRgbaRect(image, Rect(x, y, width, height), sharpen);
  }

  function TileRect(image: Image, c: Corner, tileSize: nat): (r: Rect)
    requires InImage(image, c)
    ensures r.Inside(image)
  {
    Rect(c.x, c.y, Extent(c.x, image.width, tileSize), Extent(c.y, image.height, tileSize))
  }

  // ---- Tiles against the whole image ----

  /** The whole image, sharpened or as it is, pixel by pixel. */
  function Whole(image: Image, sharpen: bool): (pixels: seq<Pixel>)
    requires image.Valid()
    ensures |pixels| == image.width * image.height
  {
    seq(image.width * image.height, n requires 0 <= n < image.width * image.height =>
      var at := Nth(Rect(0, 0, image.width, image.height), n);
      Shown(image, sharpen, at.x, at.y))
  }

  predicate Within(r: Rect, at: Corner) {
    r.x <= at.x < r.x + r.width && r.y <= at.y < r.y + r.height
  }

  /** The pixel of a tile's bytes that belongs at `at`. */
  function TilePixel(r: Rect, bytes: seq<Byte>, at: Corner): Pixel
    requires |bytes| == 4 * r.Area() && Within(r, at)
  {
    NthOf(r, at.y - r.y, at.x - r.x);
    var k := 4 * r.Count(at.y - r.y, at.x - r.x);
    bytes[k..k + 4]
  }

  /** The viewer copies the tile with its corner at `c` into its canvas. */
  function Drawn(image: Image, sharpen: bool, c: Corner, tileSize: nat, canvas: seq<Pixel>): (after: seq<Pixel>)
    requires image.Valid() && |canvas| == image.width * image.height && InImage(image, c)
    ensures |after| == |canvas|
  {
    var r := TileRect(image, c, tileSize);
    var bytes := Crop(image, sharpen, r, r.Area());
    seq(|canvas|, n requires 0 <= n < |canvas| =>
      var at := Nth(Rect(0, 0, image.width, image.height), n);
      if Within(r, at) then TilePixel(r, bytes, at) else canvas[n])
  }

  predicate InImage(image: Image, c: Corner) {
    c.x <= image.width && c.y <= image.height
  }

  function DrawnAll(image: Image, sharpen: bool, tiles: seq<Corner>, tileSize: nat, canvas: seq<Pixel>): (after: seq<Pixel>)
    requires image.Valid() && |canvas| == image.width * image.height
    requires forall c :: c in tiles ==> InImage(image, c)
    ensures |after| == |canvas|
  {
    if tiles == [] then canvas
    else
      assert InImage(image, tiles[0]);
      DrawnAll(image, sharpen, tiles[1..], tileSize, Drawn(image, sharpen, tiles[0], tileSize, canvas))
  }

  lemma TilePixelShows(image: Image, sharpen: bool, r: Rect, at: Corner)
    requires image.Valid() && r.Inside(image) && Within(r, at)
    ensures TilePixel(r, Crop(image, sharpen, r, r.Area()), at) == Shown(image, sharpen, at.x, at.y)
  {
    hide Crop;
    hide Shown;
    hide Rect.Count;
    hide Rect.Area;
    CropShows(image, sharpen, r, at.y - r.y, at.x - r.x);
  }

  /** A pixel inside the tile becomes the whole image's pixel; any other stays. */
  lemma DrawnPixel(image: Image, sharpen: bool, c: Corner, tileSize: nat, canvas: seq<Pixel>, n: nat)
    requires image.Valid() && |canvas| == image.width * image.height && n < |canvas| && InImage(image, c)
    ensures var at := Nth(Rect(0, 0, image.width, image.height), n);
      Drawn(image, sharpen, c, tileSize, canvas)[n]
      == if Covers(c, image.width, image.height, tileSize, at.x, at.y) then Whole(image, sharpen)[n] else canvas[n]
  {
    hide Crop;
    hide TilePixel;
    hide Nth;
    hide Shown;
    var at := Nth(Rect(0, 0, image.width, image.height), n);
    var r := TileRect(image, c, tileSize);
    if Within(r, at) {
      TilePixelShows(image, sharpen, r, at);
    }
  }

  /** Drawn tiles never disagree: a pixel is the whole image's as soon as one tile covers it. */
  lemma {:induction false} DrawnAllPixel(
      image: Image, sharpen: bool, tiles: seq<Corner>, tileSize: nat, canvas: seq<Pixel>, n: nat)
    requires image.Valid() && |canvas| == image.width * image.height && n < |canvas|
    requires forall c :: c in tiles ==> InImage(image, c)
    requires var at := Nth(Rect(0, 0, image.width, image.height), n);
      canvas[n] == Whole(image, sharpen)[n]
      || exists i :: 0 <= i < |tiles| && Covers(tiles[i], image.width, image.height, tileSize, at.x, at.y)
    ensures DrawnAll(image, sharpen, tiles, tileSize, canvas)[n] == Whole(image, sharpen)[n]
  {
    hide Whole;
    hide Drawn;
    hide Nth;
    hide Covers;
    if tiles != [] {
      assert InImage(image, tiles[0]);
      DrawnPixel(image, sharpen, tiles[0], tileSize, canvas, n);
      var at := Nth(Rect(0, 0, image.width, image.height), n);
      if i :| 0 <= i < |tiles| && Covers(tiles[i], image.width, image.height, tileSize, at.x, at.y) && i > 0 {
        assert Covers(tiles[1..][i - 1], image.width, image.height, tileSize, at.x, at.y);
      }
      DrawnAllPixel(image, sharpen, tiles[1..], tileSize, Drawn(image, sharpen, tiles[0], tileSize, canvas), n);
    }
  }

  /** The tiles of the list, drawn on any canvas, are the whole image: no pixel is missing, no seam shows. */
  lemma TilesRebuildTheImage(image: Image, sharpen: bool, tileSize: nat, canvas: seq<Pixel>)
    requires image.Valid() && tileSize > 0 && |canvas| == image.width * image.height
    ensures forall c :: c in Tiles(image.width, image.height, tileSize) ==> InImage(image, c)
    ensures DrawnAll(image, sharpen, Tiles(image.width, image.height, tileSize), tileSize, canvas) == Whole(image, sharpen)
  {
    var tiles := Tiles(image.width, image.height, tileSize);
    TileMembers(image.width, image.height, tileSize);
    var drawn := DrawnAll(image, sharpen, tiles, tileSize, canvas);
    forall n | 0 <= n < |canvas|
      ensures drawn[n] == Whole(image, sharpen)[n]
    {
      var at := Nth(Rect(0, 0, image.width, image.height), n);
      var i := EveryPixelOnce(image.width, image.height, tileSize, at.x, at.y);
      assert Covers(tiles[i], image.width, image.height, tileSize, at.x, at.y);
      DrawnAllPixel(image, sharpen, tiles, tileSize, canvas, n);
    }
  }

  /** Unsharpened, the whole image is the source, byte for byte. */
  lemma PlainWholeIsTheSource(image: Image, n: nat)
    requires image.Valid() && n < image.width * image.height
    ensures 4 * n + 4 <= |image.bytes| && Whole(image, false)[n] == image.bytes[4 * n..4 * n + 4]
  {
    RowOf(image.width, image.height, n);
  }

  // ---- What sharpening does to a pixel ----

  lemma TruncatingFifth(n: int)
    requires -1020 <= n <= 1020
    ensures -204 <= TruncatingDiv(n, 5) <= 204
  {
  }

  lemma LiftedIsBounded(was: Pixel, delta: int, c: nat, d: nat)
    requires -204 <= delta <= 204 && c < 3 && d < 3
    ensures var now := Lifted(was, delta);
      && now[3] == was[3]
      && (was[c] as int) - 204 <= now[c] <= (was[c] as int) + 204
      && (was[c] <= was[d] ==> now[c] <= now[d])
      && (0 < now[c] < 255 && 0 < now[d] < 255 ==> (now[c] as int) - now[d] == (was[c] as int) - was[d])
  {
    var now := Lifted(was, delta);
    assert now[c] == Clamped(was[c] as int + delta) && now[d] == Clamped(was[d] as int + delta);
  }

  lemma LaplacianIsBounded(image: Image, x: nat, y: nat)
    requires image.Valid() && x < image.width && y < image.height
    ensures -1020 <= Laplacian(image, x, y) <= 1020
  {
    hide PixelLuma;
    hide Image.Index;
  }

  /**
   Nothing overflows; alpha stays; no channel moves by more than 204; the order of the
   channels is kept, and so are their differences where no channel is cut off.
   */
  lemma SharpeningIsBounded(image: Image, x: nat, y: nat, c: nat, d: nat)
    requires image.Valid() && x < image.width && y < image.height && c < 3 && d < 3
    ensures var was, now := PixelAt(image, x, y), Shown(image, true, x, y);
      && now[3] == was[3]
      && (was[c] as int) - 204 <= now[c] <= (was[c] as int) + 204
      && (was[c] <= was[d] ==> now[c] <= now[d])
      && (0 < now[c] < 255 && 0 < now[d] < 255 ==> (now[c] as int) - now[d] == (was[c] as int) - was[d])
  {
    hide Laplacian;
    hide Image.Index;
    LaplacianIsBounded(image, x, y);
    TruncatingFifth(Laplacian(image, x, y));
    hide TruncatingDiv;
    LiftedIsBounded(PixelAt(image, x, y), TruncatingDiv(Laplacian(image, x, y), 5), c, d);
    hide Lifted;
  }

  /** Where the luma does not change, neither does the pixel. */
  lemma FlatStaysFlat(image: Image, x: nat, y: nat)
    requires image.Valid() && x < image.width && y < image.height
    requires Luma(image, Back(x), y) == Luma(image, x, y) == Luma(image, Ahead(x, image.width), y)
    requires Luma(image, x, Back(y)) == Luma(image, x, y) == Luma(image, x, Ahead(y, image.height))
    ensures Shown(image, true, x, y) == PixelAt(image, x, y)
  {
    var p := PixelAt(image, x, y);
    assert Lifted(p, 0) == p;
  }

  // ---- In which direction ----

  /** A grey pixel has its own value. */
  lemma GreyIsItsOwnLuma(v: Byte, alpha: Byte)
    ensures PixelLuma([v, v, v, alpha], 0) == v
  {
  }

  /** Eight more of red, green or blue make two, five or one more; alpha makes nothing. */
  lemma LumaWeights(r: Byte, g: Byte, b: Byte, a: Byte, other: Byte)
    ensures r < 248 ==> PixelLuma([r + 8, g, b, a], 0) == PixelLuma([r, g, b, a], 0) + 2
    ensures g < 248 ==> PixelLuma([r, g + 8, b, a], 0) == PixelLuma([r, g, b, a], 0) + 5
    ensures b < 248 ==> PixelLuma([r, g, b + 8, a], 0) == PixelLuma([r, g, b, a], 0) + 1
    ensures PixelLuma([r, g, b, other], 0) == PixelLuma([r, g, b, a], 0)
  {
  }

  predicate OnImage(image: Image, x: int, y: int) {
    0 <= x < image.width && 0 <= y < image.height
  }

  /** How far the pixel's luma lies above that of a place beside it; off the image, not at all. */
  function Above(image: Image, x: nat, y: nat, nx: int, ny: int): int
    requires image.Valid() && OnImage(image, x, y)
  {
    if OnImage(image, nx, ny) then Luma(image, x, y) as int - Luma(image, nx, ny) else 0
  }

  function AboveAll(image: Image, x: nat, y: nat): int
    requires image.Valid() && OnImage(image, x, y)
  {
    Above(image, x, y, x - 1, y) + Above(image, x, y, x + 1, y) + Above(image, x, y, x, y - 1) + Above(image, x, y, x, y + 1)
  }

  lemma LaplacianIsAboveAll(image: Image, x: nat, y: nat)
    requires image.Valid() && OnImage(image, x, y)
    ensures Laplacian(image, x, y) == AboveAll(image, x, y)
  {
    hide Luma;
  }

  /** One fifth of `sum`, toward zero. */
  predicate IsFifth(q: int, sum: int) {
    if sum >= 0 then 5 * q <= sum < 5 * q + 5 else 5 * q - 5 < sum <= 5 * q
  }

  predicate IsCutOff(n: int, shown: int) {
    shown == if n < 0 then 0 else if n > 255 then 255 else n
  }

  /** Every colour channel moves by one fifth of how far the pixel stands out, and is cut off at the ends. */
  lemma SharpeningMovesByAFifth(image: Image, x: nat, y: nat) returns (q: int)
    requires image.Valid() && OnImage(image, x, y)
    ensures IsFifth(q, AboveAll(image, x, y))
    ensures var was, now := PixelAt(image, x, y), Shown(image, true, x, y);
      && (forall c :: 0 <= c < 3 ==> IsCutOff(was[c] as int + q, now[c])) && now[3] == was[3]
  {
    LaplacianIsAboveAll(image, x, y);
    hide Laplacian;
    hide Image.Index;
    q := TruncatingDiv(AboveAll(image, x, y), 5);
    FifthOf(AboveAll(image, x, y));
    hide AboveAll;
    hide TruncatingDiv;
    LiftedIsCutOff(PixelAt(image, x, y), q);
    hide Lifted;
  }

  lemma FifthOf(sum: int)
    ensures IsFifth(TruncatingDiv(sum, 5), sum)
  {
  }

  lemma LiftedIsCutOff(was: Pixel, q: int)
    ensures var now := Lifted(was, q);
      (forall c :: 0 <= c < 3 ==> IsCutOff(was[c] as int + q, now[c])) && now[3] == was[3]
  {
    var now := Lifted(was, q);
    assert now[0] == Clamped(was[0] as int + q) && now[1] == Clamped(was[1] as int + q) && now[2] == Clamped(was[2] as int + q);
  }

  predicate Beside(x: nat, y: nat, nx: int, ny: int) {
    (ny == y && (nx == x - 1 || nx == x + 1)) || (nx == x && (ny == y - 1 || ny == y + 1))
  }

  /** A pixel that no neighbour outshines gets darker in no channel; one that outshines none gets brighter in none. */
  lemma SharpeningDeepensContrast(image: Image, x: nat, y: nat, c: nat)
    requires image.Valid() && OnImage(image, x, y) && c < 3
    ensures (forall nx, ny :: Beside(x, y, nx, ny) && OnImage(image, nx, ny) ==> Luma(image, nx, ny) <= Luma(image, x, y))
      ==> Shown(image, true, x, y)[c] >= PixelAt(image, x, y)[c]
    ensures (forall nx, ny :: Beside(x, y, nx, ny) && OnImage(image, nx, ny) ==> Luma(image, nx, ny) >= Luma(image, x, y))
      ==> Shown(image, true, x, y)[c] <= PixelAt(image, x, y)[c]
  {
    var q := SharpeningMovesByAFifth(image, x, y);
    hide Luma;
    hide Shown;
    hide PixelAt;
    assert Beside(x, y, x - 1, y) && Beside(x, y, x + 1, y) && Beside(x, y, x, y - 1) && Beside(x, y, x, y + 1);
    var was, now := PixelAt(image, x, y), Shown(image, true, x, y);
    assert IsCutOff(was[c] as int + q, now[c]);
  }

  function One(b: bool): nat { if b then 1 else 0 }

  /** How many of the four places beside a pixel are on the image. */
  function Neighbours(image: Image, x: nat, y: nat): nat {
    One(OnImage(image, x - 1, y)) + One(OnImage(image, x + 1, y)) + One(OnImage(image, x, y - 1)) + One(OnImage(image, x, y + 1))
  }

  lemma FourTimes(a: bool, b: bool, c: bool, e: bool, d: nat)
    ensures (if a then d else 0) + (if b then d else 0) + (if c then d else 0) + (if e then d else 0)
      == (One(a) + One(b) + One(c) + One(e)) * d
  {
  }

  lemma AllStandOutAlike(image: Image, x: nat, y: nat, d: nat)
    requires image.Valid() && OnImage(image, x, y)
    requires forall nx, ny :: Beside(x, y, nx, ny) && OnImage(image, nx, ny) ==> Luma(image, nx, ny) + d == Luma(image, x, y)
    ensures AboveAll(image, x, y) == Neighbours(image, x, y) * d
  {
    hide Luma;
    assert Beside(x, y, x - 1, y) && Beside(x, y, x + 1, y) && Beside(x, y, x, y - 1) && Beside(x, y, x, y + 1);
    FourTimes(OnImage(image, x - 1, y), OnImage(image, x + 1, y), OnImage(image, x, y - 1), OnImage(image, x, y + 1), d);
    hide One;
  }

  lemma FifthIsTheQuotient(q: int, sum: nat)
    requires IsFifth(q, sum)
    ensures q == sum / 5
  {
  }

  /** Where every neighbour lies `d` below, each channel rises by a fifth of all of that, unless it is cut off. */
  lemma PeaksRise(image: Image, x: nat, y: nat, d: nat, c: nat)
    requires image.Valid() && OnImage(image, x, y) && c < 3
    requires forall nx, ny :: Beside(x, y, nx, ny) && OnImage(image, nx, ny) ==> Luma(image, nx, ny) + d == Luma(image, x, y)
    ensures var rise, was := Neighbours(image, x, y) * d / 5, PixelAt(image, x, y)[c];
      Shown(image, true, x, y)[c] as int == if was + rise > 255 then 255 else was + rise
  {
    var q := SharpeningMovesByAFifth(image, x, y);
    AllStandOutAlike(image, x, y, d);
    var sum: nat := Neighbours(image, x, y) * d;
    FifthIsTheQuotient(q, sum);
    hide Luma;
    hide Shown;
    hide PixelAt;
    hide AboveAll;
    hide Neighbours;
    hide IsFifth;
    var was, now := PixelAt(image, x, y), Shown(image, true, x, y);
    assert IsCutOff(was[c] as int + q, now[c]);
  }
}
