/** Integer arithmetic behind drawing the tile map: Go's truncating
    division, the placement of a cell of a layer on the screen, and the
    source rectangle of a tile id in the tileset image. */
module Tiles {
  import opened Numeric

  /** Side of a tile, in pixels, on screen and in the tileset. */
  const TileSize: int := 16
  /** Number of tiles in one row of the tileset image. */
  const TilesetColumns: int := 22

  /** One layer of the tile map: a row-major grid of tile ids, as decoded
      from the map's JSON ("data", "width", "height"). Nothing checks that
      the data has width * height entries. */
  datatype Layer = Layer(data: seq<int>, width: int, height: int)

  /** An image rectangle given by its min and max corners. */
  datatype Rect = Rect(x0: int, y0: int, x1: int, y1: int)

  /** Go's integer quotient, which truncates toward zero: its magnitude
      is the largest number of whole divisors that fit in the dividend,
      and it is negative exactly when the operands' signs differ. */
  function GoDiv(a: int, b: int): (q: int)
    requires b != 0
    ensures Abs(b) * Abs(q) <= Abs(a) < Abs(b) * (Abs(q) + 1)
    ensures q == 0 || (q < 0 <==> (a < 0) != (b < 0))
  {
    TruncatedQuotient(a, b);
    var m := Abs(a) / Abs(b);
    if (a < 0) == (b < 0) then m else -m
  }

  /** The quotient of the magnitudes, given the sign of the operands'
      product, is the largest multiple that fits and has that sign. */
  lemma TruncatedQuotient(a: int, b: int)
    requires b != 0
    ensures var m := Abs(a) / Abs(b); var q := if (a < 0) == (b < 0) then m else -m;
      Abs(b) * Abs(q) <= Abs(a) < Abs(b) * (Abs(q) + 1) &&
      (q == 0 || (q < 0 <==> (a < 0) != (b < 0)))
  {
    var n: int, d: int := Abs(a), Abs(b);
    var m: int := n / d;
    QuotientBounds(n, d);
    assert Abs(-m) == m;
  }

  /** The Euclidean quotient of naturals is the largest multiple that fits. */
  lemma QuotientBounds(n: nat, d: int)
    requires d > 0
    ensures d * (n / d) <= n < d * (n / d + 1)
  {
    var m := n / d;
    assert n == d * m + n % d && 0 <= n % d < d;
    assert d * (m + 1) == d * m + d;
  }

  /** Go's remainder: it satisfies a == b * q + r for the truncated
      quotient q, is smaller than the divisor in magnitude, and takes the
      sign of the dividend. */
  function GoMod(a: int, b: int): (r: int)
    requires b != 0
    ensures a == b * GoDiv(a, b) + r
    ensures Abs(r) < Abs(b)
    ensures r == 0 || (r < 0 <==> a < 0)
  {
    TruncatedRemainder(a, b);
    a - b * GoDiv(a, b)
  }

  lemma TruncatedRemainder(a: int, b: int)
    requires b != 0
    ensures var r := a - b * GoDiv(a, b); Abs(r) < Abs(b) && (r == 0 || (r < 0 <==> a < 0))
  {
    var n: int, d: int := Abs(a), Abs(b);
    QuotientTimesDivisor(a, b);
    assert n == d * (n / d) + n % d && 0 <= n % d < d;
  }

  /** The truncated quotient times the divisor has the sign of the
      dividend and the magnitude of the natural-number product. */
  lemma QuotientTimesDivisor(a: int, b: int)
    requires b != 0
    ensures a >= 0 ==> b * GoDiv(a, b) == Abs(b) * (Abs(a) / Abs(b))
    ensures a < 0 ==> b * GoDiv(a, b) == -(Abs(b) * (Abs(a) / Abs(b)))
  {
    var d: int, m: int := Abs(b), Abs(a) / Abs(b);
    if a >= 0 && b < 0 {
      NegTimesNeg(d, m);
    } else if a < 0 && b > 0 {
      NegRight(d, m);
    } else if a < 0 && b < 0 {
      NegLeft(d, m);
    }
  }

  lemma NegTimesNeg(x: int, y: int)
    ensures (-x) * (-y) == x * y
  {
  }

  lemma NegRight(x: int, y: int)
    ensures x * (-y) == -(x * y)
  {
  }

  lemma NegLeft(x: int, y: int)
    ensures (-x) * y == -(x * y)
  {
  }

  /** For a non-negative dividend and a positive divisor Go's and Dafny's
      division agree. */
  lemma GoDivModNatural(a: int, b: int)
    requires a >= 0 && b > 0
    ensures GoDiv(a, b) == a / b && GoMod(a, b) == a % b
  {
  }

  /** Grid column of the cell at a flat index (`index % Width`): with the
      row it gives back the index, and for a non-negative index and a
      positive width it is a column of the grid. */
  function CellColumn(index: int, width: int): (c: int)
    requires width != 0
    ensures index == width * CellRow(index, width) + c
    ensures index >= 0 && width > 0 ==> 0 <= c < width
  {
    GoMod(index, width)
  }

  /** Grid row of the cell at a flat index (`index / Width`); never
      negative for a non-negative index and a positive width. */
  function CellRow(index: int, width: int): (r: int)
    requires width != 0
    ensures index >= 0 && width > 0 ==> r >= 0
  {
    GoDiv(index, width)
  }

  /** Screen pixel at which the cell at a flat index is drawn: the
      corner of its cell on a 16-pixel grid. */
  function CellDest(index: int, width: int): (d: (int, int))
    requires width != 0
    ensures d.0 % TileSize == 0 && d.0 / TileSize == CellColumn(index, width)
    ensures d.1 % TileSize == 0 && d.1 / TileSize == CellRow(index, width)
  {
    (TileSize * CellColumn(index, width), TileSize * CellRow(index, width))
  }

  /** Flat index of the cell at a column and row. */
  function CellIndex(col: int, row: int, width: int): int {
    row * width + col
  }

  /** The cell of a non-negative index lies in a column of the grid, and
      its row and column give back the index; an index inside the layer
      lies in one of its rows; the destination pixel is on the 16-pixel
      grid, inside the layer's pixel width. */
  lemma {:induction false} CellGrid(index: int, width: int, height: int)
    requires width > 0 && index >= 0
    ensures 0 <= CellColumn(index, width) < width
    ensures 0 <= CellRow(index, width)
    ensures CellIndex(CellColumn(index, width), CellRow(index, width), width) == index
    ensures index < width * height ==> CellRow(index, width) < height
    ensures CellDest(index, width).0 == TileSize * CellColumn(index, width)
    ensures CellDest(index, width).1 == TileSize * CellRow(index, width)
    ensures 0 <= CellDest(index, width).0 <= TileSize * (width - 1)
    ensures index < width * height ==> 0 <= CellDest(index, width).1 <= TileSize * (height - 1)
  {
    GoDivModNatural(index, width);
    var col, row := index % width, index / width;
    assert row * width + col == index;
    if index < width * height && row >= height {
      assert row * width >= height * width by {
        MulMonotone(height, row, width);
      }
      assert false;
    }
  }

  lemma MulMonotone(a: int, b: int, c: int)
    requires c >= 0
    ensures a <= b ==> a * c <= b * c
  {
  }

  /** The column and row of the index of a grid cell are that cell's:
      CellIndex and (CellColumn, CellRow) are inverse on the grid. */
  lemma {:induction false} CellIndexRoundTrip(col: int, row: int, width: int)
    requires width > 0 && 0 <= col < width && row >= 0
    ensures CellColumn(CellIndex(col, row, width), width) == col
    ensures CellRow(CellIndex(col, row, width), width) == row
  {
    var index := CellIndex(col, row, width);
    MulMonotone(0, row, width);
    GoDivModNatural(index, width);
    DivModUnique(index, width, row, col);
  }

  /** Quotient and remainder are the only such pair. */
  lemma DivModUnique(a: int, b: int, q: int, r: int)
    requires b > 0 && 0 <= r < b && a == q * b + r
    ensures a / b == q && a % b == r
  {
    var q', r' := a / b, a % b;
    assert a == q' * b + r' && 0 <= r' < b;
    // neither quotient can be the larger: b * (smaller + 1) would exceed a
    MulMonotone(q' + 1, q, b);
    MulMonotone(q + 1, q', b);
    assert (q' + 1) * b == q' * b + b;
    assert (q + 1) * b == q * b + b;
  }

  /** Rectangle of the tileset image holding tile `id`: tile ids count
      from 1, 22 tiles to a row. The rectangle is always one tile. */
  function TileSource(id: int): (r: Rect)
    ensures r.x1 - r.x0 == TileSize && r.y1 - r.y0 == TileSize
  {
    var srcX := TileSize * GoMod(id - 1, TilesetColumns);
    var srcY := TileSize * GoDiv(id - 1, TilesetColumns);
    Rect(srcX, srcY, srcX + TileSize, srcY + TileSize)
  }

  /** A positive tile id selects a tile inside the 22-column tileset, on
      the 16-pixel grid, and the id can be read back from the rectangle's
      origin. */
  lemma {:induction false} TileSourceInSheet(id: int)
    requires id >= 1
    ensures var r := TileSource(id);
      0 <= r.x0 <= TileSize * (TilesetColumns - 1) && r.x0 % TileSize == 0 &&
      0 <= r.y0 && r.y0 % TileSize == 0 &&
      1 + r.x0 / TileSize + TilesetColumns * (r.y0 / TileSize) == id
  {
    GoDivModNatural(id - 1, TilesetColumns);
    var col, row := (id - 1) % TilesetColumns, (id - 1) / TilesetColumns;
    assert TileSource(id).x0 == TileSize * col && TileSource(id).y0 == TileSize * row;
    assert (TileSize * col) / TileSize == col;
    assert (TileSize * row) / TileSize == row;
  }

  /** Tile id 0, which the map uses for "no tile", is not special-cased:
      (0 - 1) truncates to column -1 of row 0, a rectangle left of the
      tileset image. */
  lemma EmptyTileSource()
    ensures TileSource(0) == Rect(-TileSize, 0, 0, TileSize)
  {
    assert GoDiv(-1, TilesetColumns) == 0;
  }
}
