/** The tiled upload of 4-bit expert weights: sixteen by sixteen tiles, two weights a byte, staged
    through a bounded buffer. */
module WeightTiling {
  import opened Contracts
  import opened Wire
  import opened Arithmetic

  const TILE_ROWS: nat := 16
  const TILE_ROW_BYTES: nat := 8
  const TILE_BYTES: nat := 128

  /** A stack of matrices whose sides are multiples of the tile's. */
  datatype Shape = Shape(matrices: nat, rowTiles: Positive, columnTiles: Positive)

  /** One byte of the stack: which tile, and where in it. */
  datatype Cell = Cell(matrix: nat, rowTile: nat, columnTile: nat, row: nat, column: nat)

  predicate Inside(g: Shape, c: Cell) {
    && c.matrix < g.matrices && c.rowTile < g.rowTiles && c.columnTile < g.columnTiles
    && c.row < TILE_ROWS && c.column < TILE_ROW_BYTES
  }

  function Bytes(g: Shape): nat { g.matrices * g.rowTiles * g.columnTiles * TILE_BYTES }

  /** Address of a byte on the device, where tiles are contiguous. */
  function Tiled(g: Shape, c: Cell): nat {
    var tile := (c.matrix * g.rowTiles + c.rowTile) * g.columnTiles + c.columnTile;
    (tile * TILE_ROWS + c.row) * TILE_ROW_BYTES + c.column
  }

  /** Address of a byte on the host, where rows are contiguous. */
  function RowMajor(g: Shape, c: Cell): nat {
    var line := ((c.matrix * g.rowTiles + c.rowTile) * TILE_ROWS + c.row) * g.columnTiles + c.columnTile;
    line * TILE_ROW_BYTES + c.column
  }

  function TiledCell(g: Shape, n: nat): Cell {
    var line := n / TILE_ROW_BYTES;
    var tile := line / TILE_ROWS;
    var band := tile / g.columnTiles;
    Cell(band / g.rowTiles, band % g.rowTiles, tile % g.columnTiles, line % TILE_ROWS, n % TILE_ROW_BYTES)
  }

  function RowMajorCell(g: Shape, n: nat): Cell {
    var chunk := n / TILE_ROW_BYTES;
    var line := chunk / g.columnTiles;
    var band := line / TILE_ROWS;
    Cell(band / g.rowTiles, band % g.rowTiles, chunk % g.columnTiles, line % TILE_ROWS, n % TILE_ROW_BYTES)
  }

  lemma TiledIsBelow(g: Shape, c: Cell)
    requires Inside(g, c)
    ensures Tiled(g, c) < Bytes(g)
  {
    var band := c.matrix * g.rowTiles + c.rowTile;
    var tile := band * g.columnTiles + c.columnTile;
    Below(c.matrix, g.matrices, c.rowTile, g.rowTiles);
    Below(band, g.matrices * g.rowTiles, c.columnTile, g.columnTiles);
    Below(tile, g.matrices * g.rowTiles * g.columnTiles, c.row, TILE_ROWS);
  }

  /** Decoding a device address gives the cell it was made from. */
  lemma TiledRoundTrip(g: Shape, c: Cell)
    requires Inside(g, c)
    ensures TiledCell(g, Tiled(g, c)) == c
  {
    var band := c.matrix * g.rowTiles + c.rowTile;
    var tile := band * g.columnTiles + c.columnTile;
    var line := tile * TILE_ROWS + c.row;
    Digit(c.matrix, c.rowTile, g.rowTiles);
    Digit(band, c.columnTile, g.columnTiles);
    Digit(tile, c.row, TILE_ROWS);
    Digit(line, c.column, TILE_ROW_BYTES);
  }

  /** Every device address is the address of a cell. */
  lemma TiledIsOnto(g: Shape, n: nat)
    requires n < Bytes(g)
    ensures Inside(g, TiledCell(g, n)) && Tiled(g, TiledCell(g, n)) == n
  {
    var line := n / TILE_ROW_BYTES;
    var tile := line / TILE_ROWS;
    var tiles := g.matrices * g.rowTiles * g.columnTiles;
    Quotient(n, tiles * TILE_ROWS, TILE_ROW_BYTES);
    Quotient(line, tiles, TILE_ROWS);
    Quotient(tile, g.matrices * g.rowTiles, g.columnTiles);
    Quotient(tile / g.columnTiles, g.matrices, g.rowTiles);
  }

  lemma RowMajorIsBelow(g: Shape, c: Cell)
    requires Inside(g, c)
    ensures RowMajor(g, c) < Bytes(g)
  {
    var band := c.matrix * g.rowTiles + c.rowTile;
    var line := band * TILE_ROWS + c.row;
    var bands := g.matrices * g.rowTiles;
    Below(c.matrix, g.matrices, c.rowTile, g.rowTiles);
    Below(band, bands, c.row, TILE_ROWS);
    Below(line, bands * TILE_ROWS, c.columnTile, g.columnTiles);
    assert bands * TILE_ROWS * g.columnTiles == bands * g.columnTiles * TILE_ROWS;
  }

  /** Decoding a host address gives the cell it was made from. */
  lemma RowMajorRoundTrip(g: Shape, c: Cell)
    requires Inside(g, c)
    ensures RowMajorCell(g, RowMajor(g, c)) == c
  {
    var band := c.matrix * g.rowTiles + c.rowTile;
    var line := band * TILE_ROWS + c.row;
    var chunk := line * g.columnTiles + c.columnTile;
    Digit(c.matrix, c.rowTile, g.rowTiles);
    Digit(band, c.row, TILE_ROWS);
    Digit(line, c.columnTile, g.columnTiles);
    Digit(chunk, c.column, TILE_ROW_BYTES);
  }

  lemma RowMajorIsOnto(g: Shape, n: nat)
    requires n < Bytes(g)
    ensures Inside(g, RowMajorCell(g, n)) && RowMajor(g, RowMajorCell(g, n)) == n
  {
    var chunk := n / TILE_ROW_BYTES;
    var line := chunk / g.columnTiles;
    var bands := g.matrices * g.rowTiles;
    assert bands * g.columnTiles * TILE_ROWS == bands * TILE_ROWS * g.columnTiles;
    Quotient(n, bands * TILE_ROWS * g.columnTiles, TILE_ROW_BYTES);
    Quotient(chunk, bands * TILE_ROWS, g.columnTiles);
    Quotient(line, bands, TILE_ROWS);
    Quotient(line / TILE_ROWS, g.matrices, g.rowTiles);
  }

  /** Where the byte at device address `n` comes from. */
  function SourceOf(g: Shape, n: nat): nat { RowMajor(g, TiledCell(g, n)) }

  function TargetOf(g: Shape, n: nat): nat { Tiled(g, RowMajorCell(g, n)) }

  /** The upload moves every byte to a place of its own and leaves no place empty. */
  lemma UploadIsPermutation(g: Shape, n: nat)
    requires n < Bytes(g)
    ensures SourceOf(g, n) < Bytes(g) && TargetOf(g, SourceOf(g, n)) == n
    ensures TargetOf(g, n) < Bytes(g) && SourceOf(g, TargetOf(g, n)) == n
  {
    TiledIsOnto(g, n);
    RowMajorIsBelow(g, TiledCell(g, n));
    RowMajorRoundTrip(g, TiledCell(g, n));
    RowMajorIsOnto(g, n);
    TiledIsBelow(g, RowMajorCell(g, n));
    TiledRoundTrip(g, RowMajorCell(g, n));
  }

  // ---------------------------------------------------------------------------
  // The upload.
  // ---------------------------------------------------------------------------

  /** Where the loop reads line `row` of tile number `tile`. */
  function LineOffset(rows: nat, columns: nat, columnTiles: Positive, perMatrix: Positive, tile: nat, row: nat): int {
    var matrix, within := tile / perMatrix, tile % perMatrix;
    var rowTile, columnTile := within / columnTiles, within % columnTiles;
    matrix * (rows * columns / 2) + (rowTile * TILE_ROWS + row) * (columns / 2) + columnTile * TILE_ROW_BYTES
  }

  predicate Fits(g: Shape, rows: nat, columns: nat) {
    rows == g.rowTiles * TILE_ROWS && columns == g.columnTiles * TILE_ROWS
  }

  function TileCell(g: Shape, tile: nat, row: nat, column: nat): Cell {
    var band := tile / g.columnTiles;
    Cell(band / g.rowTiles, band % g.rowTiles, tile % g.columnTiles, row, column)
  }

  /** The tile number's digits, as the loop takes them apart. */
  lemma TileDigits(g: Shape, tile: nat)
    ensures g.rowTiles * g.columnTiles > 0
    ensures var c := TileCell(g, tile, 0, 0); var per := g.rowTiles * g.columnTiles;
            && tile / per == c.matrix && (tile % per) / g.columnTiles == c.rowTile
            && (tile % per) % g.columnTiles == c.columnTile
  {
    Monotone(g.rowTiles, 1, g.columnTiles);
    var c, per: Positive := TileCell(g, tile, 0, 0), g.rowTiles * g.columnTiles;
    var band := tile / g.columnTiles;
    var within := c.rowTile * g.columnTiles + c.columnTile;
    Below(c.rowTile, g.rowTiles, c.columnTile, g.columnTiles);
    assert tile == band * g.columnTiles + c.columnTile && band == c.matrix * g.rowTiles + c.rowTile;
    assert tile == c.matrix * per + within;
    Digit(c.matrix, within, per);
    Digit(c.rowTile, c.columnTile, g.columnTiles);
  }

  /** The loop's offset is the row-major address of the line. */
  lemma LineIsRowMajor(g: Shape, rows: nat, columns: nat, tile: nat, row: nat)
    requires Fits(g, rows, columns)
    ensures g.rowTiles * g.columnTiles > 0
    ensures LineOffset(rows, columns, g.columnTiles, g.rowTiles * g.columnTiles, tile, row)
            == RowMajor(g, TileCell(g, tile, row, 0))
  {
    TileDigits(g, tile);
    var c := TileCell(g, tile, row, 0);
    Regroup(c.matrix, c.rowTile, row, c.columnTile, g.rowTiles, g.columnTiles);
    HalfMatrix(g.rowTiles, g.columnTiles);
  }

  lemma Regroup(m: nat, rt: nat, row: nat, ct: nat, rts: nat, cts: nat)
    ensures (((m * rts + rt) * TILE_ROWS + row) * cts + ct) * TILE_ROW_BYTES
         == m * (rts * cts * TILE_BYTES) + (rt * TILE_ROWS + row) * (cts * TILE_ROW_BYTES) + ct * TILE_ROW_BYTES
  {
    var high, low := m * rts * TILE_ROWS, rt * TILE_ROWS + row;
    assert (m * rts + rt) * TILE_ROWS + row == high + low;
    assert (high + low) * cts == high * cts + low * cts;
    assert high * cts == m * (rts * cts * TILE_ROWS);
    assert low * cts * TILE_ROW_BYTES == low * (cts * TILE_ROW_BYTES);
    assert m * (rts * cts * TILE_ROWS) * TILE_ROW_BYTES == m * (rts * cts * TILE_BYTES);
  }

  lemma HalfMatrix(rts: nat, cts: nat)
    ensures rts * TILE_ROWS * (cts * TILE_ROWS) / 2 == rts * cts * TILE_BYTES
    ensures cts * TILE_ROWS / 2 == cts * TILE_ROW_BYTES
  {
    assert rts * TILE_ROWS * (cts * TILE_ROWS) == rts * cts * (TILE_ROWS * TILE_ROWS);
  }

  /** Where each byte of a tile comes from. */
  lemma ByteSource(g: Shape, tile: nat, row: nat, column: nat)
    requires row < TILE_ROWS && column < TILE_ROW_BYTES
    ensures SourceOf(g, tile * TILE_BYTES + row * TILE_ROW_BYTES + column)
            == RowMajor(g, TileCell(g, tile, row, 0)) + column
  {
    Digit(tile, row, TILE_ROWS);
    Digit(tile * TILE_ROWS + row, column, TILE_ROW_BYTES);
  }

  lemma TileIsInside(g: Shape, tile: nat, row: nat)
    requires tile < g.matrices * g.rowTiles * g.columnTiles && row < TILE_ROWS
    ensures Inside(g, TileCell(g, tile, row, TILE_ROW_BYTES - 1))
  {
    Quotient(tile, g.matrices * g.rowTiles, g.columnTiles);
    Quotient(tile / g.columnTiles, g.matrices, g.rowTiles);
  }

  lemma LineIsBelow(g: Shape, tile: nat, row: nat)
    requires tile < g.matrices * g.rowTiles * g.columnTiles && row < TILE_ROWS
    ensures RowMajor(g, TileCell(g, tile, row, 0)) + TILE_ROW_BYTES <= Bytes(g)
  {
    TileIsInside(g, tile, row);
    var last := TileCell(g, tile, row, TILE_ROW_BYTES - 1);
    RowMajorIsBelow(g, last);
    assert RowMajor(g, last) == RowMajor(g, last.(column := 0)) + TILE_ROW_BYTES - 1;
  }

  /** Device address `n` holds the byte it should. */
  ghost predicate Brought(host: seq<Byte>, g: Shape, n: nat, b: Byte) {
    SourceOf(g, n) < |host| && b == host[SourceOf(g, n)]
  }

  /** `bytes`, put at device address `base`, are what should be there. */
  ghost predicate Uploaded(host: seq<Byte>, g: Shape, base: nat, bytes: seq<Byte>) {
    forall w :: 0 <= w < |bytes| ==> Brought(host, g, base + w, bytes[w])
  }

  lemma UploadedMore(host: seq<Byte>, g: Shape, base: nat, a: seq<Byte>, b: seq<Byte>)
    requires Uploaded(host, g, base, a) && Uploaded(host, g, base + |a|, b)
    ensures Uploaded(host, g, base, a + b)
  {
    forall w | 0 <= w < |a + b| ensures Brought(host, g, base + w, (a + b)[w]) {
      if w >= |a| { assert Brought(host, g, base + |a| + (w - |a|), b[w - |a|]); }
    }
  }

  /** Copies one line of a tile. */
  method ReadLine(host: seq<Byte>, g: Shape, rows: nat, columns: nat, tile: nat, row: nat) returns (line: seq<Byte>)
    requires |host| == Bytes(g) && Fits(g, rows, columns) && tile < g.matrices * g.rowTiles * g.columnTiles
    requires row < TILE_ROWS
    ensures |line| == TILE_ROW_BYTES && Uploaded(host, g, tile * TILE_BYTES + row * TILE_ROW_BYTES, line)
  {
    LineIsRowMajor(g, rows, columns, tile, row);
    LineIsBelow(g, tile, row);
    var at := LineOffset(rows, columns, g.columnTiles, g.rowTiles * g.columnTiles, tile, row);
    line := host[at..at + TILE_ROW_BYTES];
    ghost var base := tile * TILE_BYTES + row * TILE_ROW_BYTES;
    forall w | 0 <= w < |line| ensures Brought(host, g, base + w, line[w]) {
      ByteSource(g, tile, row, w);
    }
  }

  /** Copies one tile out of the row-major source. */
  method ReadTile(host: seq<Byte>, g: Shape, rows: nat, columns: nat, tile: nat) returns (bytes: seq<Byte>)
    requires |host| == Bytes(g) && Fits(g, rows, columns) && tile < g.matrices * g.rowTiles * g.columnTiles
    ensures |bytes| == TILE_BYTES && Uploaded(host, g, tile * TILE_BYTES, bytes)
  {
    bytes := [];
    for row := 0 to TILE_ROWS
      invariant |bytes| == row * TILE_ROW_BYTES && Uploaded(host, g, tile * TILE_BYTES, bytes)
    {
      var line := ReadLine(host, g, rows, columns, tile, row);
      UploadedMore(host, g, tile * TILE_BYTES, bytes, line);
      bytes := bytes + line;
    }
  }

  /** Fills one staging buffer with as many tiles as it holds. */
  method FillStaging(host: seq<Byte>, g: Shape, rows: nat, columns: nat, first: nat, total: nat, stagingBytes: nat)
    returns (buffer: seq<Byte>, tile: nat)
    requires |host| == Bytes(g) && Fits(g, rows, columns) && first < total == g.matrices * g.rowTiles * g.columnTiles
    requires TILE_BYTES <= stagingBytes
    ensures first < tile <= total && |buffer| == (tile - first) * TILE_BYTES <= stagingBytes
    ensures Uploaded(host, g, first * TILE_BYTES, buffer)
  {
    buffer, tile := [], first;
    while tile < total && |buffer| + TILE_BYTES <= stagingBytes
      invariant first <= tile <= total && |buffer| == (tile - first) * TILE_BYTES <= stagingBytes
      invariant Uploaded(host, g, first * TILE_BYTES, buffer)
      decreases total - tile
    {
      var bytes := ReadTile(host, g, rows, columns, tile);
      UploadedMore(host, g, first * TILE_BYTES, buffer, bytes);
      buffer, tile := buffer + bytes, tile + 1;
    }
  }

  /** Uploads the whole stack through a staging buffer. Any buffer that holds one tile gives the
      same device contents, the permutation above, and the size check never fires. */
  method UploadTiled(host: seq<Byte>, g: Shape, rows: nat, columns: nat, stagingBytes: nat)
    returns (r: Result<seq<Byte>>)
    requires |host| == Bytes(g) && Fits(g, rows, columns)
    ensures r.Err? <==> stagingBytes < TILE_BYTES
    ensures r.Ok? ==> |r.value| == Bytes(g) && Uploaded(host, g, 0, r.value)
  {
    if stagingBytes < TILE_BYTES { return Err(InvalidArgument); }
    var total := g.matrices * g.rowTiles * g.columnTiles;
    var tile, device := 0, [];
    while tile < total
      invariant 0 <= tile <= total && |device| == tile * TILE_BYTES && Uploaded(host, g, 0, device)
      decreases total - tile
    {
      var buffer, next := FillStaging(host, g, rows, columns, tile, total, stagingBytes);
      UploadedMore(host, g, 0, device, buffer);
      device, tile := device + buffer, next;
    }
    if |device| != |host| { return Err(LogicError); }
    r := Ok(device);
  }

  /** Read through the tile address formula, the device holds what the host holds row by row. */
  lemma TilesReadBack(host: seq<Byte>, g: Shape, device: seq<Byte>, c: Cell)
    requires |host| == |device| == Bytes(g) && Uploaded(host, g, 0, device) && Inside(g, c)
    ensures Tiled(g, c) < |device| && RowMajor(g, c) < |host| && device[Tiled(g, c)] == host[RowMajor(g, c)]
  {
    TiledIsBelow(g, c);
    TiledRoundTrip(g, c);
    assert Brought(host, g, 0 + Tiled(g, c), device[Tiled(g, c)]);
  }

  /** The same in the source's own numbers: the byte of row `r` and byte column `b` of matrix `m`,
      row by row on the host, lies in its 16 by 16 tile on the device, tiles row by row and each
      tile's 16 lines of 8 bytes together. */
  lemma UploadFormula(host: seq<Byte>, g: Shape, device: seq<Byte>, rows: nat, columns: nat, m: nat, r: nat, b: nat,
                      from: nat, to: nat)
    requires |host| == |device| == Bytes(g) && Uploaded(host, g, 0, device) && Fits(g, rows, columns)
    requires m < g.matrices && r < rows && b < columns / 2
    requires from == m * (rows * columns / 2) + r * (columns / 2) + b
    requires to == ((m * g.rowTiles + r / 16) * g.columnTiles + b / 8) * 128 + r % 16 * 8 + b % 8
    ensures from < |host| && to < |device| && device[to] == host[from]
  {
    var c := Cell(m, r / 16, b / 8, r % 16, b % 8);
    HalfMatrix(g.rowTiles, g.columnTiles);
    assert Inside(g, c);
    Regroup(m, r / 16, r % 16, b / 8, g.rowTiles, g.columnTiles);
    assert r / 16 * TILE_ROWS + r % 16 == r && b / 8 * TILE_ROW_BYTES + b % 8 == b;
    assert RowMajor(g, c) == from;
    assert Tiled(g, c) == to;
    TilesReadBack(host, g, device, c);
  }
}
