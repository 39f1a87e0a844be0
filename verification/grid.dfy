/**
 * The tile grid: a flat, row-major buffer of characters with a stored width.
 * The height is not stored; it is the buffer length divided by the width.
 * A coordinate `(x, y)` addresses index `y * width + x` and is accepted
 * whenever that index is inside the buffer. The column is never compared
 * with the width, so a column past the end of a row lands in the next row.
 */
module Grids {
  import opened Wrappers

  datatype Grid = Grid(tiles: seq<char>, width: nat)

  /** The tile a new grid is filled with. */
  const Wall := '#'

  const Newline := '\n'

  /** The buffer holds whole rows of a nonzero width; `New` with a positive width establishes it. */
  predicate WellFormed(g: Grid)
  {
    g.width > 0 && |g.tiles| % g.width == 0
  }

  /** `Grid::new`: `width * height` wall tiles. */
  function New(width: nat, height: nat): (g: Grid)
    ensures g.width == width
    ensures |g.tiles| == width * height
    ensures forall i :: 0 <= i < |g.tiles| ==> g.tiles[i] == Wall
  {
    Grid(seq(width * height, _ => Wall), width)
  }

  function Width(g: Grid): nat
  {
    g.width
  }

  /** Divides by the width, which the source does without a guard: zero panics. */
  function Height(g: Grid): (h: nat)
    requires g.width > 0
    ensures h * g.width <= |g.tiles| < (h + 1) * g.width
  {
    |g.tiles| / g.width
  }

  /** The row-major index of `(x, y)`, when it falls inside the buffer. */
  function CordToPos(g: Grid, x: nat, y: nat): (r: Option<nat>)
    ensures r.Some? <==> y * g.width + x < |g.tiles|
    ensures r.Some? ==> r.value == y * g.width + x && r.value < |g.tiles|
  {
    var pos := y * g.width + x;
    if pos < |g.tiles| then Some(pos) else None
  }

  function Get(g: Grid, x: nat, y: nat): (r: Option<char>)
    ensures r.Some? <==> CordToPos(g, x, y).Some?
    ensures r.Some? ==> r.value == g.tiles[CordToPos(g, x, y).value]
  {
    match CordToPos(g, x, y)
    case Some(pos) => Some(g.tiles[pos])
    case None => None
  }

  /**
   * Writes `tile` at `(x, y)` and reports whether the coordinate was
   * accepted. The grid is returned alongside the flag, in place of the
   * source's in-place mutation.
   */
  function Set(g: Grid, x: nat, y: nat, tile: char): (r: (Grid, bool))
    ensures r.1 <==> CordToPos(g, x, y).Some?
    ensures r.0.width == g.width && |r.0.tiles| == |g.tiles|
    ensures r.1 ==> r.0.tiles[y * g.width + x] == tile
    ensures forall i :: 0 <= i < |g.tiles| && i != y * g.width + x ==> r.0.tiles[i] == g.tiles[i]
    ensures !r.1 ==> r.0 == g
  {
    match CordToPos(g, x, y)
    case Some(pos) => (g.(tiles := g.tiles[pos := tile]), true)
    case None => (g, false)
  }

  /** The textual dump: each `width`-sized chunk of the buffer followed by a newline. */
  function Render(g: Grid): (r: string)
    requires g.width > 0
    ensures r == [] <==> g.tiles == []
    ensures g.tiles != [] ==> r[|r| - 1] == Newline
  {
    Rows(g.tiles, g.width)
  }

  /** The chunks of `tiles`, each followed by a newline; the last chunk may be short. */
  function Rows(tiles: seq<char>, width: nat): (r: string)
    requires width > 0
    ensures r == [] <==> tiles == []
    ensures tiles != [] ==> r[|r| - 1] == Newline
    decreases |tiles|
  {
    if |tiles| == 0 then []
    else
      var k := if |tiles| < width then |tiles| else width;
      tiles[..k] + [Newline] + Rows(tiles[k..], width)
  }

  /** The buffer index of column `col` of row `row`. */
  function TilePos(row: nat, col: nat, width: nat): nat
  {
    row * width + col
  }

  /** The dump index of column `col` of line `row`: every line is `width + 1` characters long. */
  function DumpPos(row: nat, col: nat, width: nat): nat
  {
    row * (width + 1) + col
  }

  // ---------------------------------------------------------------------------
  // Arithmetic helpers

  lemma {:induction false} MulMono(a: nat, b: nat, m: nat)
    requires a <= b
    ensures a * m <= b * m
  {
    if m > 0 {
      MulMono(a, b, m - 1);
      assert a * m == a * (m - 1) + a;
      assert b * m == b * (m - 1) + b;
    }
  }

  lemma MulLess(a: nat, b: nat, m: nat)
    requires a < b
    ensures a * m + m <= b * m
  {
    assert (a + 1) * m == a * m + m;
    MulMono(a + 1, b, m);
  }

  lemma DivModUnique(i: nat, m: nat, q: nat, r: nat)
    requires m > 0 && r < m && i == q * m + r
    ensures i / m == q && i % m == r
  {
    var q', r' := i / m, i % m;
    assert i == q' * m + r';
    if q < q' {
      MulLess(q, q', m);
    } else if q' < q {
      MulLess(q', q, m);
    }
    assert q == q';
  }

  // ---------------------------------------------------------------------------
  // Dimensions

  /** A new grid of positive width reports the width and height it was built with. */
  lemma NewDimensions(width: nat, height: nat)
    requires width > 0
    ensures WellFormed(New(width, height))
    ensures Width(New(width, height)) == width
    ensures Height(New(width, height)) == height
  {
    DivModUnique(height * width, width, height, 0);
  }

  /** `set` keeps the width, the buffer length, and hence the height and well-formedness. */
  lemma SetKeepsDimensions(g: Grid, x: nat, y: nat, tile: char)
    requires g.width > 0
    ensures Width(Set(g, x, y, tile).0) == Width(g)
    ensures Height(Set(g, x, y, tile).0) == Height(g)
    ensures WellFormed(Set(g, x, y, tile).0) == WellFormed(g)
  {
  }

  // ---------------------------------------------------------------------------
  // Addressing

  /** A coordinate inside a row is accepted exactly when its row is below the height. */
  lemma {:induction false} InRowCoordinateAccepted(g: Grid, x: nat, y: nat)
    requires WellFormed(g) && x < g.width
    ensures CordToPos(g, x, y).Some? <==> y < Height(g)
  {
    var h := Height(g);
    DivModUnique(|g.tiles|, g.width, h, 0);
    if y < h {
      MulLess(y, h, g.width);
    } else {
      assert y * g.width >= h * g.width;
    }
  }

  /** A column at or past the width aliases the same column, less one width, of the next row. */
  lemma ColumnWrapsIntoNextRow(g: Grid, x: nat, y: nat)
    requires x >= g.width
    ensures CordToPos(g, x, y) == CordToPos(g, x - g.width, y + 1)
  {
    assert (y + 1) * g.width + (x - g.width) == y * g.width + x;
  }

  /** Every buffer index is addressed by exactly one in-row coordinate. */
  lemma {:induction false} IndexHasUniqueCoordinate(g: Grid, i: nat, x: nat, y: nat)
    requires WellFormed(g) && i < |g.tiles|
    ensures CordToPos(g, i % g.width, i / g.width) == Some(i)
    ensures i / g.width < Height(g)
    ensures x < g.width && CordToPos(g, x, y) == Some(i) ==> x == i % g.width && y == i / g.width
  {
    var w := g.width;
    assert i == (i / w) * w + i % w;
    InRowCoordinateAccepted(g, i % w, i / w);
    if x < w && CordToPos(g, x, y) == Some(i) {
      DivModUnique(i, w, y, x);
    }
  }

  // ---------------------------------------------------------------------------
  // Reading back what was written

  /** After an accepted `set`, `get` at the same coordinate returns the new tile. */
  lemma GetAfterSet(g: Grid, x: nat, y: nat, tile: char)
    ensures Set(g, x, y, tile).1 ==> Get(Set(g, x, y, tile).0, x, y) == Some(tile)
    ensures !Set(g, x, y, tile).1 ==> Get(Set(g, x, y, tile).0, x, y) == None
  {
  }

  /** A `set` leaves every coordinate that addresses a different index as it was. */
  lemma GetAfterSetElsewhere(g: Grid, x: nat, y: nat, tile: char, x2: nat, y2: nat)
    requires y2 * g.width + x2 != y * g.width + x
    ensures Get(Set(g, x, y, tile).0, x2, y2) == Get(g, x2, y2)
  {
  }

  // ---------------------------------------------------------------------------
  // The dump

  /** One line of the dump: the first `width` tiles, a newline, then the remaining rows. */
  lemma RowsStep(tiles: seq<char>, width: nat)
    requires width > 0 && |tiles| >= width
    ensures Rows(tiles, width) == tiles[..width] + [Newline] + Rows(tiles[width..], width)
  {
  }

  lemma PosShift(row: nat, col: nat, width: nat)
    requires row > 0
    ensures TilePos(row, col, width) == width + TilePos(row - 1, col, width)
    ensures DumpPos(row, col, width) == width + 1 + DumpPos(row - 1, col, width)
  {
  }

  lemma {:induction false} RowsLength(tiles: seq<char>, width: nat, height: nat)
    requires width > 0 && |tiles| == height * width
    ensures |Rows(tiles, width)| == height * (width + 1)
  {
    if height > 0 {
      PeelRow(height, width);
      RowsStep(tiles, width);
      RowsLength(tiles[width..], width, height - 1);
    }
  }

  /** Taking one row off `height` rows of `width` tiles, or of `width + 1` characters. */
  lemma PeelRow(height: nat, width: nat)
    requires height > 0
    ensures height * width == (height - 1) * width + width
    ensures height * (width + 1) == (height - 1) * (width + 1) + (width + 1)
  {
  }

  /** The character at line `row`, column `col` of the dump (column `width` is the line's newline). */
  lemma {:induction false} RowsCell(tiles: seq<char>, width: nat, height: nat, row: nat, col: nat)
    requires width > 0 && |tiles| == height * width && row < height && col <= width
    ensures DumpPos(row, col, width) < |Rows(tiles, width)|
    ensures col < width ==>
      TilePos(row, col, width) < |tiles| && Rows(tiles, width)[DumpPos(row, col, width)] == tiles[TilePos(row, col, width)]
    ensures col == width ==> Rows(tiles, width)[DumpPos(row, col, width)] == Newline
  {
    MulMono(row + 1, height, width);
    RowsCellAt(tiles, width, row, col);
  }

  /** `RowsCell` for any buffer that holds at least `row + 1` whole rows. */
  lemma {:induction false} RowsCellAt(tiles: seq<char>, width: nat, row: nat, col: nat)
    requires width > 0 && (row + 1) * width <= |tiles| && col <= width
    ensures DumpPos(row, col, width) < |Rows(tiles, width)|
    ensures col < width ==>
      TilePos(row, col, width) < |tiles| && Rows(tiles, width)[DumpPos(row, col, width)] == tiles[TilePos(row, col, width)]
    ensures col == width ==> Rows(tiles, width)[DumpPos(row, col, width)] == Newline
  {
    if row == 0 {
      RowsFirstLine(tiles, width, col);
    } else {
      PeelRow(row + 1, width);
      RowsCellAt(tiles[width..], width, row - 1, col);
      PosShift(row, col, width);
      RowsLaterLine(tiles, width, DumpPos(row - 1, col, width));
    }
  }

  /** The first line of the dump is the first `width` tiles and a newline. */
  lemma RowsFirstLine(tiles: seq<char>, width: nat, col: nat)
    requires width > 0 && |tiles| >= width && col <= width
    ensures col < |Rows(tiles, width)|
    ensures col < width ==> Rows(tiles, width)[col] == tiles[col]
    ensures col == width ==> Rows(tiles, width)[col] == Newline
  {
    RowsStep(tiles, width);
  }

  /** Past the first line, the dump continues with the dump of the remaining tiles. */
  lemma RowsLaterLine(tiles: seq<char>, width: nat, d: nat)
    requires width > 0 && |tiles| >= width && d < |Rows(tiles[width..], width)|
    ensures width + 1 + d < |Rows(tiles, width)|
    ensures Rows(tiles, width)[width + 1 + d] == Rows(tiles[width..], width)[d]
  {
    RowsStep(tiles, width);
  }

  /**
   * For a buffer of `height` whole rows the dump is `height` lines of
   * `width + 1` characters: row `r`'s tiles in column order, then a newline.
   */
  lemma RowsLayout(tiles: seq<char>, width: nat, height: nat)
    requires width > 0 && |tiles| == height * width
    ensures |Rows(tiles, width)| == height * (width + 1)
    ensures forall r, c :: 0 <= r < height && 0 <= c < width ==>
      DumpPos(r, c, width) < |Rows(tiles, width)| && TilePos(r, c, width) < |tiles| &&
      Rows(tiles, width)[DumpPos(r, c, width)] == tiles[TilePos(r, c, width)]
    ensures forall r :: 0 <= r < height ==>
      DumpPos(r, width, width) < |Rows(tiles, width)| && Rows(tiles, width)[DumpPos(r, width, width)] == Newline
  {
    RowsLength(tiles, width, height);
    forall r, c | 0 <= r < height && 0 <= c < width
      ensures DumpPos(r, c, width) < |Rows(tiles, width)| && TilePos(r, c, width) < |tiles|
      ensures Rows(tiles, width)[DumpPos(r, c, width)] == tiles[TilePos(r, c, width)]
    {
      RowsCell(tiles, width, height, r, c);
    }
    forall r | 0 <= r < height
      ensures DumpPos(r, width, width) < |Rows(tiles, width)|
      ensures Rows(tiles, width)[DumpPos(r, width, width)] == Newline
    {
      RowsCell(tiles, width, height, r, width);
    }
  }

  /** The dump of a well-formed grid has `height * (width + 1)` characters. */
  lemma RenderLength(g: Grid)
    requires WellFormed(g)
    ensures |Render(g)| == Height(g) * (g.width + 1)
  {
    DivModUnique(|g.tiles|, g.width, Height(g), 0);
    RowsLayout(g.tiles, g.width, Height(g));
  }

  // ---------------------------------------------------------------------------
  // The source's unit tests

  lemma NewGridDump()
    ensures Render(New(2, 3)) == "##\n##\n##\n"
  {
    assert New(2, 3).tiles == "######";
    TwoColumnDump("######", "##", "##", "##");
  }

  /** The dump of a buffer made of three two-tile rows. */
  lemma TwoColumnDump(tiles: seq<char>, row0: seq<char>, row1: seq<char>, row2: seq<char>)
    requires |row0| == |row1| == |row2| == 2 && tiles == row0 + row1 + row2
    ensures Rows(tiles, 2) == row0 + [Newline] + row1 + [Newline] + row2 + [Newline]
  {
    assert tiles[..2] == row0 && tiles[2..] == row1 + row2;
    assert (row1 + row2)[..2] == row1 && (row1 + row2)[2..] == row2;
    assert row2[..2] == row2 && row2[2..] == [];
    assert Rows(row2, 2) == row2 + [Newline];
    assert Rows(row1 + row2, 2) == row1 + [Newline] + row2 + [Newline];
  }

  lemma SetChangesDump()
    ensures Set(New(2, 3), 1, 2, 'x').1
    ensures Render(Set(New(2, 3), 1, 2, 'x').0) == "##\n##\n#x\n"
    ensures Get(Set(New(2, 3), 1, 2, 'x').0, 1, 2) == Some('x')
  {
    assert Set(New(2, 3), 1, 2, 'x').0.tiles == "#####x";
    TwoColumnDump("#####x", "##", "##", "#x");
  }

  /** The second `set` runs on the grid the rejected first one left behind. */
  lemma SetReportsSuccess()
    ensures !Set(New(1, 1), 1, 0, '@').1
    ensures Render(Set(New(1, 1), 1, 0, '@').0) == "#\n"
    ensures Set(Set(New(1, 1), 1, 0, '@').0, 0, 0, '@').1
    ensures Render(Set(Set(New(1, 1), 1, 0, '@').0, 0, 0, '@').0) == "@\n"
  {
  }

  lemma DimensionsExample()
    ensures Width(New(5, 8)) == 5 && Height(New(5, 8)) == 8
  {
    NewDimensions(5, 8);
  }

  /** On a 2-by-3 grid, column 2 of row 0 is the cell at column 0 of row 1. */
  lemma AliasingExample()
    ensures Set(New(2, 3), 2, 0, 'x').1
    ensures Get(Set(New(2, 3), 2, 0, 'x').0, 0, 1) == Some('x')
  {
  }
}
