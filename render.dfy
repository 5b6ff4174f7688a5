/** The render engine (`redraw`): every cell of the fixed 25 x 80 grid is drawn
    by copying one 8 x 16 glyph from the font atlas, then the frame is
    presented. The SDL renderer calls become the operations they would issue. */
module Render {
  import opened Types

  const CharWidth: int := 8
  const CharHeight: int := 16
  const ScreenCols: int := 80
  const ScreenRows: int := 25
  const HorzPadding: int := 8
  const VertPadding: int := 8

  /** Glyphs per row of the font atlas. */
  const AtlasCols: int := 32
  /** The atlas holds 256 glyphs: 32 columns by 8 rows of glyphs. */
  const AtlasWidth: int := AtlasCols * CharWidth
  const AtlasHeight: int := (256 / AtlasCols) * CharHeight

  /** The window size passed to `SDL_CreateWindow`. */
  const WindowWidth: int := ScreenCols * CharWidth + 2 * HorzPadding
  const WindowHeight: int := ScreenRows * CharHeight + 2 * VertPadding

  /** `SDL_Rect`. */
  datatype Rect = Rect(x: int, y: int, w: int, h: int)

  /** The renderer calls `redraw` makes: `SDL_RenderClear`, `SDL_RenderCopy`
      of the font texture from `src` to `dst`, and `SDL_RenderPresent`. */
  datatype DrawOp = Clear | Copy(src: Rect, dst: Rect) | Present

  /** The grid shape `redraw` asserts: 25 rows of 80 cells. */
  predicate Shaped(grid: Grid) {
    |grid| == ScreenRows && forall r :: 0 <= r < |grid| ==> |grid[r]| == ScreenCols
  }

  /** `cell & 0xff`: the glyph index, the cell's low byte. */
  function Glyph(cell: Cell): nat {
    cell as int % 256
  }

  /** The glyph index whose atlas cell has its top-left corner at `r`. */
  function AtlasIndex(r: Rect): int {
    (r.y / CharHeight) * AtlasCols + r.x / CharWidth
  }

  /** The source rectangle of a cell in the atlas. It lies inside the
      256 x 128 atlas, on the glyph grid, and it names the cell's glyph. */
  function SrcRect(cell: Cell): (r: Rect)
    ensures r.w == CharWidth && r.h == CharHeight
    ensures 0 <= r.x && r.x + r.w <= AtlasWidth
    ensures 0 <= r.y && r.y + r.h <= AtlasHeight
    ensures r.x % CharWidth == 0 && r.y % CharHeight == 0
    ensures AtlasIndex(r) == Glyph(cell)
  {
    var ch := Glyph(cell);
    Rect(CharWidth * (ch % AtlasCols), CharHeight * (ch / AtlasCols), CharWidth, CharHeight)
  }

  /** The source rectangle depends on the low byte only, and distinct glyph
      indexes have distinct source rectangles. */
  lemma SrcRectLowByte(a: Cell, b: Cell)
    ensures SrcRect(a) == SrcRect(b) <==> Glyph(a) == Glyph(b)
  {
  }

  /** The destination rectangle of the cell at row `row`, column `col`. The
      vertical offset is written with HorzPadding; both paddings are 8. It is
      one glyph in size, and its corner names its cell back. */
  function DstRect(row: int, col: int): (r: Rect)
    ensures r.w == CharWidth && r.h == CharHeight
    ensures (r.x - HorzPadding) / CharWidth == col && (r.y - VertPadding) / CharHeight == row
  {
    Rect(HorzPadding + col * CharWidth, HorzPadding + row * CharHeight, CharWidth, CharHeight)
  }

  predicate InGrid(row: int, col: int) {
    0 <= row < ScreenRows && 0 <= col < ScreenCols
  }

  /** Every destination rectangle lies inside the window less its padding. */
  lemma DstInWindow(row: int, col: int)
    requires InGrid(row, col)
    ensures HorzPadding <= DstRect(row, col).x
    ensures DstRect(row, col).x + DstRect(row, col).w <= WindowWidth - HorzPadding
    ensures VertPadding <= DstRect(row, col).y
    ensures DstRect(row, col).y + DstRect(row, col).h <= WindowHeight - VertPadding
  {
  }

  predicate Overlap(a: Rect, b: Rect) {
    a.x < b.x + b.w && b.x < a.x + a.w && a.y < b.y + b.h && b.y < a.y + a.h
  }

  predicate Contains(a: Rect, px: int, py: int) {
    a.x <= px < a.x + a.w && a.y <= py < a.y + a.h
  }

  /** Destination rectangles of distinct cells do not overlap. */
  lemma DstDisjoint(r1: int, c1: int, r2: int, c2: int)
    requires (r1, c1) != (r2, c2)
    ensures !Overlap(DstRect(r1, c1), DstRect(r2, c2))
  {
  }

  /** The destination rectangles tile the padded interior: each pixel of it
      lies in the rectangle of one grid cell. */
  lemma DstCoversInterior(px: int, py: int)
    requires HorzPadding <= px < WindowWidth - HorzPadding
    requires VertPadding <= py < WindowHeight - VertPadding
    ensures InGrid((py - VertPadding) / CharHeight, (px - HorzPadding) / CharWidth)
    ensures Contains(DstRect((py - VertPadding) / CharHeight, (px - HorzPadding) / CharWidth), px, py)
  {
  }

  /** The blit of the `i`-th cell in row-major order. */
  function Blit(grid: Grid, i: int): DrawOp
    requires Shaped(grid) && 0 <= i < ScreenRows * ScreenCols
  {
    Copy(SrcRect(grid[i / ScreenCols][i % ScreenCols]), DstRect(i / ScreenCols, i % ScreenCols))
  }

  /** The first `n` blits of a redraw. */
  function Blits(grid: Grid, n: nat): seq<DrawOp>
    requires Shaped(grid) && n <= ScreenRows * ScreenCols
  {
    seq(n, i requires 0 <= i < n => Blit(grid, i))
  }

  /** The operations of one redraw of `grid`. */
  function Frame(grid: Grid): seq<DrawOp>
    requires Shaped(grid)
  {
    [Clear] + Blits(grid, ScreenRows * ScreenCols) + [Present]
  }

  /** Position `row * 80 + col` of the row-major order is row `row`, column `col`. */
  lemma RowMajorIndex(row: int, col: int)
    requires InGrid(row, col)
    ensures 0 <= row * ScreenCols + col < ScreenRows * ScreenCols
    ensures (row * ScreenCols + col) / ScreenCols == row
    ensures (row * ScreenCols + col) % ScreenCols == col
  {
  }

  /** A frame clears, blits each of the 2000 cells exactly once in row-major
      order, and presents only after the last blit. */
  lemma FrameBlitsEachCellOnce(grid: Grid, row: int, col: int)
    requires Shaped(grid) && InGrid(row, col)
    ensures Frame(grid)[1 + row * ScreenCols + col] == Copy(SrcRect(grid[row][col]), DstRect(row, col))
    ensures forall i :: 0 <= i < |Frame(grid)| && Frame(grid)[i].Copy? && Frame(grid)[i].dst == DstRect(row, col)
                        ==> i == 1 + row * ScreenCols + col
    ensures forall i :: 0 <= i < |Frame(grid)| - 1 ==> !Frame(grid)[i].Present?
  {
    RowMajorIndex(row, col);
    var f := Frame(grid);
    forall i | 0 <= i < |f| && f[i].Copy? && f[i].dst == DstRect(row, col)
      ensures i == 1 + row * ScreenCols + col
    {
      var j := i - 1;
      RowMajorIndex(j / ScreenCols, j % ScreenCols);
      if (j / ScreenCols, j % ScreenCols) != (row, col) {
        DstDisjoint(j / ScreenCols, j % ScreenCols, row, col);
      }
    }
  }

  /** `redraw`: nested loops over rows, then columns. */
  method Redraw(grid: Grid) returns (ops: seq<DrawOp>)
    requires Shaped(grid)
    ensures |ops| == ScreenRows * ScreenCols + 2
    ensures ops[0] == Clear && ops[|ops| - 1] == Present
    ensures forall row, col :: InGrid(row, col) ==>
              ops[1 + row * ScreenCols + col] == Copy(SrcRect(grid[row][col]), DstRect(row, col))
    ensures ops == Frame(grid)
  {
    ops := [Clear];
    for row := 0 to ScreenRows
      invariant ops == [Clear] + Blits(grid, row * ScreenCols)
    {
      for col := 0 to ScreenCols
        invariant ops == [Clear] + Blits(grid, row * ScreenCols + col)
      {
        var cell := grid[row][col];
        RowMajorIndex(row, col);
        ops := ops + [Copy(SrcRect(cell), DstRect(row, col))];
        assert Blits(grid, row * ScreenCols + col + 1)
            == Blits(grid, row * ScreenCols + col) + [Blit(grid, row * ScreenCols + col)];
      }
    }
    ops := ops + [Present];
    forall row, col | InGrid(row, col)
      ensures ops[1 + row * ScreenCols + col] == Copy(SrcRect(grid[row][col]), DstRect(row, col))
    {
      RowMajorIndex(row, col);
    }
  }
}
