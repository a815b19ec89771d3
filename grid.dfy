/** The value of a termpixels/buffer.py `Buffer`: a map from each in-bounds
    coordinate to the value of its cell.  The functions below say what each
    `Buffer` operation does to that value; the `Buffer` methods are proved to
    do exactly this to the cells they own. */
module Grids {

  import opened Wrappers
  import opened Colors
  import opened Pixels
  import opened Util
  import opened Geometry

  type Grid = map<Pos, Cell>

  /** The second of two updates at one key is the one that stays. */
  lemma UpdateTwice(m: Grid, k: Pos, a: Cell, b: Cell)
    ensures m[k := a][k := b] == m[k := b]
  {
  }

  function Coords(w: int, h: int): (s: set<Pos>)
    ensures forall p {:trigger p in s} :: p in s <==> InRange(w, h, p.0, p.1)
  {
    set x, y | 0 <= x < w && 0 <= y < h :: (x, y)
  }

  /** A grid holds exactly the coordinates of a `w` by `h` buffer. */
  ghost predicate Shaped(g: Grid, w: int, h: int) { forall p {:trigger p in g} :: p in g <==> InRange(w, h, p.0, p.1) }

  /** A keyword argument that may be `None`. */
  function Or<T>(o: Option<T>, d: T): T { if o.Some? then o.value else d }

  /** Whether `put_char` writes a character of width `n` at (x, y). */
  predicate PutFits(w: int, h: int, n: int, x: int, y: int) { x >= 0 && y >= 0 && x + n <= w && y < h }

  /** `put_char`: a character that fits is written with the given colours;
      a wide one also blanks the cell it covers on the right. */
  function PutCharGrid(g: Grid, w: int, h: int, ch: char, x: int, y: int,
                       fg: Option<Color>, bg: Option<Color>, wm: WidthModel): (r: Grid)
    requires Shaped(g, w, h)
    ensures Shaped(r, w, h)
  {
    var n := TerminalCharLen(ch, wm);
    if !PutFits(w, h, n, x, y) then g
    else
      var c := g[(x, y)];
      var g1 := g[(x, y) := Cell(ch, Or(fg, c.fg), Or(bg, c.bg))];
      if n > 1 then
        var s := g[(x + 1, y)];
        g1[(x + 1, y) := Cell(' ', Or(fg, s.fg), Or(bg, s.bg))]
      else g1
  }

  /** Cell by cell, `put_char` changes nothing when the character does not
      fit; otherwise its cell takes the character and the given colours, the
      cell a wide character covers becomes a space with them, and no other
      cell changes. */
  lemma PutCharGridCells(g: Grid, w: int, h: int, ch: char, x: int, y: int,
                         fg: Option<Color>, bg: Option<Color>, wm: WidthModel)
    requires Shaped(g, w, h)
    ensures var r := PutCharGrid(g, w, h, ch, x, y, fg, bg, wm);
      !PutFits(w, h, TerminalCharLen(ch, wm), x, y) ==> r == g
    ensures var r := PutCharGrid(g, w, h, ch, x, y, fg, bg, wm);
      PutFits(w, h, TerminalCharLen(ch, wm), x, y) ==>
        r[(x, y)] == Cell(ch, Or(fg, g[(x, y)].fg), Or(bg, g[(x, y)].bg))
    ensures var r := PutCharGrid(g, w, h, ch, x, y, fg, bg, wm);
      PutFits(w, h, TerminalCharLen(ch, wm), x, y) && TerminalCharLen(ch, wm) == 2 ==>
        r[(x + 1, y)] == Cell(' ', Or(fg, g[(x + 1, y)].fg), Or(bg, g[(x + 1, y)].bg))
    ensures var r := PutCharGrid(g, w, h, ch, x, y, fg, bg, wm);
      forall p :: p in g && p != (x, y) && p != (x + 1, y) ==> r[p] == g[p]
    ensures var r := PutCharGrid(g, w, h, ch, x, y, fg, bg, wm);
      TerminalCharLen(ch, wm) == 1 ==> forall p :: p in g && p != (x, y) ==> r[p] == g[p]
  {
  }

  /** A character that fits: its cell is written, then the covered one. */
  lemma PutCharGridFits(g: Grid, w: int, h: int, ch: char, x: int, y: int,
                        fg: Option<Color>, bg: Option<Color>, wm: WidthModel)
    requires Shaped(g, w, h) && PutFits(w, h, TerminalCharLen(ch, wm), x, y)
    ensures var g1 := g[(x, y) := Cell(ch, Or(fg, g[(x, y)].fg), Or(bg, g[(x, y)].bg))];
      PutCharGrid(g, w, h, ch, x, y, fg, bg, wm) ==
        if TerminalCharLen(ch, wm) == 1 then g1
        else g1[(x + 1, y) := Cell(' ', Or(fg, g1[(x + 1, y)].fg), Or(bg, g1[(x + 1, y)].bg))]
  {
  }

  /** The characters of one line, left to right, each at the column that the
      widths before it reach; returns the grid and the column after the line. */
  function PrintLine(g: Grid, w: int, h: int, line: string, x: int, y: int,
                     fg: Option<Color>, bg: Option<Color>, wm: WidthModel): (r: (Grid, int))
    requires Shaped(g, w, h)
    ensures Shaped(r.0, w, h)
    decreases |line|
  {
    if line == [] then (g, x)
    else
      var prev := PrintLine(g, w, h, line[..|line| - 1], x, y, fg, bg, wm);
      var ch := line[|line| - 1];
      (PutCharGrid(prev.0, w, h, ch, prev.1, y, fg, bg, wm), prev.1 + TerminalCharLen(ch, wm))
  }

  /** One more character of a line. */
  lemma PrintLineStep(g: Grid, w: int, h: int, line: string, i: int, x: int, y: int,
                      fg: Option<Color>, bg: Option<Color>, wm: WidthModel)
    requires Shaped(g, w, h) && 0 <= i < |line|
    ensures var prev := PrintLine(g, w, h, line[..i], x, y, fg, bg, wm);
      PrintLine(g, w, h, line[..i + 1], x, y, fg, bg, wm) ==
        (PutCharGrid(prev.0, w, h, line[i], prev.1, y, fg, bg, wm), prev.1 + TerminalCharLen(line[i], wm))
  {
    assert line[..i + 1][..i] == line[..i];
  }

  /** Where line `k` of a print starts: the first line at the given x, every
      other one at the line start. */
  function LineStartX(k: nat, x0: int, lineStart: int): int { if k == 0 then x0 else lineStart }

  /** `print` from (x0, y0) of the given lines: line k on row y0 + k.  Returns
      the grid and the position after the last character printed. */
  function PrintRun(g: Grid, w: int, h: int, lines: seq<string>, x0: int, y0: int, lineStart: int,
                    fg: Option<Color>, bg: Option<Color>, wm: WidthModel): (r: (Grid, Pos))
    requires Shaped(g, w, h)
    ensures Shaped(r.0, w, h)
    decreases |lines|
  {
    if lines == [] then (g, (x0, y0))
    else
      var k := |lines| - 1;
      var prev := PrintRun(g, w, h, lines[..k], x0, y0, lineStart, fg, bg, wm);
      var done := PrintLine(prev.0, w, h, lines[k], LineStartX(k, x0, lineStart), y0 + k, fg, bg, wm);
      (done.0, (done.1, y0 + k))
  }

  /** One more line of a print. */
  lemma PrintRunStep(g: Grid, w: int, h: int, lines: seq<string>, k: int, x0: int, y0: int, lineStart: int,
                     fg: Option<Color>, bg: Option<Color>, wm: WidthModel)
    requires Shaped(g, w, h) && 0 <= k < |lines|
    ensures var prev := PrintRun(g, w, h, lines[..k], x0, y0, lineStart, fg, bg, wm);
      var done := PrintLine(prev.0, w, h, lines[k], LineStartX(k, x0, lineStart), y0 + k, fg, bg, wm);
      PrintRun(g, w, h, lines[..k + 1], x0, y0, lineStart, fg, bg, wm) == (done.0, (done.1, y0 + k))
  {
    assert lines[..k + 1][..k] == lines[..k];
  }


  /** A line ends where the widths of its characters reach. */
  lemma {:induction false} PrintLineEnd(g: Grid, w: int, h: int, line: string, x: int, y: int,
                                        fg: Option<Color>, bg: Option<Color>, wm: WidthModel)
    requires Shaped(g, w, h)
    ensures PrintLine(g, w, h, line, x, y, fg, bg, wm).1 == x + TerminalLen(line, wm)
    decreases |line|
  {
    if line != [] {
      var k := |line| - 1;
      PrintLineEnd(g, w, h, line[..k], x, y, fg, bg, wm);
      TerminalLenAppend(line[..k], [line[k]], wm);
      assert line[..k] + [line[k]] == line;
      assert [line[k]][1..] == [];
    }
  }

  /** Printing a line leaves every other row as it was. */
  lemma {:induction false} PrintLineOtherRows(g: Grid, w: int, h: int, line: string, x: int, y: int,
                                              fg: Option<Color>, bg: Option<Color>, wm: WidthModel)
    requires Shaped(g, w, h)
    ensures forall p :: p in g && p.1 != y ==> PrintLine(g, w, h, line, x, y, fg, bg, wm).0[p] == g[p]
    decreases |line|
  {
    if line != [] {
      var k := |line| - 1;
      var prev := PrintLine(g, w, h, line[..k], x, y, fg, bg, wm);
      PrintLineOtherRows(g, w, h, line[..k], x, y, fg, bg, wm);
      PutCharGridCells(prev.0, w, h, line[k], prev.1, y, fg, bg, wm);
    }
  }

  /** A line of narrow characters: character i lands at column x + i when
      that cell is in bounds (the rest of the line is cut off), with the
      given colours; no other cell changes, and the line ends at x + |line|. */
  lemma {:induction false} PrintLineNarrow(g: Grid, w: int, h: int, line: string, x: int, y: int,
                                           fg: Option<Color>, bg: Option<Color>, wm: WidthModel)
    requires Shaped(g, w, h)
    requires forall i :: 0 <= i < |line| ==> TerminalCharLen(line[i], wm) == 1
    ensures var r := PrintLine(g, w, h, line, x, y, fg, bg, wm);
      r.1 == x + |line|
    ensures var r := PrintLine(g, w, h, line, x, y, fg, bg, wm);
      forall i :: 0 <= i < |line| && InRange(w, h, x + i, y) ==>
        r.0[(x + i, y)] == Cell(line[i], Or(fg, g[(x + i, y)].fg), Or(bg, g[(x + i, y)].bg))
    ensures var r := PrintLine(g, w, h, line, x, y, fg, bg, wm);
      forall p :: p in g && !(p.1 == y && x <= p.0 < x + |line|) ==> r.0[p] == g[p]
    decreases |line|
  {
    if line != [] {
      var k := |line| - 1;
      var pre := line[..k];
      var prev := PrintLine(g, w, h, pre, x, y, fg, bg, wm);
      PrintLineNarrow(g, w, h, pre, x, y, fg, bg, wm);
      var r := PutCharGrid(prev.0, w, h, line[k], prev.1, y, fg, bg, wm);
      assert PrintLine(g, w, h, line, x, y, fg, bg, wm) == (r, prev.1 + 1);
      PutCharGridCells(prev.0, w, h, line[k], prev.1, y, fg, bg, wm);
      forall i | 0 <= i < |line| && InRange(w, h, x + i, y)
        ensures r[(x + i, y)] == Cell(line[i], Or(fg, g[(x + i, y)].fg), Or(bg, g[(x + i, y)].bg))
      {
        if i < k {
          assert pre[i] == line[i];
          assert (x + i, y) != (x + k, y);
        }
      }
      forall p | p in g && !(p.1 == y && x <= p.0 < x + |line|)
        ensures r[p] == g[p]
      {
        assert p != (x + k, y);
      }
    }
  }

  /** The fullwidth test of `print`: two wide characters over a row of "X"
      take columns 0 and 2, and each blanks the cell it covers. */
  lemma PrintFullwidthExample(wm: WidthModel, c1: char, c2: char)
    requires wm.eastAsianWidth(c1) == W && wm.eastAsianWidth(c2) == W
    ensures var g := ClearGrid(4, 1, DefaultCell.(ch := 'X'));
      var r := PrintLine(g, 4, 1, [c1, c2], 0, 0, None, None, wm).0;
      r[(0, 0)].ch == c1 && r[(1, 0)].ch == ' ' && r[(2, 0)].ch == c2 && r[(3, 0)].ch == ' '
  {
    var g := ClearGrid(4, 1, DefaultCell.(ch := 'X'));
    var line := [c1, c2];
    assert line[..1] == [c1] && [c1][..0] == [];
    assert line[..2] == line;
    var g1 := PrintLine(g, 4, 1, [c1], 0, 0, None, None, wm);
    assert PrintLine(g, 4, 1, [], 0, 0, None, None, wm) == (g, 0);
    assert TerminalCharLen(c1, wm) == 2;
    PutCharGridCells(g, 4, 1, c1, 0, 0, None, None, wm);
    assert g1 == (PutCharGrid(g, 4, 1, c1, 0, 0, None, None, wm), 2);
    PutCharGridCells(g1.0, 4, 1, c2, 2, 0, None, None, wm);
  }

  /** A print ends on the row of its last line, after that line's width
      from where the line started. */
  lemma PrintRunEnd(g: Grid, w: int, h: int, lines: seq<string>, x0: int, y0: int, lineStart: int,
                    fg: Option<Color>, bg: Option<Color>, wm: WidthModel)
    requires Shaped(g, w, h) && |lines| >= 1
    ensures var k := |lines| - 1;
      PrintRun(g, w, h, lines, x0, y0, lineStart, fg, bg, wm).1 ==
        (LineStartX(k, x0, lineStart) + TerminalLen(lines[k], wm), y0 + k)
  {
    var k := |lines| - 1;
    var prev := PrintRun(g, w, h, lines[..k], x0, y0, lineStart, fg, bg, wm);
    PrintLineEnd(prev.0, w, h, lines[k], LineStartX(k, x0, lineStart), y0 + k, fg, bg, wm);
  }
  /** `fill` applied to one cell: each attribute given replaces the cell's. */
  function FillCell(c: Cell, fg: Option<Color>, bg: Option<Color>, ch: Option<char>): (r: Cell)
    ensures fg.None? ==> r.fg == c.fg
    ensures bg.None? ==> r.bg == c.bg
    ensures ch.None? ==> r.ch == c.ch
    ensures fg.Some? ==> r.fg == fg.value
    ensures bg.Some? ==> r.bg == bg.value
    ensures ch.Some? ==> r.ch == ch.value
  {
    Cell(Or(ch, c.ch), Or(fg, c.fg), Or(bg, c.bg))
  }

  /** `fill` of the rectangle at (x, y) of size fw by fh: in-bounds cells of
      the rectangle take the given attributes, nothing else changes. */
  function FillGrid(g: Grid, x: int, y: int, fw: int, fh: int,
                    fg: Option<Color>, bg: Option<Color>, ch: Option<char>): (r: Grid)
    ensures r.Keys == g.Keys
    ensures forall p :: p in g && !InRect(p, x, y, fw, fh) ==> r[p] == g[p]
    ensures forall p :: p in g && InRect(p, x, y, fw, fh) ==> r[p] == FillCell(g[p], fg, bg, ch)
  {
    map p | p in g :: if InRect(p, x, y, fw, fh) then FillCell(g[p], fg, bg, ch) else g[p]
  }

  /** The rectangle of a fill has a cell inside the buffer. */
  predicate RectMeets(w: int, h: int, x: int, y: int, fw: int, fh: int)
  {
    Max(x, 0) < Min(x + fw, w) && Max(y, 0) < Min(y + fh, h)
  }


  /** `clear`: every cell becomes `c`. */
  function ClearGrid(w: int, h: int, c: Cell): (r: Grid)
    ensures Shaped(r, w, h)
    ensures forall p :: p in r ==> r[p] == c
  {
    map p | p in Coords(w, h) :: c
  }

  /** The source cell that copying an `nx` by `ny` block from (sx, sy) of
      `src` to (x, y) puts at `p`, if any: both ends must be in bounds. */
  function BlockSource(p: Pos, dw: int, dh: int, src: Grid, x: int, y: int,
                       sx: int, sy: int, nx: int, ny: int): (q: Option<Pos>)
    ensures q.Some? ==> q.value in src && q.value == (sx + p.0 - x, sy + p.1 - y)
    ensures q.Some? <==> InRange(dw, dh, p.0, p.1) && InRect(p, x, y, nx, ny) && (sx + p.0 - x, sy + p.1 - y) in src
  {
    var dx, dy := p.0 - x, p.1 - y;
    if InRange(dw, dh, p.0, p.1) && 0 <= dx < nx && 0 <= dy < ny && (sx + dx, sy + dy) in src
    then Some((sx + dx, sy + dy)) else None
  }

  /** The copy of such a block: each destination cell with a source cell
      takes its value, the others keep theirs. */
  function BlitBlock(g: Grid, dw: int, dh: int, src: Grid, x: int, y: int,
                     sx: int, sy: int, nx: int, ny: int): (r: Grid)
    ensures r.Keys == g.Keys
    ensures forall p :: p in g && BlockSource(p, dw, dh, src, x, y, sx, sy, nx, ny).None? ==> r[p] == g[p]
    ensures forall p :: p in g && BlockSource(p, dw, dh, src, x, y, sx, sy, nx, ny).Some? ==>
      r[p] == src[BlockSource(p, dw, dh, src, x, y, sx, sy, nx, ny).value]
  {
    map p | p in g :: match BlockSource(p, dw, dh, src, x, y, sx, sy, nx, ny)
                        case Some(q) => src[q]
                        case None => g[p]
  }

  /** How many columns (rows) `blit` copies between inclusive corners `a`
      and `b` into a destination `n` wide (high). */
  function BlitExtent(a: int, b: int, n: int): int { Min(Max(a, b) - Min(a, b) + 1, n) }

  /** `blit` of the inclusive corners (x0, y0) and (x1, y1) of `src` to
      (x, y) of a `dw` by `dh` grid: the corners are ordered, and the copied
      extent is cut to the destination's size. */
  function BlitGrid(g: Grid, dw: int, dh: int, src: Grid, x: int, y: int,
                    x0: int, y0: int, x1: int, y1: int): (r: Grid)
    requires Shaped(g, dw, dh)
    ensures Shaped(r, dw, dh)
  {
    BlitBlock(g, dw, dh, src, x, y, Min(x0, x1), Min(y0, y1), BlitExtent(x0, x1, dw), BlitExtent(y0, y1, dh))
  }

  /** Cell by cell, `blit` copies the source cell at the same offset from the
      ordered near corner into each destination cell of the clipped block
      that has one, and leaves every other cell as it was. */
  lemma BlitGridCells(g: Grid, dw: int, dh: int, src: Grid, x: int, y: int,
                      x0: int, y0: int, x1: int, y1: int)
    requires Shaped(g, dw, dh)
    ensures var r := BlitGrid(g, dw, dh, src, x, y, x0, y0, x1, y1);
      forall p :: p in g && !InRect(p, x, y, BlitExtent(x0, x1, dw), BlitExtent(y0, y1, dh)) ==> r[p] == g[p]
    ensures var r := BlitGrid(g, dw, dh, src, x, y, x0, y0, x1, y1);
      forall p :: p in g && (p.0 - x + Min(x0, x1), p.1 - y + Min(y0, y1)) !in src ==> r[p] == g[p]
    ensures var r := BlitGrid(g, dw, dh, src, x, y, x0, y0, x1, y1);
      forall p :: p in g && InRect(p, x, y, BlitExtent(x0, x1, dw), BlitExtent(y0, y1, dh))
                  && (p.0 - x + Min(x0, x1), p.1 - y + Min(y0, y1)) in src
            ==> r[p] == src[(p.0 - x + Min(x0, x1), p.1 - y + Min(y0, y1))]
  {
    var sx, sy, nx, ny := Min(x0, x1), Min(y0, y1), BlitExtent(x0, x1, dw), BlitExtent(y0, y1, dh);
    assert BlitGrid(g, dw, dh, src, x, y, x0, y0, x1, y1) == BlitBlock(g, dw, dh, src, x, y, sx, sy, nx, ny);
  }

  /** Blitting a whole buffer of the same size at the origin, with the
      default far corner (the source's size), makes the destination a copy. */
  lemma BlitWhole(g: Grid, src: Grid, w: int, h: int)
    requires Shaped(g, w, h) && Shaped(src, w, h)
    ensures BlitGrid(g, w, h, src, 0, 0, 0, 0, w, h) == src
  {
  }

  /** Filling a rectangle without width or height changes nothing. */
  lemma FillGridEmpty(g: Grid, x: int, y: int, fw: int, fh: int, fg: Option<Color>, bg: Option<Color>, ch: Option<char>)
    requires fw <= 0 || fh <= 0
    ensures FillGrid(g, x, y, fw, fh, fg, bg, ch) == g
  {
  }

  /** Filling one more cell of a column extends the column by that cell, if
      it is in the grid. */
  lemma FillGridCell(g: Grid, i: int, y: int, j: int, fg: Option<Color>, bg: Option<Color>, ch: Option<char>)
    requires y <= j
    ensures (i, j) in g ==>
      FillGrid(g, i, y, 1, j + 1 - y, fg, bg, ch) == FillGrid(g, i, y, 1, j - y, fg, bg, ch)[(i, j) := FillCell(g[(i, j)], fg, bg, ch)]
    ensures (i, j) !in g ==> FillGrid(g, i, y, 1, j + 1 - y, fg, bg, ch) == FillGrid(g, i, y, 1, j - y, fg, bg, ch)
  {
  }

  /** Filling one more column of a rectangle extends the rectangle by that column. */
  lemma FillGridColumn(g: Grid, x: int, y: int, i: int, fh: int,
                       fg: Option<Color>, bg: Option<Color>, ch: Option<char>)
    requires x <= i
    ensures FillGrid(FillGrid(g, x, y, i - x, fh, fg, bg, ch), i, y, 1, fh, fg, bg, ch)
         == FillGrid(g, x, y, i - x + 1, fh, fg, bg, ch)
  {
  }

  /** `resize`: cells that lie inside both the old and the new size keep their
      value, the others are new default cells. */
  function ResizeGrid(g: Grid, w: int, h: int): (r: Grid)
    ensures Shaped(r, w, h)
    ensures forall p :: p in r && p in g ==> r[p] == g[p]
    ensures forall p :: p in r && p !in g ==> r[p] == DefaultCell
  {
    map p | p in Coords(w, h) :: if p in g then g[p] else DefaultCell
  }

  /** Resizing to the size a grid already has changes nothing. */
  lemma ResizeSame(g: Grid, w: int, h: int)
    requires Shaped(g, w, h)
    ensures ResizeGrid(g, w, h) == g
  {
  }

  /** Shrinking and growing back loses what was cut off: the cells outside
      the smaller size come back as defaults. */
  lemma ResizeShrinkGrow(g: Grid, w: int, h: int, w2: int, h2: int)
    requires Shaped(g, w, h)
    ensures forall p :: p in Coords(w, h) ==>
      ResizeGrid(ResizeGrid(g, w2, h2), w, h)[p] == if InRange(w2, h2, p.0, p.1) then g[p] else DefaultCell
  {
  }

  /** `r` is `g` with the in-bounds cells of the rectangle filled. */
  ghost predicate Filled(r: Grid, g: Grid, x: int, y: int, fw: int, fh: int,
                         fg: Option<Color>, bg: Option<Color>, ch: Option<char>)
  {
    r.Keys == g.Keys &&
    forall p :: p in r ==> r[p] == if InRect(p, x, y, fw, fh) then FillCell(g[p], fg, bg, ch) else g[p]
  }

  lemma FilledIsFillGrid(r: Grid, g: Grid, x: int, y: int, fw: int, fh: int,
                         fg: Option<Color>, bg: Option<Color>, ch: Option<char>)
    requires Filled(r, g, x, y, fw, fh, fg, bg, ch)
    ensures r == FillGrid(g, x, y, fw, fh, fg, bg, ch)
  {
  }

  /** Filling the cell at row `j` below the part of a column already filled
      (nothing, when the cell is out of bounds) extends the filled part by a row. */
  lemma FilledRowStep(r1: Grid, r2: Grid, g: Grid, w: int, h: int, i: int, y: int, j: int, fh: int,
                      fg: Option<Color>, bg: Option<Color>, ch: Option<char>)
    requires y <= j < y + fh && Shaped(r1, w, h)
    requires Filled(r1, g, i, y, 1, j - y, fg, bg, ch)
    requires InRange(w, h, i, j) ==> r2 == r1[(i, j) := FillCell(r1[(i, j)], fg, bg, ch)]
    requires !InRange(w, h, i, j) ==> r2 == r1
    ensures Filled(r2, g, i, y, 1, j + 1 - y, fg, bg, ch)
  {
  }

  /** A filled column `i` next to a filled block extends the block by a column. */
  lemma FilledColumnStep(r1: Grid, r2: Grid, g: Grid, x: int, y: int, i: int, fh: int,
                         fg: Option<Color>, bg: Option<Color>, ch: Option<char>)
    requires x <= i
    requires Filled(r1, g, x, y, i - x, fh, fg, bg, ch)
    requires Filled(r2, r1, i, y, 1, fh, fg, bg, ch)
    ensures Filled(r2, g, x, y, i + 1 - x, fh, fg, bg, ch)
  {
  }

  /** Filling every cell with all three attributes given clears the grid. */
  lemma FillGridClears(g: Grid, w: int, h: int, c: Cell)
    requires Shaped(g, w, h)
    ensures FillGrid(g, 0, 0, w, h, Some(c.fg), Some(c.bg), Some(c.ch)) == ClearGrid(w, h, c)
  {
    var r := FillGrid(g, 0, 0, w, h, Some(c.fg), Some(c.bg), Some(c.ch));
    forall p | p in r
      ensures r[p] == c
    {
      assert InRect(p, 0, 0, w, h);
    }
  }

  /** `r` is `g` with the part of a block copy that lies in the first `nx`
      columns and `ny` rows done. */
  ghost predicate BlockCopied(r: Grid, g: Grid, dw: int, dh: int, src: Grid, x: int, y: int,
                              sx: int, sy: int, nx: int, ny: int)
  {
    r.Keys == g.Keys &&
    forall p :: p in r ==>
      r[p] == if BlockSource(p, dw, dh, src, x, y, sx, sy, nx, ny).Some?
              then src[BlockSource(p, dw, dh, src, x, y, sx, sy, nx, ny).value] else g[p]
  }

  lemma BlockCopiedIsBlit(r: Grid, g: Grid, dw: int, dh: int, src: Grid, x: int, y: int,
                          sx: int, sy: int, nx: int, ny: int)
    requires BlockCopied(r, g, dw, dh, src, x, y, sx, sy, nx, ny)
    ensures r == BlitBlock(g, dw, dh, src, x, y, sx, sy, nx, ny)
  {
  }

  /** Copying row `dy` of a one-column block (nothing, when either end is out
      of bounds) extends the copied part by a row. */
  lemma BlockRowStep(r1: Grid, r2: Grid, g: Grid, dw: int, dh: int, src: Grid, x: int, y: int,
                     sx: int, sy: int, n: int)
    requires 0 < n && Shaped(r1, dw, dh)
    requires BlockCopied(r1, g, dw, dh, src, x, y, sx, sy, 1, n - 1)
    requires InRange(dw, dh, x, y + (n - 1)) && (sx, sy + (n - 1)) in src ==>
               r2 == r1[(x, y + (n - 1)) := src[(sx, sy + (n - 1))]]
    requires !(InRange(dw, dh, x, y + (n - 1)) && (sx, sy + (n - 1)) in src) ==> r2 == r1
    ensures BlockCopied(r2, g, dw, dh, src, x, y, sx, sy, 1, n)
  {
  }

  /** The first `n` rows of one column of a `blit`, copied one at a time from
      the top: row `y + k` of column `i` takes row `sy + k` of column `si` of `src`. */
  function BlitRows(g: Grid, dw: int, dh: int, src: Grid, i: int, y: int, si: int, sy: int, n: nat): Grid
  {
    if n == 0 then g
    else
      var r := BlitRows(g, dw, dh, src, i, y, si, sy, n - 1);
      if InRange(dw, dh, i, y + (n - 1)) && (si, sy + (n - 1)) in src
      then r[(i, y + (n - 1)) := src[(si, sy + (n - 1))]] else r
  }

  /** The first `m` columns of a `blit` block of `ny` rows, one column at a time. */
  function BlitCols(g: Grid, dw: int, dh: int, src: Grid, x: int, y: int, sx: int, sy: int,
                    m: nat, ny: int): Grid
  {
    if m == 0 then g
    else BlitRows(BlitCols(g, dw, dh, src, x, y, sx, sy, m - 1, ny), dw, dh, src,
                  x + (m - 1), y, sx + (m - 1), sy, Max(0, ny))
  }

  /** One more column of a `blit` block. */
  lemma BlitColsStep(g: Grid, dw: int, dh: int, src: Grid, x: int, y: int, sx: int, sy: int,
                     m: nat, ny: int)
    ensures BlitCols(g, dw, dh, src, x, y, sx, sy, m + 1, ny) ==
            BlitRows(BlitCols(g, dw, dh, src, x, y, sx, sy, m, ny), dw, dh, src, x + m, y, sx + m, sy, Max(0, ny))
  {
  }

  /** Copying the rows one at a time copies the column. */
  lemma {:induction false} BlitRowsCopied(g: Grid, dw: int, dh: int, src: Grid, i: int, y: int,
                                          si: int, sy: int, n: nat)
    requires Shaped(g, dw, dh)
    ensures Shaped(BlitRows(g, dw, dh, src, i, y, si, sy, n), dw, dh)
    ensures BlockCopied(BlitRows(g, dw, dh, src, i, y, si, sy, n), g, dw, dh, src, i, y, si, sy, 1, n)
  {
    if n > 0 {
      BlitRowsCopied(g, dw, dh, src, i, y, si, sy, n - 1);
      var r1 := BlitRows(g, dw, dh, src, i, y, si, sy, n - 1);
      BlockRowStep(r1, BlitRows(g, dw, dh, src, i, y, si, sy, n), g, dw, dh, src, i, y, si, sy, n);
    }
  }

  /** Copying the columns one at a time copies the block. */
  lemma {:induction false} BlitColsCopied(g: Grid, dw: int, dh: int, src: Grid, x: int, y: int,
                                          sx: int, sy: int, m: nat, ny: int)
    requires Shaped(g, dw, dh)
    ensures Shaped(BlitCols(g, dw, dh, src, x, y, sx, sy, m, ny), dw, dh)
    ensures BlockCopied(BlitCols(g, dw, dh, src, x, y, sx, sy, m, ny), g, dw, dh, src, x, y, sx, sy, m, ny)
  {
    if m > 0 {
      var r1 := BlitCols(g, dw, dh, src, x, y, sx, sy, m - 1, ny);
      var r2 := BlitRows(r1, dw, dh, src, x + (m - 1), y, sx + (m - 1), sy, Max(0, ny));
      assert r2 == BlitCols(g, dw, dh, src, x, y, sx, sy, m, ny);
      BlitColsCopied(g, dw, dh, src, x, y, sx, sy, m - 1, ny);
      BlitRowsCopied(r1, dw, dh, src, x + (m - 1), y, sx + (m - 1), sy, Max(0, ny));
      BlockCopiedClip(r2, r1, dw, dh, src, x + (m - 1), y, sx + (m - 1), sy, 1, Max(0, ny), 1, ny);
      BlockColumnStep(r1, r2, g, dw, dh, src, x, y, sx, sy, m, ny);
    }
  }

  /** The columns copied one at a time, over the clipped extent, are the block copy. */
  lemma BlitColsIsBlock(g: Grid, dw: int, dh: int, src: Grid, x: int, y: int,
                        sx: int, sy: int, nx: int, ny: int)
    requires Shaped(g, dw, dh)
    ensures BlitCols(g, dw, dh, src, x, y, sx, sy, Max(0, nx), ny) == BlitBlock(g, dw, dh, src, x, y, sx, sy, nx, ny)
  {
    var r := BlitCols(g, dw, dh, src, x, y, sx, sy, Max(0, nx), ny);
    BlitColsCopied(g, dw, dh, src, x, y, sx, sy, Max(0, nx), ny);
    BlockCopiedClip(r, g, dw, dh, src, x, y, sx, sy, Max(0, nx), ny, nx, ny);
    BlockCopiedIsBlit(r, g, dw, dh, src, x, y, sx, sy, nx, ny);
  }

  /** `blit` copies the columns of its block one at a time. */
  lemma BlitGridByColumns(g: Grid, dw: int, dh: int, src: Grid, x: int, y: int,
                          x0: int, y0: int, x1: int, y1: int)
    requires Shaped(g, dw, dh)
    ensures BlitGrid(g, dw, dh, src, x, y, x0, y0, x1, y1) ==
            BlitCols(g, dw, dh, src, x, y, Min(x0, x1), Min(y0, y1),
                     Max(0, BlitExtent(x0, x1, dw)), BlitExtent(y0, y1, dh))
  {
    BlitColsIsBlock(g, dw, dh, src, x, y, Min(x0, x1), Min(y0, y1), BlitExtent(x0, x1, dw), BlitExtent(y0, y1, dh));
  }

  /** A negative extent copies nothing, like an empty one. */
  lemma BlockCopiedClip(r: Grid, g: Grid, dw: int, dh: int, src: Grid, x: int, y: int,
                        sx: int, sy: int, m: int, n: int, nx: int, ny: int)
    requires m == Max(0, nx) || m == nx
    requires n == Max(0, ny) || n == ny
    requires BlockCopied(r, g, dw, dh, src, x, y, sx, sy, m, n)
    ensures BlockCopied(r, g, dw, dh, src, x, y, sx, sy, nx, ny)
  {
  }

  /** A copied column `dx` next to a copied block extends the block by a column. */
  lemma BlockColumnStep(r1: Grid, r2: Grid, g: Grid, dw: int, dh: int, src: Grid, x: int, y: int,
                        sx: int, sy: int, m: int, ny: int)
    requires 0 < m
    requires BlockCopied(r1, g, dw, dh, src, x, y, sx, sy, m - 1, ny)
    requires BlockCopied(r2, r1, dw, dh, src, x + (m - 1), y, sx + (m - 1), sy, 1, ny)
    ensures BlockCopied(r2, g, dw, dh, src, x, y, sx, sy, m, ny)
  {
  }
}
