/** termpixels/buffer.py: a `Buffer` owns a column-major grid of `PixelData`
    cells (`pixels[x][y]`), a cursor position and the position where the last
    `print` stopped.  Every method is proved against the function of `Grids`
    that says what it does to the values of the cells. */
module Buffers {

  import opened Wrappers
  import opened Colors
  import opened Pixels
  import opened Util
  import opened Geometry
  import opened Grids
  import opened CellGrids

  class Buffer {
    var w: int
    var h: int
    var pixels: seq<seq<PixelData>>
    var cursorPos: Pos
    var printPos: Pos
    /** The value of the buffer: each in-bounds position and its cell's value. */
    ghost var grid: Grid
    /** Where each cell object sits; it makes the cells distinct objects. */
    ghost var place: map<PixelData, Pos>

    /** Nothing but the cells' values changes. */
    twostate predicate Kept()
      reads this
    {
      (w, h, pixels, cursorPos, printPos) == old((w, h, pixels, cursorPos, printPos))
    }

    /** `w` columns of `h` cells each (none when a size is negative). */
    ghost predicate Rectangular()
      reads this
    {
      |pixels| == Clamp0(w) && forall x :: 0 <= x < |pixels| ==> |pixels[x]| == Clamp0(h)
    }

    ghost function Cells(): set<PixelData>
      reads this
    {
      CellSet(pixels)
    }

    /** The cells are distinct objects, each caching its hash correctly and
        holding the value `grid` has at its position. */
    ghost predicate Valid()
      reads this, Cells()
    {
      Rectangular() && Shaped(grid, w, h) && CellsHold(pixels, place, grid)
    }

    /** `Buffer(w, h)`: a `w` by `h` buffer of default cells. */
    constructor (w: int, h: int)
      ensures Valid() && this.w == w && this.h == h
      ensures grid == ClearGrid(w, h, DefaultCell)
      ensures cursorPos == (0, 0) && printPos == (0, 0)
      ensures fresh(Cells())
    {
      cursorPos := (0, 0);
      printPos := (0, 0);
      this.w := 0;
      this.h := 0;
      pixels := [];
      grid := map[];
      place := map[];
      new;
      Resize(w, h);
    }

    /** `resize`: the cells inside both sizes are kept (the same objects),
        the others are new default cells. */
    method Resize(nw: int, nh: int)
      requires Valid()
      modifies this
      ensures Valid() && w == nw && h == nh
      ensures grid == ResizeGrid(old(grid), nw, nh)
      ensures forall x, y :: InRange(old(w), old(h), x, y) && InRange(nw, nh, x, y) ==>
        pixels[x][y] == old(pixels[x][y])
      ensures forall x, y :: InRange(nw, nh, x, y) && !InRange(old(w), old(h), x, y) ==> fresh(pixels[x][y])
      ensures cursorPos == old(cursorPos) && printPos == old(printPos)
    {
      var cols, pl := NewColumns(nw, nh);
      pixels, place, grid := cols, pl, ResizeGrid(grid, nw, nh);
      w, h := nw, nh;
    }

    /** The columns of a resized buffer, and where each of their cells sits. */
    method NewColumns(nw: int, nh: int) returns (cols: seq<seq<PixelData>>, ghost pl: map<PixelData, Pos>)
      requires Valid()
      ensures |cols| == Clamp0(nw) && forall i :: 0 <= i < |cols| ==> ColumnKept(cols[i], i, nh)
      ensures CellsHold(cols, pl, ResizeGrid(grid, nw, nh))
    {
      cols := [];
      pl := map[];
      ghost var g := ResizeGrid(grid, nw, nh);
      var x := 0;
      while x < nw
        invariant 0 <= x <= Clamp0(nw) && |cols| == x
        invariant forall i :: 0 <= i < x ==> ColumnKept(cols[i], i, nh)
        invariant forall p :: p in pl ==> pl[p].0 < x && (p in place ==> place[p] == pl[p])
        invariant CellsHold(cols, pl, g)
      {
        var col := NewColumn(x, nw, nh, pl);
        assert ColumnKept(col, x, nh);
        CellsHoldAppend(cols, pl, col, g);
        cols := cols + [col];
        pl := pl + ColumnPlace(col, x);
        x := x + 1;
      }
    }

    /** Column `x` of the resized buffer holds `col`: `nh` cells, the old
        object where the old size had one, a new one elsewhere. */
    twostate predicate ColumnKept(new col: seq<PixelData>, x: int, nh: int)
      requires Rectangular()
      reads this
    {
      |col| == Clamp0(nh) &&
      forall j :: 0 <= j < |col| ==>
        if InRange(w, h, x, j) then col[j] == pixels[x][j] else fresh(col[j])
    }

    /** Column `x` of a resized buffer: the old cells of that column that stay
        in bounds, then new default cells; none of them is a cell of the
        earlier columns `pl` places. */
    method NewColumn(x: int, nw: int, nh: int, ghost pl: map<PixelData, Pos>) returns (col: seq<PixelData>)
      requires Valid() && 0 <= x < nw
      requires forall p :: p in pl ==> pl[p].0 < x && (p in place ==> place[p] == pl[p])
      ensures |col| == Clamp0(nh)
      ensures forall j :: 0 <= j < |col| ==>
        (if InRange(w, h, x, j) then col[j] == pixels[x][j] else fresh(col[j])) &&
        col[j] !in pl && (col[j] in place ==> place[col[j]] == (x, j)) &&
        col[j].Valid() && col[j].Value() == ResizeGrid(grid, nw, nh)[(x, j)]
      ensures forall j1, j2 :: 0 <= j1 < j2 < |col| ==> col[j1] != col[j2]
    {
      col := [];
      var y := 0;
      while y < nh
        invariant 0 <= y <= Clamp0(nh) && |col| == y
        invariant forall j :: 0 <= j < y ==>
          (if InRange(w, h, x, j) then col[j] == pixels[x][j] else fresh(col[j])) &&
          col[j] !in pl && (col[j] in place ==> place[col[j]] == (x, j)) &&
          col[j].Valid() && col[j].Value() == ResizeGrid(grid, nw, nh)[(x, j)]
        invariant forall j1, j2 :: 0 <= j1 < j2 < y ==> col[j1] != col[j2]
      {
        if x < w && y < h {
          col := col + [pixels[x][y]];
        } else {
          var p := new PixelData.Default();
          col := col + [p];
        }
        y := y + 1;
      }
    }
  
    /** `in_bounds`: whether (x, y) is a cell of the buffer. */
    function InBounds(x: int, y: int): (b: bool)
      reads this
      ensures b <==> 0 <= x < w && 0 <= y < h
      ensures Shaped(grid, w, h) ==> (b <==> (x, y) in grid)
    {
      x >= 0 && y >= 0 && x < w && y < h
    }

    /** `at(x, y, clip=clip)`: the cell object itself, at the position
        `Locate` gives, so that changing it changes the buffer. */
    function At(x: int, y: int, clip: bool): (r: Result<PixelData, BufferError>)
      requires Rectangular()
      reads this
      ensures r.Ok? <==> Locate(w, h, x, y, clip).Ok?
      ensures r.Ok? ==> r.value == pixels[Locate(w, h, x, y, clip).value.0][Locate(w, h, x, y, clip).value.1]
      ensures r.Err? ==> r.error == Locate(w, h, x, y, clip).error
      ensures r.Ok? ==> r.value in Cells()
    {
      match Locate(w, h, x, y, clip)
      case Ok(p) => Ok(pixels[p.0][p.1])
      case Err(e) => Err(e)
    }

    /** `buffer[x, y] = val`: copies the value of `val` into the cell at
        (x, y), which must be in bounds. */
    method SetItem(x: int, y: int, val: PixelData) returns (r: Outcome<BufferError>)
      requires Valid()
      modifies this, Cells()
      ensures Kept()
      ensures Valid()
      ensures r.Fail? <==> !InRange(w, h, x, y)
      ensures r.Fail? ==> grid == old(grid)
      ensures r.Pass? ==> grid == old(grid)[(x, y) := old(val.Value())]
    {
      var a := At(x, y, false);
      if a.Err? {
        return Fail(a.error);
      }
      var pixel := a.value;
      var same := pixel.Set(val);
      grid := grid[(x, y) := pixel.Value()];
      r := Pass;
    }

    /** `put_char`: returns the width of `ch`, whether or not it fitted. */
    method PutChar(ch: char, x: int, y: int, fg: Option<Color>, bg: Option<Color>, wm: WidthModel)
      returns (n: nat)
      requires Valid()
      modifies this, Cells()
      ensures Kept()
      ensures Valid()
      ensures n == TerminalCharLen(ch, wm)
      ensures grid == PutCharGrid(old(grid), w, h, ch, x, y, fg, bg, wm)
    {
      n := TerminalCharLen(ch, wm);
      if x >= 0 && y >= 0 && x + n <= w && y < h {
        PutCharGridFits(grid, w, h, ch, x, y, fg, bg, wm);
        PaintCell(x, y, ch, fg, bg);
        if n > 1 {
          PaintCell(x + 1, y, ' ', fg, bg);
        }
      }
    }

    /** The setters `put_char` applies to one in-bounds cell: `char`, then
        `fg` and `bg` when given. */
    method PaintCell(i: int, j: int, c: char, fg: Option<Color>, bg: Option<Color>)
      requires Valid() && InRange(w, h, i, j)
      modifies this, pixels[i][j]
      ensures Kept()
      ensures Valid()
      ensures grid == old(grid)[(i, j) := Cell(c, Or(fg, old(grid)[(i, j)].fg), Or(bg, old(grid)[(i, j)].bg))]
    {
      ghost var g0, cur := grid, grid[(i, j)];
      assert grid == g0[(i, j) := cur];
      var _ := SetCharAt(i, j, [c]);
      UpdateTwice(g0, (i, j), cur, cur.(ch := c));
      cur := cur.(ch := c);
      if fg.Some? {
        SetFgAt(i, j, fg.value);
        UpdateTwice(g0, (i, j), cur, cur.(fg := fg.value));
        cur := cur.(fg := fg.value);
      }
      if bg.Some? {
        SetBgAt(i, j, bg.value);
        UpdateTwice(g0, (i, j), cur, cur.(bg := bg.value));
        cur := cur.(bg := bg.value);
      }
    }

    /** `print`: the lines of `text` are put one below the other, the first
        from (x, y) and the others from the line start; a missing x or y is
        taken from where the last print stopped, a missing line start is x.
        Returns, and stores as `printPos`, the position after the last
        character of the last line. */
    method Print(text: string, x: Option<int>, y: Option<int>, lineStart: Option<int>,
                 fg: Option<Color>, bg: Option<Color>, wm: WidthModel) returns (pos: Pos)
      requires Valid()
      modifies this, Cells()
      ensures Valid()
      ensures (w, h, pixels, cursorPos) == old((w, h, pixels, cursorPos))
      ensures var x0 := Or(x, old(printPos).0);
              var run := PrintRun(old(grid), w, h, SplitLines(text), x0, Or(y, old(printPos).1),
                                  Or(lineStart, x0), fg, bg, wm);
              grid == run.0 && pos == run.1
      ensures printPos == pos
    {
      var x0 := if x.Some? then x.value else printPos.0;
      var y0 := if y.Some? then y.value else printPos.1;
      var ls := if lineStart.Some? then lineStart.value else x0;
      pos := PrintLines(SplitLines(text), x0, y0, ls, fg, bg, wm);
      printPos := pos;
    }

    /** The outer loop of `print`: line k from (x0 or the line start, y0 + k). */
    method PrintLines(lines: seq<string>, x0: int, y0: int, ls: int,
                      fg: Option<Color>, bg: Option<Color>, wm: WidthModel) returns (pos: Pos)
      requires Valid()
      modifies this, Cells()
      ensures Kept()
      ensures Valid()
      ensures (grid, pos) == PrintRun(old(grid), w, h, lines, x0, y0, ls, fg, bg, wm)
    {
      var cx, cy := x0, y0;
      var k := 0;
      while k < |lines|
        invariant 0 <= k <= |lines|
        invariant Kept() && Valid()
        invariant (grid, (cx, cy)) == PrintRun(old(grid), w, h, lines[..k], x0, y0, ls, fg, bg, wm)
      {
        PrintRunStep(old(grid), w, h, lines, k, x0, y0, ls, fg, bg, wm);
        cy := y0 + k;
        cx := LineStartX(k, x0, ls);
        cx := PrintLineAt(lines[k], cx, cy, fg, bg, wm);
        k := k + 1;
      }
      assert lines[..k] == lines;
      pos := (cx, cy);
    }

    /** The inner loop of `print`: the characters of one line from (x, y),
        each after the width of the one before.  Returns the column after. */
    method PrintLineAt(line: string, x: int, y: int, fg: Option<Color>, bg: Option<Color>, wm: WidthModel)
      returns (nx: int)
      requires Valid()
      modifies this, Cells()
      ensures Kept()
      ensures Valid()
      ensures (grid, nx) == PrintLine(old(grid), w, h, line, x, y, fg, bg, wm)
    {
      nx := x;
      var i := 0;
      while i < |line|
        invariant 0 <= i <= |line|
        invariant Kept() && Valid()
        invariant (grid, nx) == PrintLine(old(grid), w, h, line[..i], x, y, fg, bg, wm)
      {
        PrintLineStep(old(grid), w, h, line, i, x, y, fg, bg, wm);
        var n := PutChar(line[i], nx, y, fg, bg, wm);
        nx := nx + n;
        i := i + 1;
      }
      assert line[..i] == line;
    }

    /** `fill`: the in-bounds cells of the rectangle take the given
        attributes, column by column.  A bad character raises at the first
        in-bounds cell visited, (max(x, 0), max(y, 0)), after that cell's
        colours are set; a rectangle off the buffer never raises. */
    method Fill(x: int, y: int, fw: int, fh: int, fg: Option<Color>, bg: Option<Color>, ch: Option<string>)
      returns (r: Outcome<BufferError>)
      requires Valid()
      modifies this, Cells()
      ensures Kept()
      ensures Valid()
      ensures r.Fail? <==> BadChar(ch) && RectMeets(w, h, x, y, fw, fh)
      ensures r.Fail? ==> grid == old(grid)[(Max(x, 0), Max(y, 0)) :=
        FillCell(old(grid)[(Max(x, 0), Max(y, 0))], fg, bg, None)]
      ensures r.Pass? ==> grid == FillGrid(old(grid), x, y, fw, fh, fg, bg, GoodChar(ch))
    {
      r := Pass;
      var i := x;
      while i < x + fw
        invariant x <= i <= Max(x, x + fw)
        invariant Kept() && Valid()
        invariant Filled(grid, old(grid), x, y, i - x, fh, fg, bg, GoodChar(ch))
        invariant BadChar(ch) ==> grid == old(grid) && (RectMeets(w, h, x, y, fw, fh) ==> i <= Max(x, 0))
      {
        ghost var g1 := grid;
        var o := FillColumn(i, y, fh, fg, bg, ch);
        if o.Fail? {
          assert i == Max(x, 0) && g1 == old(grid);
          return o;
        }
        FilledColumnStep(g1, grid, old(grid), x, y, i, fh, fg, bg, GoodChar(ch));
        i := i + 1;
      }
      FilledIsFillGrid(grid, old(grid), x, y, fw, fh, fg, bg, GoodChar(ch));
    }

    /** One column of a `fill`, top to bottom; it raises at its first
        in-bounds cell when the character is bad. */
    method FillColumn(i: int, y: int, fh: int, fg: Option<Color>, bg: Option<Color>, ch: Option<string>)
      returns (r: Outcome<BufferError>)
      requires Valid()
      modifies this, Cells()
      ensures Kept()
      ensures Valid()
      ensures r.Fail? <==> BadChar(ch) && 0 <= i < w && Max(y, 0) < Min(y + fh, h)
      ensures r.Fail? ==> grid == old(grid)[(i, Max(y, 0)) := FillCell(old(grid)[(i, Max(y, 0))], fg, bg, None)]
      ensures r.Pass? ==> Filled(grid, old(grid), i, y, 1, fh, fg, bg, GoodChar(ch))
      ensures r.Pass? && BadChar(ch) ==> grid == old(grid)
    {
      r := Pass;
      var j := y;
      while j < y + fh
        invariant y <= j <= Max(y, y + fh)
        invariant Kept() && Valid()
        invariant Filled(grid, old(grid), i, y, 1, j - y, fg, bg, GoodChar(ch))
        invariant r.Pass?
        invariant BadChar(ch) ==> grid == old(grid) && (!(0 <= i < w) || h <= 0 || j == y || j <= 0 || y >= h)
      {
        ghost var g1 := grid;
        r := FillAt(i, j, fg, bg, ch);
        if r.Fail? {
          assert j == Max(y, 0) && g1 == old(grid);
          return;
        }
        FilledRowStep(g1, grid, old(grid), w, h, i, y, j, fh, fg, bg, GoodChar(ch));
        j := j + 1;
      }
    }

    /** The body of `fill`'s inner loop: an out-of-bounds position is skipped. */
    method FillAt(i: int, j: int, fg: Option<Color>, bg: Option<Color>, ch: Option<string>)
      returns (r: Outcome<BufferError>)
      requires Valid()
      modifies this, Cells()
      ensures Kept()
      ensures Valid()
      ensures r.Fail? <==> BadChar(ch) && InRange(w, h, i, j)
      ensures InRange(w, h, i, j) ==>
        grid == old(grid)[(i, j) := FillCell(old(grid)[(i, j)], fg, bg, GoodChar(ch))]
      ensures !InRange(w, h, i, j) ==> grid == old(grid)
    {
      r := Pass;
      if !(i < 0 || j < 0 || i >= w || j >= h) {
        r := UpdateCell(i, j, fg, bg, ch);
      }
    }

    /** `clear`: every cell takes the given attributes (the source's
        defaults are `White`, `Black` and " ").  The blank cell is built first,
        so a character that is not one character long changes nothing. */
    method Clear(fg: Color, bg: Color, ch: string) returns (r: Outcome<PixelError>)
      requires Valid()
      modifies this, Cells()
      ensures Kept()
      ensures Valid()
      ensures r.Fail? <==> |ch| != 1
      ensures r.Fail? ==> grid == old(grid)
      ensures r.Pass? ==> grid == ClearGrid(w, h, Cell(ch[0], fg, bg))
    {
      var b := PixelData.New(fg, bg, ch);
      if b.Err? {
        return Fail(b.error);
      }
      var blank := b.value;
      ghost var c := Cell(ch[0], fg, bg);
      var i := 0;
      while i < w
        invariant 0 <= i <= Max(0, w)
        invariant Kept() && Valid()
        invariant blank.Valid() && blank.Value() == c
        invariant Filled(grid, old(grid), 0, 0, i - 0, h, Some(c.fg), Some(c.bg), Some(c.ch))
      {
        ghost var g1 := grid;
        ClearColumn(i, blank, c);
        FilledColumnStep(g1, grid, old(grid), 0, 0, i, h, Some(c.fg), Some(c.bg), Some(c.ch));
        i := i + 1;
      }
      FilledIsFillGrid(grid, old(grid), 0, 0, w, h, Some(c.fg), Some(c.bg), Some(c.ch));
      FillGridClears(old(grid), w, h, c);
      r := Pass;
    }

    /** One column of a `clear`. */
    method ClearColumn(i: int, blank: PixelData, ghost c: Cell)
      requires Valid() && 0 <= i < w && blank !in Cells() && blank.Valid() && blank.Value() == c
      modifies this, Cells()
      ensures Kept()
      ensures Valid()
      ensures Filled(grid, old(grid), i, 0, 1, h, Some(c.fg), Some(c.bg), Some(c.ch))
    {
      var j := 0;
      while j < h
        invariant 0 <= j <= Max(0, h)
        invariant Kept() && Valid()
        invariant Filled(grid, old(grid), i, 0, 1, j - 0, Some(c.fg), Some(c.bg), Some(c.ch))
      {
        ghost var g1 := grid;
        CopyCell(i, j, blank);
        assert FillCell(g1[(i, j)], Some(c.fg), Some(c.bg), Some(c.ch)) == c;
        FilledRowStep(g1, grid, old(grid), w, h, i, 0, j, h, Some(c.fg), Some(c.bg), Some(c.ch));
        j := j + 1;
      }
    }

    /** `blit(src, x, y, x0, y0, x1, y1)`: the block of `src` between the
        inclusive corners (x0, y0) and (x1, y1), which default to the far
        corner (src.w, src.h), is copied to (x, y); a cell is copied only
        when both it and its source are in bounds. */
    method Blit(src: Buffer, x: int, y: int, x0: int, y0: int, x1: Option<int>, y1: Option<int>)
      requires Valid() && src.Valid() && src != this && src.Cells() !! Cells()
      modifies this, Cells()
      ensures Kept()
      ensures Valid()
      ensures grid == BlitGrid(old(grid), w, h, src.grid, x, y, x0, y0, Or(x1, src.w), Or(y1, src.h))
    {
      var ex, ey := Or(x1, src.w), Or(y1, src.h);
      var sx, sy := Min(x0, ex), Min(y0, ey);
      var nx, ny := BlitExtent(x0, ex, w), BlitExtent(y0, ey, h);
      ghost var sg, g0 := src.grid, grid;
      BlitGridByColumns(g0, w, h, sg, x, y, x0, y0, ex, ey);
      var dx := 0;
      while dx < nx
        invariant 0 <= dx <= Max(0, nx)
        invariant Kept() && Valid() && src.Valid() && src.grid == sg
        invariant grid == BlitCols(g0, w, h, sg, x, y, sx, sy, dx, ny)
      {
        BlitColsStep(g0, w, h, sg, x, y, sx, sy, dx, ny);
        BlitColumn(src, x + dx, y, sx + dx, sy, ny, sg);
        dx := dx + 1;
      }
      assert dx == Max(0, nx);
    }

    /** One column of a `blit`: column `i` from row `y` takes column `si` of
        `src` from row `sy`, for `ny` rows. */
    method BlitColumn(src: Buffer, i: int, y: int, si: int, sy: int, ny: int, ghost sg: Grid)
      requires Valid() && src.Valid() && src != this && src.Cells() !! Cells() && src.grid == sg
      modifies this, Cells()
      ensures Kept()
      ensures Valid() && src.Valid() && src.grid == sg
      ensures grid == BlitRows(old(grid), w, h, sg, i, y, si, sy, Max(0, ny))
    {
      var dy := 0;
      while dy < ny
        invariant 0 <= dy <= Max(0, ny)
        invariant Kept() && Valid() && src.Valid() && src.grid == sg
        invariant grid == BlitRows(old(grid), w, h, sg, i, y, si, sy, dy)
      {
        BlitAt(src, i, y + dy, si, sy + dy, sg);
        dy := dy + 1;
      }
    }

    /** The body of `blit`'s inner loop. */
    method BlitAt(src: Buffer, i: int, j: int, si: int, sj: int, ghost sg: Grid)
      requires Valid() && src.Valid() && src != this && src.Cells() !! Cells() && src.grid == sg
      modifies this, Cells()
      ensures Kept()
      ensures Valid() && src.Valid() && src.grid == sg
      ensures InRange(w, h, i, j) && (si, sj) in sg ==> grid == old(grid)[(i, j) := sg[(si, sj)]]
      ensures !(InRange(w, h, i, j) && (si, sj) in sg) ==> grid == old(grid)
    {
      if InBounds(i, j) && src.InBounds(si, sj) {
        CopyCell(i, j, src.pixels[si][sj]);
      }
    }

    /** The setters `fill` applies to one in-bounds cell: `fg`, then `bg`, then
        `char`, each only when given; a bad character fails after the colours
        are set. */
    method UpdateCell(i: int, j: int, fg: Option<Color>, bg: Option<Color>, ch: Option<string>)
      returns (r: Outcome<BufferError>)
      requires Valid() && InRange(w, h, i, j)
      modifies this, pixels[i][j]
      ensures Kept()
      ensures Valid()
      ensures r.Fail? <==> ch.Some? && |ch.value| != 1
      ensures grid == old(grid)[(i, j) := FillCell(old(grid)[(i, j)], fg, bg, GoodChar(ch))]
    {
      ghost var g0, cur := grid, grid[(i, j)];
      assert grid == g0[(i, j) := cur];
      if fg.Some? {
        SetFgAt(i, j, fg.value);
        UpdateTwice(g0, (i, j), cur, cur.(fg := fg.value));
        cur := cur.(fg := fg.value);
      }
      if bg.Some? {
        SetBgAt(i, j, bg.value);
        UpdateTwice(g0, (i, j), cur, cur.(bg := bg.value));
        cur := cur.(bg := bg.value);
      }
      r := Pass;
      if ch.Some? {
        r := SetCharAt(i, j, ch.value);
        if r.Pass? {
          UpdateTwice(g0, (i, j), cur, cur.(ch := ch.value[0]));
          cur := cur.(ch := ch.value[0]);
        }
      }
      assert cur == FillCell(g0[(i, j)], fg, bg, GoodChar(ch));
    }

    /** `at_unsafe(i, j).fg = c`. */
    method SetFgAt(i: int, j: int, c: Color)
      requires Valid() && InRange(w, h, i, j)
      modifies this, pixels[i][j]
      ensures Kept()
      ensures Valid()
      ensures grid == old(grid)[(i, j) := old(grid)[(i, j)].(fg := c)]
    {
      pixels[i][j].SetFg(c);
      grid := grid[(i, j) := pixels[i][j].Value()];
    }

    /** `at_unsafe(i, j).bg = c`. */
    method SetBgAt(i: int, j: int, c: Color)
      requires Valid() && InRange(w, h, i, j)
      modifies this, pixels[i][j]
      ensures Kept()
      ensures Valid()
      ensures grid == old(grid)[(i, j) := old(grid)[(i, j)].(bg := c)]
    {
      pixels[i][j].SetBg(c);
      grid := grid[(i, j) := pixels[i][j].Value()];
    }

    /** `at_unsafe(i, j).char = s`: refused unless `s` is one character. */
    method SetCharAt(i: int, j: int, s: string) returns (r: Outcome<BufferError>)
      requires Valid() && InRange(w, h, i, j)
      modifies this, pixels[i][j]
      ensures Kept()
      ensures Valid()
      ensures r.Fail? <==> |s| != 1
      ensures r.Fail? ==> grid == old(grid)
      ensures r.Pass? ==> grid == old(grid)[(i, j) := old(grid)[(i, j)].(ch := s[0])]
    {
      var o := pixels[i][j].SetChar(s);
      grid := grid[(i, j) := pixels[i][j].Value()];
      r := if o.Fail? then Fail(CharLength) else Pass;
    }

    /** `at_unsafe(i, j).set(val)` for an in-bounds position. */
    method CopyCell(i: int, j: int, val: PixelData)
      requires Valid() && InRange(w, h, i, j)
      modifies this, pixels[i][j]
      ensures Kept()
      ensures Valid()
      ensures grid == old(grid)[(i, j) := old(val.Value())]
    {
      var same := pixels[i][j].Set(val);
      grid := grid[(i, j) := pixels[i][j].Value()];
    }
  }

  /** The character a `char=` argument sets: the one character of a string of
      length one, none otherwise. */
  function GoodChar(ch: Option<string>): (c: Option<char>)
    ensures c.Some? <==> ch.Some? && |ch.value| == 1
    ensures c.Some? ==> c.value == ch.value[0]
  {
    if ch.Some? && |ch.value| == 1 then Some(ch.value[0]) else None
  }

  /** A `char=` argument that is given but is not one character. */
  predicate BadChar(ch: Option<string>) { ch.Some? && |ch.value| != 1 }
}
