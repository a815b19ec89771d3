/** termpixels/screen.py: a `Screen` keeps a column-major grid of cells and a
    grid of copies of what it last sent (`_pixelCache`), and `update` renders
    through a Unix backend only the cells that differ from their copy,
    scanning row by row.  The file's own `PixelData` and `Color` compare by
    their fields, so the cells are `Cell` values here. */
module Screens {

  import opened Wrappers
  import opened Colors
  import opened Pixels
  import opened Geometry
  import opened Unix

  /** A call `render(cell, x, y)`. */
  datatype Call = Call(pos: Pos, cell: Cell)

  /** `w` columns of `h` cells. */
  ghost predicate Columns(px: seq<seq<Cell>>, w: nat, h: nat)
  {
    |px| == w && forall x :: 0 <= x < w ==> |px[x]| == h
  }

  /** `w` columns of `h` cells, and a cache of the same shape. */
  ghost predicate Sized(px: seq<seq<Cell>>, cache: seq<seq<Option<Cell>>>, w: nat, h: nat)
  {
    Columns(px, w, h) && |cache| == w && forall x :: 0 <= x < w ==> |cache[x]| == h
  }

  /** A cache holding a copy of every cell. */
  function CacheOf(px: seq<seq<Cell>>): (c: seq<seq<Option<Cell>>>)
    ensures |c| == |px| && forall x :: 0 <= x < |px| ==> |c[x]| == |px[x]|
  {
    seq(|px|, x requires 0 <= x < |px| => seq(|px[x]|, y requires 0 <= y < |px[x]| => Some(px[x][y])))
  }

  /** A cache that remembers nothing: every cell will be rendered. */
  function EmptyCache(w: nat, h: nat): (c: seq<seq<Option<Cell>>>)
    ensures |c| == w && forall x :: 0 <= x < w ==> |c[x]| == h
    ensures forall x, y :: 0 <= x < w && 0 <= y < h ==> c[x][y] == None
  {
    seq(w, x => seq(h, y => None))
  }

  /** Cell (x, y) differs from its copy (a missing copy differs from every cell). */
  predicate Dirty(px: seq<seq<Cell>>, cache: seq<seq<Option<Cell>>>, x: int, y: int)
  {
    0 <= x < |px| && 0 <= y < |px[x]| && x < |cache| && y < |cache[x]| && cache[x][y] != Some(px[x][y])
  }

  /** The render calls of row `y` among its first `n` cells, left to right. */
  function DirtyRow(px: seq<seq<Cell>>, cache: seq<seq<Option<Cell>>>, y: int, n: nat): (r: seq<Call>)
    ensures |r| <= n
  {
    if n == 0 then []
    else
      DirtyRow(px, cache, y, n - 1) +
      (if Dirty(px, cache, n - 1, y) then [Call((n - 1, y), px[n - 1][y])] else [])
  }

  /** The render calls of `update` over the first `m` rows of a screen `w`
      cells wide, top to bottom. */
  function DirtyRows(px: seq<seq<Cell>>, cache: seq<seq<Option<Cell>>>, w: nat, m: nat): (r: seq<Call>)
    ensures |r| <= w * m
  {
    if m == 0 then [] else DirtyRows(px, cache, w, m - 1) + DirtyRow(px, cache, m - 1, w)
  }

  /** `render(pixel, x, y)`: cursor, foreground, background, then the character. */
  function RenderCell(t: Term, c: Cell, x: int, y: int): (r: Term)
    ensures r.cursor == (x + 1, y) && r.fg == Some(c.fg) && r.bg == Some(c.bg)
    ensures r.showCursor == t.showCursor
  {
    WriteText(SetBg(SetFg(MoveCursor(t, (x, y)), c.fg), c.bg), [c.ch])
  }

  /** The backend after the given render calls, in order. */
  function RenderAll(t: Term, calls: seq<Call>): Term
    decreases |calls|
  {
    if calls == [] then t
    else
      var last := calls[|calls| - 1];
      RenderCell(RenderAll(t, calls[..|calls| - 1]), last.cell, last.pos.0, last.pos.1)
  }

  /** The backend after the render calls of the first `n` cells of row `y`. */
  function RenderRow(t: Term, px: seq<seq<Cell>>, cache: seq<seq<Option<Cell>>>, y: int, n: nat): (r: Term)
    ensures r.showCursor == t.showCursor
    decreases n
  {
    if n == 0 then t
    else
      var t' := RenderRow(t, px, cache, y, n - 1);
      if Dirty(px, cache, n - 1, y) then RenderCell(t', px[n - 1][y], n - 1, y) else t'
  }

  /** The backend after the render calls of the first `m` rows. */
  function RenderRows(t: Term, px: seq<seq<Cell>>, cache: seq<seq<Option<Cell>>>, w: nat, m: nat): (r: Term)
    ensures r.showCursor == t.showCursor
    decreases m
  {
    if m == 0 then t else RenderRow(RenderRows(t, px, cache, w, m - 1), px, cache, m - 1, w)
  }

  /** The backend after `update` of a `w` by `h` screen: the dirty cells
      rendered, then the cursor moved to the screen's cursor position. */
  function UpdateState(t: Term, px: seq<seq<Cell>>, cache: seq<seq<Option<Cell>>>, w: nat, h: nat, cursor: Pos): (r: Term)
    ensures r.cursor == cursor && r.showCursor == t.showCursor
  {
    MoveCursor(RenderRows(t, px, cache, w, h), cursor)
  }

  /** Rendering a list of calls in two parts. */
  lemma {:induction false} RenderAllAppend(t: Term, a: seq<Call>, b: seq<Call>)
    ensures RenderAll(t, a + b) == RenderAll(RenderAll(t, a), b)
    decreases |b|
  {
    if b == [] {
      assert a + b == a;
    } else {
      var b', c := b[..|b| - 1], b[|b| - 1];
      assert a + b == (a + b') + [c] && (a + b)[..|a + b| - 1] == a + b';
      RenderAllAppend(t, a, b');
    }
  }

  /** A row renders its dirty cells, as calls, in order. */
  lemma {:induction false} RenderRowCalls(t: Term, px: seq<seq<Cell>>, cache: seq<seq<Option<Cell>>>, y: int, n: nat)
    ensures RenderRow(t, px, cache, y, n) == RenderAll(t, DirtyRow(px, cache, y, n))
    decreases n
  {
    if n > 0 {
      RenderRowCalls(t, px, cache, y, n - 1);
      var prev := DirtyRow(px, cache, y, n - 1);
      if Dirty(px, cache, n - 1, y) {
        var c := Call((n - 1, y), px[n - 1][y]);
        assert (prev + [c])[..|prev + [c]| - 1] == prev;
      } else {
        assert prev + [] == prev;
      }
    }
  }

  /** `update` renders its dirty cells, as calls, in row-major order. */
  lemma {:induction false} RenderRowsCalls(t: Term, px: seq<seq<Cell>>, cache: seq<seq<Option<Cell>>>, w: nat, m: nat)
    ensures RenderRows(t, px, cache, w, m) == RenderAll(t, DirtyRows(px, cache, w, m))
    decreases m
  {
    if m > 0 {
      var t1, above, row := RenderRows(t, px, cache, w, m - 1), DirtyRows(px, cache, w, m - 1), DirtyRow(px, cache, m - 1, w);
      RenderRowsCalls(t, px, cache, w, m - 1);
      RenderRowCalls(t1, px, cache, m - 1, w);
      RenderAllAppend(t, above, row);
      calc {
        RenderRows(t, px, cache, w, m);
        RenderRow(t1, px, cache, m - 1, w);
        RenderAll(RenderAll(t, above), row);
        RenderAll(t, above + row);
      }
    }
  }

  /** The backend after `update` is the one the calls of `DirtyRows` leave,
      with the cursor then put at the screen's cursor position. */
  lemma UpdateRendersDirtyCells(t: Term, px: seq<seq<Cell>>, cache: seq<seq<Option<Cell>>>, w: nat, h: nat, cursor: Pos)
    ensures UpdateState(t, px, cache, w, h, cursor) == MoveCursor(RenderAll(t, DirtyRows(px, cache, w, h)), cursor)
  {
    RenderRowsCalls(t, px, cache, w, h);
  }

  /** Row `y`'s calls are its differing cells among the first `n`, each
      once, left to right. */
  lemma {:induction false} DirtyRowFacts(px: seq<seq<Cell>>, cache: seq<seq<Option<Cell>>>, y: int, n: nat)
    ensures var r := DirtyRow(px, cache, y, n);
      forall k :: 0 <= k < |r| ==>
        r[k].pos.1 == y && 0 <= r[k].pos.0 < n && Dirty(px, cache, r[k].pos.0, y) && r[k].cell == px[r[k].pos.0][y]
    ensures var r := DirtyRow(px, cache, y, n);
      forall k1, k2 :: 0 <= k1 < k2 < |r| ==> r[k1].pos.0 < r[k2].pos.0
    ensures var r := DirtyRow(px, cache, y, n);
      forall a :: 0 <= a < n && Dirty(px, cache, a, y) ==> Call((a, y), px[a][y]) in r
    decreases n
  {
    if n > 0 {
      DirtyRowFacts(px, cache, y, n - 1);
    }
  }

  /** Position `p` comes before `q` in row-major order. */
  predicate Before(p: Pos, q: Pos) { p.1 < q.1 || (p.1 == q.1 && p.0 < q.0) }

  /** The calls of an earlier row come before those of a later one. */
  lemma RowsOrdered(prev: seq<Call>, row: seq<Call>, y: int)
    requires forall k :: 0 <= k < |prev| ==> prev[k].pos.1 < y
    requires forall k :: 0 <= k < |row| ==> row[k].pos.1 == y
    requires forall k1, k2 :: 0 <= k1 < k2 < |prev| ==> Before(prev[k1].pos, prev[k2].pos)
    requires forall k1, k2 :: 0 <= k1 < k2 < |row| ==> row[k1].pos.0 < row[k2].pos.0
    ensures forall k1, k2 :: 0 <= k1 < k2 < |prev + row| ==> Before((prev + row)[k1].pos, (prev + row)[k2].pos)
  {
    var r := prev + row;
    forall k1, k2 | 0 <= k1 < k2 < |r|
      ensures Before(r[k1].pos, r[k2].pos)
    {
      if k2 < |prev| {
        assert r[k1] == prev[k1] && r[k2] == prev[k2];
      } else if k1 < |prev| {
        assert r[k1] == prev[k1] && r[k2] == row[k2 - |prev|];
      } else {
        assert r[k1] == row[k1 - |prev|] && r[k2] == row[k2 - |prev|];
      }
    }
  }

  /** `update` renders only cells of the first `m` rows that differ from
      their copy, each as it is. */
  lemma {:induction false} DirtyRowsSound(px: seq<seq<Cell>>, cache: seq<seq<Option<Cell>>>, w: nat, m: nat)
    ensures var r := DirtyRows(px, cache, w, m);
      forall k :: 0 <= k < |r| ==>
        InRange(w, m, r[k].pos.0, r[k].pos.1) && Dirty(px, cache, r[k].pos.0, r[k].pos.1) &&
        r[k].cell == px[r[k].pos.0][r[k].pos.1]
    decreases m
  {
    if m > 0 {
      var prev, row := DirtyRows(px, cache, w, m - 1), DirtyRow(px, cache, m - 1, w);
      DirtyRowsSound(px, cache, w, m - 1);
      DirtyRowFacts(px, cache, m - 1, w);
      assert prev == DirtyRows(px, cache, w, m - 1);
      var r := prev + row;
      forall k | 0 <= k < |r|
        ensures InRange(w, m, r[k].pos.0, r[k].pos.1)
      {
        if k < |prev| {
          assert r[k] == prev[k];
        } else {
          assert r[k] == row[k - |prev|];
        }
      }
    }
  }

  /** `update` renders in row-major order, so no cell twice. */
  lemma {:induction false} DirtyRowsOrdered(px: seq<seq<Cell>>, cache: seq<seq<Option<Cell>>>, w: nat, m: nat)
    ensures var r := DirtyRows(px, cache, w, m);
      forall k1, k2 :: 0 <= k1 < k2 < |r| ==> Before(r[k1].pos, r[k2].pos)
    decreases m
  {
    if m > 0 {
      var prev, row := DirtyRows(px, cache, w, m - 1), DirtyRow(px, cache, m - 1, w);
      DirtyRowsOrdered(px, cache, w, m - 1);
      DirtyRowsSound(px, cache, w, m - 1);
      DirtyRowFacts(px, cache, m - 1, w);
      assert prev == DirtyRows(px, cache, w, m - 1);
      RowsOrdered(prev, row, m - 1);
    }
  }

  /** One dirty cell of the first `m` rows is among the render calls. */
  lemma {:induction false} DirtyRowsHas(px: seq<seq<Cell>>, cache: seq<seq<Option<Cell>>>, w: nat, m: nat, a: int, b: int)
    requires 0 <= a < w && 0 <= b < m && Dirty(px, cache, a, b)
    ensures Call((a, b), px[a][b]) in DirtyRows(px, cache, w, m)
    decreases m
  {
    var prev, row := DirtyRows(px, cache, w, m - 1), DirtyRow(px, cache, m - 1, w);
    assert DirtyRows(px, cache, w, m) == prev + row;
    if b < m - 1 {
      DirtyRowsHas(px, cache, w, m - 1, a, b);
      assert Call((a, b), px[a][b]) in prev;
    } else {
      DirtyRowFacts(px, cache, m - 1, w);
      assert Call((a, b), px[a][b]) in row;
    }
  }

  /** `update` renders every cell of the first `m` rows that differs from
      its copy. */
  lemma DirtyRowsComplete(px: seq<seq<Cell>>, cache: seq<seq<Option<Cell>>>, w: nat, m: nat)
    ensures var r := DirtyRows(px, cache, w, m);
      forall a, b :: 0 <= a < w && 0 <= b < m && Dirty(px, cache, a, b) ==> Call((a, b), px[a][b]) in r
  {
    forall a, b | 0 <= a < w && 0 <= b < m && Dirty(px, cache, a, b)
      ensures Call((a, b), px[a][b]) in DirtyRows(px, cache, w, m)
    {
      DirtyRowsHas(px, cache, w, m, a, b);
    }
  }

  /** Under a copy of itself, no cell is dirty. */
  lemma {:induction false} CleanRow(px: seq<seq<Cell>>, y: int, n: nat)
    ensures DirtyRow(px, CacheOf(px), y, n) == []
    decreases n
  {
    if n > 0 {
      CleanRow(px, y, n - 1);
      assert !Dirty(px, CacheOf(px), n - 1, y);
    }
  }

  /** Nothing differs from a cache of copies, so nothing is rendered. */
  lemma {:induction false} CleanRendersNothing(px: seq<seq<Cell>>, w: nat, m: nat)
    ensures DirtyRows(px, CacheOf(px), w, m) == []
    decreases m
  {
    if m > 0 {
      CleanRendersNothing(px, w, m - 1);
      CleanRow(px, m - 1, w);
    }
  }

  /** A second `update` with nothing changed in between sends nothing. */
  lemma UpdateIdempotent(t: Term, px: seq<seq<Cell>>, cache: seq<seq<Option<Cell>>>, w: nat, h: nat, cursor: Pos)
    ensures var t1 := UpdateState(t, px, cache, w, h, cursor);
      UpdateState(t1, px, CacheOf(px), w, h, cursor) == t1
  {
    var t1 := UpdateState(t, px, cache, w, h, cursor);
    CleanRendersNothing(px, w, h);
    UpdateRendersDirtyCells(t1, px, CacheOf(px), w, h, cursor);
  }

  /** (x, y) is the one cell that differs from its copy. */
  ghost predicate OnlyDirty(px: seq<seq<Cell>>, cache: seq<seq<Option<Cell>>>, x: int, y: int)
  {
    Dirty(px, cache, x, y) && forall a, b :: Dirty(px, cache, a, b) ==> a == x && b == y
  }

  /** With one differing cell, row `b` renders it if it is among the first
      `n` cells of the row, and nothing otherwise. */
  lemma {:induction false} OnlyDirtyRow(px: seq<seq<Cell>>, cache: seq<seq<Option<Cell>>>, x: int, y: int, b: int, n: nat)
    requires OnlyDirty(px, cache, x, y)
    ensures b == y && x < n ==> DirtyRow(px, cache, b, n) == [Call((x, y), px[x][y])]
    ensures !(b == y && x < n) ==> DirtyRow(px, cache, b, n) == []
    decreases n
  {
    if n > 0 {
      OnlyDirtyRow(px, cache, x, y, b, n - 1);
      assert Dirty(px, cache, n - 1, b) <==> n - 1 == x && b == y;
    }
  }

  /** With one differing cell, `update` renders it alone if it is within
      the scanned rows and columns. */
  lemma {:induction false} OnlyDirtyRows(px: seq<seq<Cell>>, cache: seq<seq<Option<Cell>>>, x: int, y: int, w: nat, m: nat)
    requires OnlyDirty(px, cache, x, y)
    ensures x < w && y < m ==> DirtyRows(px, cache, w, m) == [Call((x, y), px[x][y])]
    ensures !(x < w && y < m) ==> DirtyRows(px, cache, w, m) == []
    decreases m
  {
    if m > 0 {
      OnlyDirtyRows(px, cache, x, y, w, m - 1);
      OnlyDirtyRow(px, cache, x, y, m - 1, w);
    }
  }

  /** Changing one cell after an `update` makes the next one render that
      cell alone. */
  lemma OneChangeOneRender(px: seq<seq<Cell>>, w: nat, h: nat, x: int, y: int, c: Cell)
    requires Columns(px, w, h) && InRange(w, h, x, y) && c != px[x][y]
    ensures DirtyRows(px[x := px[x][y := c]], CacheOf(px), w, h) == [Call((x, y), c)]
  {
    var px', cache := px[x := px[x][y := c]], CacheOf(px);
    forall a, b | 0 <= a < |px'| && 0 <= b < |px'[a]| && (a != x || b != y)
      ensures !Dirty(px', cache, a, b)
    {
      assert px'[a][b] == px[a][b];
    }
    assert Dirty(px', cache, x, y);
    OnlyDirtyRows(px', cache, x, y, w, h);
  }

  /** With an empty cache every cell is rendered. */
  lemma EmptyCacheRendersAll(px: seq<seq<Cell>>, w: nat, h: nat)
    requires Columns(px, w, h)
    ensures forall a, b :: 0 <= a < w && 0 <= b < h ==> Call((a, b), px[a][b]) in DirtyRows(px, EmptyCache(w, h), w, h)
  {
    DirtyRowsComplete(px, EmptyCache(w, h), w, h);
  }

  /** A render leaves the backend one cell right of the cell it drew, so
      rendering the next cell of the row sends no cursor movement. */
  lemma AdjacentRenders(t: Term, c1: Cell, c2: Cell, x: int, y: int)
    ensures RenderCell(t, c1, x, y).cursor == (x + 1, y)
    ensures var t1 := RenderCell(t, c1, x, y);
      RenderCell(t1, c2, x + 1, y) == WriteText(SetBg(SetFg(t1, c2.fg), c2.bg), [c2.ch])
  {
  }

  /** After `update` the backend's cursor is the screen's. */
  lemma UpdateCursor(t: Term, px: seq<seq<Cell>>, cache: seq<seq<Option<Cell>>>, w: nat, h: nat, cursor: Pos)
    ensures UpdateState(t, px, cache, w, h, cursor).cursor == cursor
  {
  }

  /** Cell (a, b) has been scanned once `update` has done the rows above
      `y` and the first `x` cells of row `y`. */
  predicate Scanned(a: int, b: int, y: int, x: int) { b < y || (b == y && a < x) }

  /** The cache while `update` runs: the scanned cells hold copies, the
      others what the cache held before. */
  function Refreshed(px: seq<seq<Cell>>, c0: seq<seq<Option<Cell>>>, y: int, x: int): (r: seq<seq<Option<Cell>>>)
    ensures |r| == |c0| && forall a :: 0 <= a < |c0| ==> |r[a]| == |c0[a]|
  {
    seq(|c0|, a requires 0 <= a < |c0| =>
      seq(|c0[a]|, b requires 0 <= b < |c0[a]| =>
        if Scanned(a, b, y, x) && a < |px| && b < |px[a]| then Some(px[a][b]) else c0[a][b]))
  }

  lemma RefreshedStart(px: seq<seq<Cell>>, c0: seq<seq<Option<Cell>>>)
    ensures Refreshed(px, c0, 0, 0) == c0
  {
    var r := Refreshed(px, c0, 0, 0);
    forall a | 0 <= a < |c0| ensures r[a] == c0[a] { }
  }

  /** Scanning cell (x, y): its old copy is what is compared, and then it
      holds a copy of the cell. */
  lemma RefreshedStep(px: seq<seq<Cell>>, c0: seq<seq<Option<Cell>>>, y: int, x: int)
    requires 0 <= x < |c0| && 0 <= y < |c0[x]| && x < |px| && y < |px[x]|
    ensures Refreshed(px, c0, y, x)[x][y] == c0[x][y]
    ensures var r := Refreshed(px, c0, y, x);
      r[x := r[x][y := Some(px[x][y])]] == Refreshed(px, c0, y, x + 1)
  {
    var r, r' := Refreshed(px, c0, y, x), Refreshed(px, c0, y, x + 1);
    var s := r[x := r[x][y := Some(px[x][y])]];
    forall a | 0 <= a < |c0| ensures s[a] == r'[a] { }
  }

  /** The end of a row is the start of the next. */
  lemma RefreshedRowEnd(px: seq<seq<Cell>>, c0: seq<seq<Option<Cell>>>, y: int, w: nat)
    requires |c0| == w
    ensures Refreshed(px, c0, y, w) == Refreshed(px, c0, y + 1, 0)
  {
    var r, r' := Refreshed(px, c0, y, w), Refreshed(px, c0, y + 1, 0);
    forall a | 0 <= a < |c0| ensures r[a] == r'[a] { }
  }

  /** After the last row every cell holds a copy. */
  lemma RefreshedDone(px: seq<seq<Cell>>, c0: seq<seq<Option<Cell>>>, w: nat, h: nat)
    requires Sized(px, c0, w, h)
    ensures Refreshed(px, c0, h, 0) == CacheOf(px)
  {
    var r, c := Refreshed(px, c0, h, 0), CacheOf(px);
    forall a | 0 <= a < w ensures r[a] == c[a] { }
  }

  /** `resize`: cells inside both sizes are kept, the others are default cells. */
  function ResizeCells(px: seq<seq<Cell>>, w: int, h: int, nw: int, nh: int): (r: seq<seq<Cell>>)
    requires Columns(px, Clamp0(w), Clamp0(h))
    ensures Columns(r, Clamp0(nw), Clamp0(nh))
    ensures forall x, y :: 0 <= x < Clamp0(nw) && 0 <= y < Clamp0(nh) ==>
      r[x][y] == if x < w && y < h then px[x][y] else DefaultCell
  {
    seq(Clamp0(nw), x requires 0 <= x < Clamp0(nw) => seq(Clamp0(nh), y requires 0 <= y < Clamp0(nh) => if x < w && y < h then px[x][y] else DefaultCell))
  }

  class Screen {
    var backend: UnixBackend
    var cursorPos: Pos
    var w: int
    var h: int
    /** `_pixels[x][y]`. */
    var pixels: seq<seq<Cell>>
    /** `_pixelCache[x][y]`: a copy of the cell as last rendered, or None. */
    var cache: seq<seq<Option<Cell>>>

    ghost predicate Valid()
      reads this
    {
      Sized(pixels, cache, Clamp0(w), Clamp0(h))
    }

    /** `Screen(backend)` for a backend of the given size: resized (which
        clears the terminal and renders every cell), then the cursor hidden. */
    constructor (b: UnixBackend, bw: int, bh: int)
      modifies b
      ensures Valid() && backend == b && w == bw && h == bh && cursorPos == (0, 0)
      ensures pixels == ResizeCells([], 0, 0, bw, bh) && cache == CacheOf(pixels)
      ensures b.State() == Unix.SetShowCursor(UpdateState(ClearScreen(old(b.State())), pixels,
                                                     EmptyCache(Clamp0(bw), Clamp0(bh)), Clamp0(bw), Clamp0(bh), (0, 0)), false)
    {
      backend := b;
      cursorPos := (0, 0);
      w, h := 0, 0;
      pixels, cache := [], [];
      new;
      Resize(bw, bh);
      backend.SetShowCursorTo(false);
    }

    /** `resize`: the terminal is cleared, overlapping cells are kept, the
        cache forgets everything and `update` renders every cell. */
    method Resize(nw: int, nh: int)
      requires Valid()
      modifies this, backend
      ensures Valid() && w == nw && h == nh && backend == old(backend) && cursorPos == old(cursorPos)
      ensures pixels == ResizeCells(old(pixels), old(w), old(h), nw, nh)
      ensures cache == CacheOf(pixels)
      ensures backend.State() == UpdateState(ClearScreen(old(backend.State())), pixels,
                                             EmptyCache(Clamp0(nw), Clamp0(nh)), Clamp0(nw), Clamp0(nh), cursorPos)
    {
      backend.ClearScreenNow();
      pixels := ResizeCells(pixels, w, h, nw, nh);
      cache := EmptyCache(Clamp0(nw), Clamp0(nh));
      w, h := nw, nh;
      Update();
    }

    /** `show_cursor = show`, passed on to the backend. */
    method SetShowCursorTo(show: bool)
      modifies backend
      ensures backend.State() == Unix.SetShowCursor(old(backend.State()), show)
    {
      backend.SetShowCursorTo(show);
    }

    /** `at(x, y)`: the cell, or the exception for x first, then y. */
    function At(x: int, y: int): (r: Result<Cell, BufferError>)
      requires Valid()
      reads this
      ensures r.Ok? <==> InRange(w, h, x, y)
      ensures r.Ok? ==> r.value == pixels[x][y]
      ensures r.Err? ==> r == Err(Locate(w, h, x, y, false).error)
    {
      match Locate(w, h, x, y, false)
      case Ok(p) => Ok(pixels[p.0][p.1])
      case Err(e) => Err(e)
    }

    /** `fill(pixel, x, y, w, h)`: the in-bounds cells of the rectangle
        become copies of `c`; the others are skipped. */
    method Fill(c: Cell, x: int, y: int, fw: int, fh: int)
      requires Valid()
      modifies this
      ensures Valid() && w == old(w) && h == old(h) && cache == old(cache) && cursorPos == old(cursorPos) && backend == old(backend)
      ensures |pixels| == |old(pixels)|
      ensures forall a, b :: 0 <= a < Clamp0(w) && 0 <= b < Clamp0(h) ==>
        pixels[a][b] == if InRect((a, b), x, y, fw, fh) then c else old(pixels[a][b])
    {
      var i := x;
      while i < x + fw
        invariant x <= i <= Max(x, x + fw)
        invariant Valid() && w == old(w) && h == old(h) && cache == old(cache) && cursorPos == old(cursorPos) && backend == old(backend)
        invariant forall a, b :: 0 <= a < Clamp0(w) && 0 <= b < Clamp0(h) ==>
          pixels[a][b] == if InRect((a, b), x, y, i - x, fh) then c else old(pixels[a][b])
      {
        var j := y;
        while j < y + fh
          invariant y <= j <= Max(y, y + fh)
          invariant Valid() && w == old(w) && h == old(h) && cache == old(cache) && cursorPos == old(cursorPos) && backend == old(backend)
          invariant forall a, b :: 0 <= a < Clamp0(w) && 0 <= b < Clamp0(h) ==>
            pixels[a][b] == if InRect((a, b), x, y, i - x, fh) || (a == i && y <= b < j) then c else old(pixels[a][b])
        {
          if !(i < 0 || j < 0 || i >= w || j >= h) {
            pixels := pixels[i := pixels[i][j := c]];
          }
          j := j + 1;
        }
        i := i + 1;
      }
    }

    /** `clear_to(pixel)`: every cell becomes a copy of `c`. */
    method ClearTo(c: Cell)
      requires Valid()
      modifies this
      ensures Valid() && w == old(w) && h == old(h) && cache == old(cache) && cursorPos == old(cursorPos) && backend == old(backend)
      ensures forall a, b :: 0 <= a < Clamp0(w) && 0 <= b < Clamp0(h) ==> pixels[a][b] == c
    {
      Fill(c, 0, 0, w, h);
    }

    /** `update`: every cell that differs from its copy is rendered, row by
        row, and its copy refreshed; then the backend's cursor is put at the
        screen's cursor position and the backend flushed. */
    method Update()
      requires Valid()
      modifies this, backend
      ensures Valid() && w == old(w) && h == old(h) && pixels == old(pixels) && cursorPos == old(cursorPos) && backend == old(backend)
      ensures cache == CacheOf(pixels)
      ensures backend.State() == UpdateState(old(backend.State()), pixels, old(cache), Clamp0(w), Clamp0(h), cursorPos)
    {
      ghost var t0, c0 := backend.State(), cache;
      RefreshedStart(pixels, c0);
      var y := 0;
      while y < h
        invariant 0 <= y <= Clamp0(h)
        invariant w == old(w) && h == old(h) && pixels == old(pixels) && cursorPos == old(cursorPos) && backend == old(backend)
        invariant Sized(pixels, c0, Clamp0(w), Clamp0(h)) && cache == Refreshed(pixels, c0, y, 0)
        invariant backend.State() == RenderRows(t0, pixels, c0, Clamp0(w), y)
      {
        UpdateRow(y, c0, RenderRows(t0, pixels, c0, Clamp0(w), y));
        y := y + 1;
      }
      RefreshedDone(pixels, c0, Clamp0(w), Clamp0(h));
      backend.SetCursorPos(cursorPos);
      backend.Flush();
    }

    /** Row `y` of `update`, left to right, from the backend `t0` the rows
        above left. */
    method UpdateRow(y: int, ghost c0: seq<seq<Option<Cell>>>, ghost t0: Term)
      requires 0 <= y < h && Sized(pixels, c0, Clamp0(w), Clamp0(h)) && cache == Refreshed(pixels, c0, y, 0)
      requires backend.State() == t0
      modifies this, backend
      ensures w == old(w) && h == old(h) && pixels == old(pixels) && cursorPos == old(cursorPos) && backend == old(backend)
      ensures cache == Refreshed(pixels, c0, y + 1, 0)
      ensures backend.State() == RenderRow(t0, pixels, c0, y, Clamp0(w))
    {
      var x := 0;
      while x < w
        invariant 0 <= x <= Clamp0(w)
        invariant w == old(w) && h == old(h) && pixels == old(pixels) && cursorPos == old(cursorPos) && backend == old(backend)
        invariant Sized(pixels, c0, Clamp0(w), Clamp0(h)) && cache == Refreshed(pixels, c0, y, x)
        invariant backend.State() == RenderRow(t0, pixels, c0, y, x)
      {
        UpdateCell(x, y, c0, t0);
        x := x + 1;
      }
      RefreshedRowEnd(pixels, c0, y, Clamp0(w));
    }

    /** Cell (x, y) of `update`: rendered if it differs from its copy, and
        its copy refreshed. */
    method UpdateCell(x: int, y: int, ghost c0: seq<seq<Option<Cell>>>, ghost t0: Term)
      requires Sized(pixels, c0, Clamp0(w), Clamp0(h)) && 0 <= x < Clamp0(w) && 0 <= y < Clamp0(h)
      requires cache == Refreshed(pixels, c0, y, x)
      requires backend.State() == RenderRow(t0, pixels, c0, y, x)
      modifies this, backend
      ensures w == old(w) && h == old(h) && pixels == old(pixels) && cursorPos == old(cursorPos) && backend == old(backend)
      ensures cache == Refreshed(pixels, c0, y, x + 1)
      ensures backend.State() == RenderRow(t0, pixels, c0, y, x + 1)
    {
      RefreshedStep(pixels, c0, y, x);
      var pixel := pixels[x][y];
      if cache[x][y] != Some(pixel) {
        Render(pixel, x, y);
      }
      cache := cache[x := cache[x][y := Some(pixel)]];
    }

    /** `render(pixel, x, y)`. */
    method Render(c: Cell, x: int, y: int)
      modifies backend
      ensures backend.State() == RenderCell(old(backend.State()), c, x, y)
    {
      backend.SetCursorPos((x, y));
      backend.SetFgTo(c.fg);
      backend.SetBgTo(c.bg);
      backend.Write([c.ch]);
    }

    /** `print(text, x, y)`: the characters go to x, x + 1, ... of row y
        until the right edge; the first one out of bounds on the left or
        vertically raises, before anything is written. */
    method Print(text: string, x: int, y: int) returns (r: Outcome<BufferError>)
      requires Valid()
      modifies this
      ensures Valid() && w == old(w) && h == old(h) && cache == old(cache) && cursorPos == old(cursorPos) && backend == old(backend)
      ensures r.Fail? <==> |text| > 0 && x < w && !InRange(w, h, x, y)
      ensures r.Fail? ==> pixels == old(pixels) && r.error == Locate(w, h, x, y, false).error
      ensures r.Pass? ==> |pixels| == |old(pixels)| && forall a, b :: 0 <= a < Clamp0(w) && 0 <= b < Clamp0(h) ==>
        pixels[a][b] == if b == y && x <= a < x + |text| then old(pixels[a][b]).(ch := text[a - x]) else old(pixels[a][b])
    {
      var cx := x;
      var k := 0;
      while k < |text|
        invariant 0 <= k <= |text| && cx == x + k
        invariant Valid() && w == old(w) && h == old(h) && cache == old(cache) && cursorPos == old(cursorPos) && backend == old(backend)
        invariant k > 0 ==> InRange(w, h, x, y)
        invariant k == 0 ==> pixels == old(pixels)
        invariant forall a, b :: 0 <= a < Clamp0(w) && 0 <= b < Clamp0(h) ==>
          pixels[a][b] == if b == y && x <= a < x + k then old(pixels[a][b]).(ch := text[a - x]) else old(pixels[a][b])
      {
        if cx >= w {
          return Pass;
        }
        var cell := At(cx, y);
        if cell.Err? {
          return Fail(cell.error);
        }
        pixels := pixels[cx := pixels[cx][y := cell.value.(ch := text[k])]];
        cx := cx + 1;
        k := k + 1;
      }
      r := Pass;
    }
  }
}
