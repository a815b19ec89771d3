/** termpixels/drawing.py: lines, boxes, joined frames and colour bitmaps
    drawn into a `Buffer` in whole cells.  Frame characters are joined to
    their neighbours through a 4-bit geometry: each character "points" left,
    up, right and down or not. */
module Drawing {

  import opened Wrappers
  import opened Colors
  import opened Pixels
  import opened Util
  import opened Geometry
  import opened Grids
  import opened Buffers

  /** Indices into a string of box characters. */
  const BoxT := 0
  const BoxB := 1
  const BoxL := 2
  const BoxR := 3
  const BoxTL := 4
  const BoxTR := 5
  const BoxBL := 6
  const BoxBR := 7

  const BoxCharsAscii: string := "--||++++"
  const BoxCharsLight: string := "──││┌┐└┘"

  /** Indices into a string of frame characters; `FrameNo` is a character
      that is not a frame character. */
  const FrameNo := -1
  const FrameH := 0
  const FrameV := 1
  const FrameTL := 2
  const FrameTR := 3
  const FrameBL := 4
  const FrameBR := 5
  const FrameVR := 6
  const FrameVL := 7
  const FrameHB := 8
  const FrameHT := 9
  const FrameVH := 10
  const FrameL := 11
  const FrameT := 12
  const FrameR := 13
  const FrameB := 14

  const FrameCharsLight: string := "─│┌┐└┘├┤┬┴┼╴╵╶╷"

  /** Where a frame character points: bit 8 left, 4 up, 2 right, 1 down. */
  type Geom = bv4

  const Left: Geom := 0x8
  const Up: Geom := 0x4
  const Right: Geom := 0x2
  const Down: Geom := 0x1

  /** `_FRAME_GEOMETRY`, listed from `FrameNo` up to `FrameB`. */
  const FrameGeometryTable: seq<Geom> :=
    [0x0, 0xa, 0x5, 0x3, 0x9, 0x6, 0xc, 0x7, 0xd, 0xb, 0xe, 0xf, 0x8, 0x4, 0x2, 0x1]

  /** A frame character points at least one way, a non-frame character
      nowhere; the lines join two opposite ways and the stubs point one way. */
  function FrameGeometry(i: int): (r: Geom)
    requires -1 <= i <= 14
    ensures r == 0 <==> i == FrameNo
    ensures i == FrameH ==> r == Left | Right
    ensures i == FrameV ==> r == Up | Down
    ensures i == FrameL ==> r == Left
    ensures i == FrameT ==> r == Up
    ensures i == FrameR ==> r == Right
    ensures i == FrameB ==> r == Down
  {
    FrameGeometryTable[i + 1]
  }

  /** `_GEOMETRY_FRAME`, listed by geometry from 0 up to 15. */
  const GeometryFrameTable: seq<int> :=
    [FrameNo, FrameB, FrameR, FrameTL, FrameT, FrameV, FrameBL, FrameVR,
     FrameL, FrameTR, FrameH, FrameHB, FrameBR, FrameVL, FrameHT, FrameVH]

  /** Every geometry has an entry; only the empty one is no frame character. */
  function GeometryFrame(g: Geom): (r: int)
    ensures -1 <= r <= 14
    ensures r == FrameNo <==> g == 0
  {
    GeometryFrameTable[g as int]
  }

  /** The geometry table is a bijection from -1..14 onto all sixteen
      geometries, and the second table is its inverse, both ways. */
  lemma GeometryTablesInverse()
    ensures forall i :: -1 <= i <= 14 ==> GeometryFrame(FrameGeometry(i)) == i
    ensures forall g: Geom :: -1 <= GeometryFrame(g) <= 14 && FrameGeometry(GeometryFrame(g)) == g
  {
    forall i | -1 <= i <= 14
      ensures GeometryFrame(FrameGeometry(i)) == i
    {
      if i < 3 {} else if i < 7 {} else if i < 11 {} else {}
    }
    forall g: Geom
      ensures -1 <= GeometryFrame(g) <= 14 && FrameGeometry(GeometryFrame(g)) == g
    {
      var n := g as int;
      if n < 4 {} else if n < 8 {} else if n < 12 {} else {}
    }
  }

  /** `_invert_geometry`: the geometry turned by 180 degrees. */
  function Invert(g: Geom): (r: Geom)
    ensures r & Left != 0 <==> g & Right != 0
    ensures r & Right != 0 <==> g & Left != 0
    ensures r & Up != 0 <==> g & Down != 0
    ensures r & Down != 0 <==> g & Up != 0
  {
    (g >> 2) | ((g << 2) & 0xc)
  }

  /** Turning twice gives the geometry back. */
  lemma InvertSwaps(g: Geom)
    ensures Invert(Invert(g)) == g
  {
  }

  /** `chars.index(c)`, with -1 where Python raises `ValueError`. */
  function IndexOf(s: string, c: char): (r: int)
    ensures -1 <= r < |s|
    ensures r >= 0 ==> s[r] == c && forall k :: 0 <= k < r ==> s[k] != c
    ensures r == -1 ==> forall k :: 0 <= k < |s| ==> s[k] != c
    decreases |s|
  {
    if s == [] then -1
    else if s[0] == c then 0
    else
      var r := IndexOf(s[1..], c);
      if r == -1 then -1 else r + 1
  }

  /** `buffer_char`: the frame index of the character at (x, y), or
      `FrameNo` off the buffer or for a character not in `chars`. */
  function BufferChar(g: Grid, w: int, h: int, x: int, y: int, chars: string): (r: int)
    requires Shaped(g, w, h)
    ensures -1 <= r < |chars|
  {
    if !InRange(w, h, x, y) then FrameNo else IndexOf(chars, g[(x, y)].ch)
  }

  /** The cell at (x, y) holds a frame character of `chars` pointing in
      direction `d`. */
  predicate PointsTo(g: Grid, w: int, h: int, x: int, y: int, chars: string, d: Geom)
    requires Shaped(g, w, h) && |chars| <= 15
  {
    InRange(w, h, x, y) && IndexOf(chars, g[(x, y)].ch) >= 0 &&
    FrameGeometry(IndexOf(chars, g[(x, y)].ch)) & d != 0
  }

  /** The geometry `_frame_connecting_char` computes from the frame indices
      of the four neighbours: the character's own, joined with each
      neighbour that points back at it. */
  function JoinGeom(ci: int, l: int, u: int, rt: int, d: int): Geom
    requires 0 <= ci <= 14 && -1 <= l <= 14 && -1 <= u <= 14 && -1 <= rt <= 14 && -1 <= d <= 14
  {
    var geom := FrameGeometry(ci);
    var geom := geom | Invert(FrameGeometry(l) & Right);
    var geom := geom | Invert(FrameGeometry(u) & Down);
    var geom := geom | Invert(FrameGeometry(rt) & Left);
    geom | Invert(FrameGeometry(d) & Up)
  }

  /** The frame index of that geometry; it is never `FrameNo`, because the
      character's own geometry is not empty. */
  function JoinIndex(ci: int, l: int, u: int, rt: int, d: int): (r: int)
    requires 0 <= ci <= 14 && -1 <= l <= 14 && -1 <= u <= 14 && -1 <= rt <= 14 && -1 <= d <= 14
    ensures 0 <= r <= 14 && FrameGeometry(r) == JoinGeom(ci, l, u, rt, d)
  {
    GeometryTablesInverse();
    var geom := JoinGeom(ci, l, u, rt, d);
    assert geom != 0 by {
      assert FrameGeometry(ci) != 0;
      assert geom & FrameGeometry(ci) == FrameGeometry(ci);
    }
    GeometryFrame(geom)
  }

  /** `_frame_connecting_char`: the frame index of the character `ci` at
      (x, y) joined with its neighbours in `g`. */
  function ConnectingIndex(g: Grid, w: int, h: int, ci: int, x: int, y: int, chars: string): (r: int)
    requires Shaped(g, w, h) && |chars| <= 15 && 0 <= ci <= 14
    ensures 0 <= r <= 14
  {
    JoinIndex(ci, BufferChar(g, w, h, x - 1, y, chars), BufferChar(g, w, h, x, y - 1, chars),
              BufferChar(g, w, h, x + 1, y, chars), BufferChar(g, w, h, x, y + 1, chars))
  }

  /** The joined character keeps its own directions and gains a direction
      exactly when the neighbour that way points back; a neighbour off the
      buffer or not in `chars` adds nothing. */
  lemma ConnectingBits(g: Grid, w: int, h: int, ci: int, x: int, y: int, chars: string)
    requires Shaped(g, w, h) && |chars| <= 15 && 0 <= ci <= 14
    ensures var r := FrameGeometry(ConnectingIndex(g, w, h, ci, x, y, chars));
      r & FrameGeometry(ci) == FrameGeometry(ci)
    ensures var r := FrameGeometry(ConnectingIndex(g, w, h, ci, x, y, chars));
      (r & Left != 0 <==> FrameGeometry(ci) & Left != 0 || PointsTo(g, w, h, x - 1, y, chars, Right)) &&
      (r & Up != 0 <==> FrameGeometry(ci) & Up != 0 || PointsTo(g, w, h, x, y - 1, chars, Down)) &&
      (r & Right != 0 <==> FrameGeometry(ci) & Right != 0 || PointsTo(g, w, h, x + 1, y, chars, Left)) &&
      (r & Down != 0 <==> FrameGeometry(ci) & Down != 0 || PointsTo(g, w, h, x, y + 1, chars, Up))
  {
    var l := FrameGeometry(BufferChar(g, w, h, x - 1, y, chars)) & Right;
    var u := FrameGeometry(BufferChar(g, w, h, x, y - 1, chars)) & Down;
    var rt := FrameGeometry(BufferChar(g, w, h, x + 1, y, chars)) & Left;
    var d := FrameGeometry(BufferChar(g, w, h, x, y + 1, chars)) & Up;
    InvertSwaps(l);
    InvertSwaps(u);
    InvertSwaps(rt);
    InvertSwaps(d);
    assert l != 0 <==> PointsTo(g, w, h, x - 1, y, chars, Right);
    assert u != 0 <==> PointsTo(g, w, h, x, y - 1, chars, Down);
    assert rt != 0 <==> PointsTo(g, w, h, x + 1, y, chars, Left);
    assert d != 0 <==> PointsTo(g, w, h, x, y + 1, chars, Up);
  }

  /** A vertical line drawn just right of a horizontal one, with nothing
      above, below or right of it, becomes "┤": up, down and left. */
  lemma JoinExample(g: Grid, w: int, h: int, x: int, y: int)
    requires Shaped(g, w, h) && InRange(w, h, x, y) && InRange(w, h, x - 1, y)
    requires g[(x - 1, y)].ch == '─' && !InRange(w, h, x, y - 1) && !InRange(w, h, x, y + 1)
    requires !InRange(w, h, x + 1, y)
    ensures ConnectingIndex(g, w, h, FrameV, x, y, FrameCharsLight) == FrameVL
    ensures FrameCharsLight[ConnectingIndex(g, w, h, FrameV, x, y, FrameCharsLight)] == '┤'
  {
    assert IndexOf(FrameCharsLight, '─') == 0;
    GeometryTablesInverse();
  }

  /** An entry of `frame_pixels`: a joined character and where it goes. */
  datatype FramePixel = FramePixel(ch: char, x: int, y: int)

  /** `pixel(char_idx, x, y)`: the character at (x, y) joined against `g`. */
  function JoinedPixel(g: Grid, w: int, h: int, ci: int, x: int, y: int, chars: string): (p: FramePixel)
    requires Shaped(g, w, h) && |chars| == 15 && 0 <= ci <= 14
    ensures p.x == x && p.y == y
  {
    FramePixel(chars[ConnectingIndex(g, w, h, ci, x, y, chars)], x, y)
  }

  /** The pixels of `n` cells down from (x, y), all of frame index `ci`. */
  function ColumnPixels(g: Grid, w: int, h: int, ci: int, x: int, y: int, n: int, chars: string): (r: seq<FramePixel>)
    requires Shaped(g, w, h) && |chars| == 15 && 0 <= ci <= 14
    ensures |r| == Max(n, 0)
    ensures forall k :: 0 <= k < |r| ==> r[k].x == x && y <= r[k].y < y + n
    decreases n
  {
    if n <= 0 then [] else ColumnPixels(g, w, h, ci, x, y, n - 1, chars) + [JoinedPixel(g, w, h, ci, x, y + n - 1, chars)]
  }

  /** The pixels of `n` cells right from (x, y), all of frame index `ci`. */
  function RowPixels(g: Grid, w: int, h: int, ci: int, x: int, y: int, n: int, chars: string): (r: seq<FramePixel>)
    requires Shaped(g, w, h) && |chars| == 15 && 0 <= ci <= 14
    ensures |r| == Max(n, 0)
    ensures forall k :: 0 <= k < |r| ==> r[k].y == y && x <= r[k].x < x + n
    decreases n
  {
    if n <= 0 then [] else RowPixels(g, w, h, ci, x, y, n - 1, chars) + [JoinedPixel(g, w, h, ci, x + n - 1, y, chars)]
  }

  /** (px, py) lies on one of the columns or rows `draw_frame` visits: the
      left column, the right one (clamped at 0, as the source clamps it),
      the top row or the bottom one (clamped likewise), within the frame. */
  predicate OnFrame(px: int, py: int, x: int, y: int, fw: int, fh: int)
  {
    ((px == x || px == x + fw - 1 || px == Max(0, x + fw - 1)) && y <= py < y + fh) ||
    ((py == y || py == y + fh - 1 || py == Max(0, y + fh - 1)) && x <= px < x + fw)
  }

  /** One vertical side of a frame: the line, then a down-pointing end at its
      top and an up-pointing end at its bottom. */
  function SidePixels(g: Grid, w: int, h: int, x: int, y: int, fh: int, chars: string): (r: seq<FramePixel>)
    requires Shaped(g, w, h) && |chars| == 15
    ensures |r| == Max(fh, 0) + 2
    ensures fh >= 1 ==> forall k :: 0 <= k < |r| ==> r[k].x == x && y <= r[k].y < y + fh
  {
    ColumnPixels(g, w, h, FrameV, x, y, fh, chars) +
    [JoinedPixel(g, w, h, FrameB, x, y, chars), JoinedPixel(g, w, h, FrameT, x, y + fh - 1, chars)]
  }

  /** One horizontal side of a frame: the line, then a right-pointing end at
      its left and a left-pointing end at its right. */
  function EdgePixels(g: Grid, w: int, h: int, x: int, y: int, fw: int, chars: string): (r: seq<FramePixel>)
    requires Shaped(g, w, h) && |chars| == 15
    ensures |r| == Max(fw, 0) + 2
    ensures fw >= 1 ==> forall k :: 0 <= k < |r| ==> r[k].y == y && x <= r[k].x < x + fw
  {
    RowPixels(g, w, h, FrameH, x, y, fw, chars) +
    [JoinedPixel(g, w, h, FrameR, x, y, chars), JoinedPixel(g, w, h, FrameL, x + fw - 1, y, chars)]
  }

  /** The corners of a frame. */
  function CornerPixels(g: Grid, w: int, h: int, x: int, y: int, fw: int, fh: int, chars: string): (r: seq<FramePixel>)
    requires Shaped(g, w, h) && |chars| == 15
    ensures |r| == 4
    ensures fw >= 1 && fh >= 1 ==> forall k :: 0 <= k < |r| ==> OnFrame(r[k].x, r[k].y, x, y, fw, fh)
  {
    [JoinedPixel(g, w, h, FrameTL, x, y, chars), JoinedPixel(g, w, h, FrameTR, x + fw - 1, y, chars),
     JoinedPixel(g, w, h, FrameBL, x, y + fh - 1, chars), JoinedPixel(g, w, h, FrameBR, x + fw - 1, y + fh - 1, chars)]
  }

  /** `frame_pixels` once the loops of `draw_frame` are done: right and left
      sides, bottom and top sides, then the corners, every character joined
      against the grid `g` the frame is drawn on. */
  /** The two vertical sides, the right one first; none for a frame one row high. */
  function FrameSides(g: Grid, w: int, h: int, x: int, y: int, fw: int, fh: int, chars: string): (r: seq<FramePixel>)
    requires Shaped(g, w, h) && |chars| == 15
    ensures |r| == if fh > 1 then 2 * (fh + 2) else 0
    ensures fw >= 1 ==> forall k :: 0 <= k < |r| ==> OnFrame(r[k].x, r[k].y, x, y, fw, fh)
  {
    if fh > 1 then SidePixels(g, w, h, Max(0, x + fw - 1), y, fh, chars) + SidePixels(g, w, h, x, y, fh, chars) else []
  }

  /** The two horizontal sides, the bottom one first; none for a frame one column wide. */
  function FrameEdges(g: Grid, w: int, h: int, x: int, y: int, fw: int, fh: int, chars: string): (r: seq<FramePixel>)
    requires Shaped(g, w, h) && |chars| == 15
    ensures |r| == if fw > 1 then 2 * (fw + 2) else 0
    ensures fh >= 1 ==> forall k :: 0 <= k < |r| ==> OnFrame(r[k].x, r[k].y, x, y, fw, fh)
  {
    if fw > 1 then EdgePixels(g, w, h, x, Max(0, y + fh - 1), fw, chars) + EdgePixels(g, w, h, x, y, fw, chars) else []
  }

  /** The corners, only when the frame is at least two by two. */
  function FrameCorners(g: Grid, w: int, h: int, x: int, y: int, fw: int, fh: int, chars: string): (r: seq<FramePixel>)
    requires Shaped(g, w, h) && |chars| == 15
    ensures |r| == if fw > 1 && fh > 1 then 4 else 0
    ensures forall k :: 0 <= k < |r| ==> OnFrame(r[k].x, r[k].y, x, y, fw, fh)
  {
    if fw > 1 && fh > 1 then CornerPixels(g, w, h, x, y, fw, fh, chars) else []
  }

  function FramePixels(g: Grid, w: int, h: int, x: int, y: int, fw: int, fh: int, chars: string): (r: seq<FramePixel>)
    requires Shaped(g, w, h) && |chars| == 15
    ensures fw < 1 || fh < 1 ==> r == []
    ensures forall k :: 0 <= k < |r| ==> OnFrame(r[k].x, r[k].y, x, y, fw, fh)
    ensures |r| == (if fw < 1 || fh < 1 then 0
                    else (if fh > 1 then 2 * (fh + 2) else 0) + (if fw > 1 then 2 * (fw + 2) else 0) +
                         (if fw > 1 && fh > 1 then 4 else 0))
  {
    if fw < 1 || fh < 1 then []
    else (FrameSides(g, w, h, x, y, fw, fh, chars) + FrameEdges(g, w, h, x, y, fw, fh, chars) +
          FrameCorners(g, w, h, x, y, fw, fh, chars))
  }

  /** `put_char` of each pixel, in order. */
  function PutAll(g: Grid, w: int, h: int, ps: seq<FramePixel>, fg: Option<Color>, bg: Option<Color>, wm: WidthModel): (r: Grid)
    requires Shaped(g, w, h)
    ensures Shaped(r, w, h)
    decreases |ps|
  {
    if ps == [] then g
    else
      var p := ps[|ps| - 1];
      PutCharGrid(PutAll(g, w, h, ps[..|ps| - 1], fg, bg, wm), w, h, p.ch, p.x, p.y, fg, bg, wm)
  }
  /** A cell that no pixel lands on, and that is not just right of one (where
      a wide character would reach), keeps its value. */
  lemma {:induction false} PutAllOthers(g: Grid, w: int, h: int, ps: seq<FramePixel>,
                                        fg: Option<Color>, bg: Option<Color>, wm: WidthModel, p: Pos)
    requires Shaped(g, w, h) && p in g
    requires forall k :: 0 <= k < |ps| ==> (ps[k].x, ps[k].y) != p && (ps[k].x + 1, ps[k].y) != p
    ensures PutAll(g, w, h, ps, fg, bg, wm)[p] == g[p]
    decreases |ps|
  {
    if ps != [] {
      var init := ps[..|ps| - 1];
      var q := ps[|ps| - 1];
      PutAllOthers(g, w, h, init, fg, bg, wm, p);
      PutCharGridCells(PutAll(g, w, h, init, fg, bg, wm), w, h, q.ch, q.x, q.y, fg, bg, wm);
    }
  }

  /** `draw_frame` changes no cell off the frame's rows and columns, other
      than one just right of them. */
  lemma FrameUntouched(g: Grid, w: int, h: int, x: int, y: int, fw: int, fh: int, chars: string,
                       fg: Option<Color>, bg: Option<Color>, wm: WidthModel, p: Pos)
    requires Shaped(g, w, h) && |chars| == 15 && p in g
    requires !OnFrame(p.0, p.1, x, y, fw, fh) && !OnFrame(p.0 - 1, p.1, x, y, fw, fh)
    ensures PutAll(g, w, h, FramePixels(g, w, h, x, y, fw, fh, chars), fg, bg, wm)[p] == g[p]
  {
    var ps := FramePixels(g, w, h, x, y, fw, fh, chars);
    PutAllOthers(g, w, h, ps, fg, bg, wm, p);
  }


  /** `buffer_char` on the buffer itself. */
  function BufferCharAt(b: Buffer, x: int, y: int, chars: string): (r: int)
    requires b.Valid()
    reads b, b.Cells()
    ensures r == BufferChar(b.grid, b.w, b.h, x, y, chars) && -1 <= r < |chars|
  {
    if !b.InBounds(x, y) then FrameNo
    else
      assert b.pixels[x][y].Value() == b.grid[(x, y)];
      IndexOf(chars, b.pixels[x][y].ch)
  }

  /** `_frame_connecting_char` on the buffer itself. */
  function ConnectingIndexAt(b: Buffer, ci: int, x: int, y: int, chars: string): (r: int)
    requires b.Valid() && |chars| <= 15 && 0 <= ci <= 14
    reads b, b.Cells()
    ensures r == ConnectingIndex(b.grid, b.w, b.h, ci, x, y, chars)
  {
    JoinIndex(ci, BufferCharAt(b, x - 1, y, chars), BufferCharAt(b, x, y - 1, chars),
              BufferCharAt(b, x + 1, y, chars), BufferCharAt(b, x, y + 1, chars))
  }

  /** `pixel(char_idx, x, y)` on the buffer itself. */
  function JoinedPixelAt(b: Buffer, ci: int, x: int, y: int, chars: string): (p: FramePixel)
    requires b.Valid() && |chars| == 15 && 0 <= ci <= 14
    reads b, b.Cells()
    ensures p == JoinedPixel(b.grid, b.w, b.h, ci, x, y, chars)
  {
    FramePixel(chars[ConnectingIndexAt(b, ci, x, y, chars)], x, y)
  }

  /** The loop of `draw_frame` over one column. */
  method ColumnPixelsOf(b: Buffer, ci: int, x: int, y: int, n: int, chars: string) returns (r: seq<FramePixel>)
    requires b.Valid() && |chars| == 15 && 0 <= ci <= 14
    ensures r == ColumnPixels(b.grid, b.w, b.h, ci, x, y, n, chars)
  {
    r := [];
    var py := y;
    while py < y + n
      invariant y <= py <= Max(y, y + n)
      invariant r == ColumnPixels(b.grid, b.w, b.h, ci, x, y, py - y, chars)
    {
      var k := ConnectingIndexAt(b, ci, x, py, chars);
      r := r + [FramePixel(chars[k], x, py)];
      py := py + 1;
    }
  }

  /** The loop of `draw_frame` over one row. */
  method RowPixelsOf(b: Buffer, ci: int, x: int, y: int, n: int, chars: string) returns (r: seq<FramePixel>)
    requires b.Valid() && |chars| == 15 && 0 <= ci <= 14
    ensures r == RowPixels(b.grid, b.w, b.h, ci, x, y, n, chars)
  {
    r := [];
    var px := x;
    while px < x + n
      invariant x <= px <= Max(x, x + n)
      invariant r == RowPixels(b.grid, b.w, b.h, ci, x, y, px - x, chars)
    {
      var k := ConnectingIndexAt(b, ci, px, y, chars);
      r := r + [FramePixel(chars[k], px, y)];
      px := px + 1;
    }
  }

  /** One vertical side, as `draw_frame`'s loop over `py` and the two
      `pixel` calls after it produce it. */
  method SidePixelsOf(b: Buffer, x: int, y: int, fh: int, chars: string) returns (r: seq<FramePixel>)
    requires b.Valid() && |chars| == 15
    ensures r == SidePixels(b.grid, b.w, b.h, x, y, fh, chars)
  {
    r := ColumnPixelsOf(b, FrameV, x, y, fh, chars);
    var e1 := JoinedPixelAt(b, FrameB, x, y, chars);
    var e2 := JoinedPixelAt(b, FrameT, x, y + fh - 1, chars);
    r := r + [e1, e2];
  }

  /** One horizontal side, as `draw_frame`'s loop over `px` and the two
      `pixel` calls after it produce it. */
  method EdgePixelsOf(b: Buffer, x: int, y: int, fw: int, chars: string) returns (r: seq<FramePixel>)
    requires b.Valid() && |chars| == 15
    ensures r == EdgePixels(b.grid, b.w, b.h, x, y, fw, chars)
  {
    r := RowPixelsOf(b, FrameH, x, y, fw, chars);
    var e1 := JoinedPixelAt(b, FrameR, x, y, chars);
    var e2 := JoinedPixelAt(b, FrameL, x + fw - 1, y, chars);
    r := r + [e1, e2];
  }

  /** The four corner `pixel` calls. */
  method CornerPixelsOf(b: Buffer, x: int, y: int, fw: int, fh: int, chars: string) returns (r: seq<FramePixel>)
    requires b.Valid() && |chars| == 15
    ensures r == CornerPixels(b.grid, b.w, b.h, x, y, fw, fh, chars)
  {
    var t1 := JoinedPixelAt(b, FrameTL, x, y, chars);
    var t2 := JoinedPixelAt(b, FrameTR, x + fw - 1, y, chars);
    var t3 := JoinedPixelAt(b, FrameBL, x, y + fh - 1, chars);
    var t4 := JoinedPixelAt(b, FrameBR, x + fw - 1, y + fh - 1, chars);
    r := [t1, t2, t3, t4];
  }

  /** The two passes of `draw_frame`'s loop over the columns. */
  method FrameSidesOf(b: Buffer, x: int, y: int, fw: int, fh: int, chars: string) returns (r: seq<FramePixel>)
    requires b.Valid() && |chars| == 15
    ensures r == FrameSides(b.grid, b.w, b.h, x, y, fw, fh, chars)
  {
    r := [];
    if fh > 1 {
      var s1 := SidePixelsOf(b, Max(0, x + fw - 1), y, fh, chars);
      var s2 := SidePixelsOf(b, x, y, fh, chars);
      r := s1 + s2;
    }
  }

  /** The two passes of `draw_frame`'s loop over the rows. */
  method FrameEdgesOf(b: Buffer, x: int, y: int, fw: int, fh: int, chars: string) returns (r: seq<FramePixel>)
    requires b.Valid() && |chars| == 15
    ensures r == FrameEdges(b.grid, b.w, b.h, x, y, fw, fh, chars)
  {
    r := [];
    if fw > 1 {
      var e1 := EdgePixelsOf(b, x, Max(0, y + fh - 1), fw, chars);
      var e2 := EdgePixelsOf(b, x, y, fw, chars);
      r := e1 + e2;
    }
  }

  /** The corners, when there are any. */
  method FrameCornersOf(b: Buffer, x: int, y: int, fw: int, fh: int, chars: string) returns (r: seq<FramePixel>)
    requires b.Valid() && |chars| == 15
    ensures r == FrameCorners(b.grid, b.w, b.h, x, y, fw, fh, chars)
  {
    r := [];
    if fw > 1 && fh > 1 {
      r := CornerPixelsOf(b, x, y, fw, fh, chars);
    }
  }

  /** The first half of `draw_frame`: `frame_pixels`, read off the buffer
      before anything is written. */
  method FramePixelsOf(b: Buffer, x: int, y: int, fw: int, fh: int, chars: string) returns (fp: seq<FramePixel>)
    requires b.Valid() && |chars| == 15
    ensures fp == FramePixels(b.grid, b.w, b.h, x, y, fw, fh, chars)
  {
    if fw < 1 || fh < 1 {
      return [];
    }
    var sides := FrameSidesOf(b, x, y, fw, fh, chars);
    var edges := FrameEdgesOf(b, x, y, fw, fh, chars);
    var corners := FrameCornersOf(b, x, y, fw, fh, chars);
    fp := sides + edges + corners;
  }

  /** The second half of `draw_frame`: `put_char` of each pixel in turn. */
  method PutPixels(b: Buffer, ps: seq<FramePixel>, fg: Option<Color>, bg: Option<Color>, wm: WidthModel)
    requires b.Valid()
    modifies b, b.Cells()
    ensures b.Valid()
    ensures (b.w, b.h, b.pixels, b.cursorPos, b.printPos) == old((b.w, b.h, b.pixels, b.cursorPos, b.printPos))
    ensures b.grid == PutAll(old(b.grid), b.w, b.h, ps, fg, bg, wm)
  {
    var i := 0;
    while i < |ps|
      invariant 0 <= i <= |ps|
      invariant b.Valid()
      invariant (b.w, b.h, b.pixels, b.cursorPos, b.printPos) == old((b.w, b.h, b.pixels, b.cursorPos, b.printPos))
      invariant b.grid == PutAll(old(b.grid), b.w, b.h, ps[..i], fg, bg, wm)
    {
      assert ps[..i + 1][..i] == ps[..i];
      var _ := b.PutChar(ps[i].ch, ps[i].x, ps[i].y, fg, bg, wm);
      i := i + 1;
    }
    assert ps[..i] == ps;
  }

  /** `draw_frame`: every joined character is computed against the buffer
      as it was before the call, and only then are they all written. */
  method DrawFrame(b: Buffer, x: int, y: int, fw: int, fh: int, chars: string,
                   fg: Option<Color>, bg: Option<Color>, wm: WidthModel)
    requires b.Valid() && |chars| == 15
    modifies b, b.Cells()
    ensures b.Valid()
    ensures (b.w, b.h, b.pixels, b.cursorPos, b.printPos) == old((b.w, b.h, b.pixels, b.cursorPos, b.printPos))
    ensures b.grid == PutAll(old(b.grid), b.w, b.h, FramePixels(old(b.grid), b.w, b.h, x, y, fw, fh, chars), fg, bg, wm)
  {
    var fp := FramePixelsOf(b, x, y, fw, fh, chars);
    PutPixels(b, fp, fg, bg, wm);
  }

  // draw_hline, draw_vline and draw_box: prints with both coordinates given.

  /** One `buffer.print(text, x, y)` of the drawing helpers. */
  datatype PrintCmd = PrintCmd(text: string, x: int, y: int)

  /** One print from (x, y), later lines starting at x again. */
  function PrintAt(g: Grid, w: int, h: int, c: PrintCmd,
                   fg: Option<Color>, bg: Option<Color>, wm: WidthModel): (r: (Grid, Pos))
    requires Shaped(g, w, h)
    ensures Shaped(r.0, w, h)
  {
    PrintRun(g, w, h, SplitLines(c.text), c.x, c.y, c.x, fg, bg, wm)
  }

  /** The prints in order; `pos` is where the print position starts. */
  function PrintAll(g: Grid, w: int, h: int, cmds: seq<PrintCmd>, pos: Pos,
                    fg: Option<Color>, bg: Option<Color>, wm: WidthModel): (r: (Grid, Pos))
    requires Shaped(g, w, h)
    ensures Shaped(r.0, w, h)
    decreases |cmds|
  {
    if cmds == [] then (g, pos)
    else PrintAt(PrintAll(g, w, h, cmds[..|cmds| - 1], pos, fg, bg, wm).0, w, h, cmds[|cmds| - 1], fg, bg, wm)
  }

  /** One more print. */
  lemma PrintAllSnoc(g: Grid, w: int, h: int, cmds: seq<PrintCmd>, c: PrintCmd, pos: Pos,
                     fg: Option<Color>, bg: Option<Color>, wm: WidthModel)
    requires Shaped(g, w, h)
    ensures PrintAll(g, w, h, cmds + [c], pos, fg, bg, wm) ==
      PrintAt(PrintAll(g, w, h, cmds, pos, fg, bg, wm).0, w, h, c, fg, bg, wm)
  {
    assert (cmds + [c])[..|cmds|] == cmds;
  }

  /** Two runs of prints, one after the other. */
  lemma {:induction false} PrintAllAppend(g: Grid, w: int, h: int, a: seq<PrintCmd>, b: seq<PrintCmd>, pos: Pos,
                                          fg: Option<Color>, bg: Option<Color>, wm: WidthModel)
    requires Shaped(g, w, h)
    ensures var ra := PrintAll(g, w, h, a, pos, fg, bg, wm);
      PrintAll(g, w, h, a + b, pos, fg, bg, wm) == PrintAll(ra.0, w, h, b, ra.1, fg, bg, wm)
    decreases |b|
  {
    if b == [] {
      assert a + b == a;
    } else {
      var k := |b| - 1;
      PrintAllAppend(g, w, h, a, b[..k], pos, fg, bg, wm);
      assert (a + b)[..|a + b| - 1] == a + b[..k];
    }
  }

  /** `for py in range(y, y + n): print(s, x, py)`. */
  function ColumnCmds(s: string, x: int, y: int, n: int): (r: seq<PrintCmd>)
    decreases n
  {
    if n <= 0 then [] else ColumnCmds(s, x, y, n - 1) + [PrintCmd(s, x, y + n - 1)]
  }

  /** `for px in range(x, x + n): print(s, px, y)`. */
  function RowCmds(s: string, x: int, y: int, n: int): (r: seq<PrintCmd>)
    decreases n
  {
    if n <= 0 then [] else RowCmds(s, x, y, n - 1) + [PrintCmd(s, x + n - 1, y)]
  }

  /** `draw_hline`: the text at every column of row y. */
  function HLineCmds(w: int, y: int, s: string): seq<PrintCmd> { RowCmds(s, 0, y, w) }

  /** `draw_vline`: the text at every row of column x. */
  function VLineCmds(h: int, x: int, s: string): seq<PrintCmd> { ColumnCmds(s, x, 0, h) }

  /** The vertical sides of `draw_box`: the right one, then the left one. */
  function BoxSideCmds(x: int, y: int, bw: int, bh: int, chars: string): seq<PrintCmd>
    requires |chars| >= 8
  {
    if bh > 1 then ColumnCmds([chars[BoxR]], Max(0, x + bw - 1), y, bh) + ColumnCmds([chars[BoxL]], x, y, bh)
    else []
  }

  /** The horizontal sides of `draw_box`: the bottom one, then the top one. */
  function BoxEdgeCmds(x: int, y: int, bw: int, bh: int, chars: string): seq<PrintCmd>
    requires |chars| >= 8
  {
    if bw > 1 then RowCmds([chars[BoxB]], x, Max(0, y + bh - 1), bw) + RowCmds([chars[BoxT]], x, y, bw)
    else []
  }

  /** The corners of `draw_box`, last of all. */
  function BoxCornerCmds(x: int, y: int, bw: int, bh: int, chars: string): seq<PrintCmd>
    requires |chars| >= 8
  {
    if bw > 1 && bh > 1 then
      [PrintCmd([chars[BoxTL]], x, y), PrintCmd([chars[BoxTR]], x + bw - 1, y),
       PrintCmd([chars[BoxBL]], x, y + bh - 1), PrintCmd([chars[BoxBR]], x + bw - 1, y + bh - 1)]
    else []
  }

  /** Every print of `draw_box`, in order; none for an empty box. */
  function BoxCmds(x: int, y: int, bw: int, bh: int, chars: string): seq<PrintCmd>
    requires |chars| >= 8
  {
    if bw < 1 || bh < 1 then []
    else BoxSideCmds(x, y, bw, bh, chars) + BoxEdgeCmds(x, y, bw, bh, chars) + BoxCornerCmds(x, y, bw, bh, chars)
  }

  /** A box with no side longer than one prints nothing. */
  lemma BoxNothing(x: int, y: int, bw: int, bh: int, chars: string)
    requires |chars| >= 8 && (bw < 1 || bh < 1 || (bw == 1 && bh == 1))
    ensures BoxCmds(x, y, bw, bh, chars) == []
  {
  }

  // Which character ends up in a cell, for prints of one narrow character each.

  /** Every print is one narrow character that is not a line break. */
  predicate Plain(cmds: seq<PrintCmd>, wm: WidthModel)
  {
    forall i :: 0 <= i < |cmds| ==> PlainText(cmds[i].text, wm)
  }

  predicate PlainText(s: string, wm: WidthModel)
  {
    |s| == 1 && !IsBreak(s[0]) && TerminalCharLen(s[0], wm) == 1
  }

  /** The character of the last print at p, if any prints there. */
  function LastAt(cmds: seq<PrintCmd>, p: Pos): Option<char>
    decreases |cmds|
  {
    if cmds == [] then None
    else
      var c := cmds[|cmds| - 1];
      if (c.x, c.y) == p && |c.text| >= 1 then Some(c.text[0]) else LastAt(cmds[..|cmds| - 1], p)
  }

  /** A cell after prints whose last one at p, if any, is `o`: in range, it
      takes the character and the colours given. */
  function Painted(g: Grid, w: int, h: int, p: Pos, o: Option<char>, fg: Option<Color>, bg: Option<Color>): Cell
    requires p in g
  {
    if o.Some? && InRange(w, h, p.0, p.1) then Cell(o.value, Or(fg, g[p].fg), Or(bg, g[p].bg)) else g[p]
  }

  /** A print of one narrow character is a `put_char`. */
  lemma PrintAtPlain(g: Grid, w: int, h: int, c: PrintCmd, fg: Option<Color>, bg: Option<Color>, wm: WidthModel)
    requires Shaped(g, w, h) && PlainText(c.text, wm)
    ensures PrintAt(g, w, h, c, fg, bg, wm).0 == PutCharGrid(g, w, h, c.text[0], c.x, c.y, fg, bg, wm)
  {
    SplitLinePrefix(c.text, "");
    assert c.text + "" == c.text;
    assert SplitLines(c.text) == [c.text];
    assert [c.text][..0] == [];
    assert PrintRun(g, w, h, [c.text], c.x, c.y, c.x, fg, bg, wm).0 == PrintLine(g, w, h, c.text, c.x, c.y, fg, bg, wm).0;
    assert c.text[..0] == [];
  }

  /** Each cell holds the last character printed there, in the colours given. */
  lemma {:induction false} PrintAllCell(g: Grid, w: int, h: int, cmds: seq<PrintCmd>, pos: Pos,
                                        fg: Option<Color>, bg: Option<Color>, wm: WidthModel, p: Pos)
    requires Shaped(g, w, h) && Plain(cmds, wm) && p in g
    ensures PrintAll(g, w, h, cmds, pos, fg, bg, wm).0[p] == Painted(g, w, h, p, LastAt(cmds, p), fg, bg)
    decreases |cmds|
  {
    if cmds != [] {
      var k := |cmds| - 1;
      var c := cmds[k];
      assert Plain(cmds[..k], wm) by {
        forall i | 0 <= i < k
          ensures PlainText(cmds[..k][i].text, wm)
        {
          assert cmds[..k][i] == cmds[i];
        }
      }
      assert PlainText(c.text, wm);
      var prev := PrintAll(g, w, h, cmds[..k], pos, fg, bg, wm).0;
      PrintAllCell(g, w, h, cmds[..k], pos, fg, bg, wm, p);
      PrintAtPlain(prev, w, h, c, fg, bg, wm);
      PutCharGridCells(prev, w, h, c.text[0], c.x, c.y, fg, bg, wm);
    }
  }

  lemma {:induction false} LastAtAppend(a: seq<PrintCmd>, b: seq<PrintCmd>, p: Pos)
    ensures LastAt(a + b, p) == if LastAt(b, p).Some? then LastAt(b, p) else LastAt(a, p)
    decreases |b|
  {
    if b == [] {
      assert a + b == a;
    } else {
      var k := |b| - 1;
      LastAtAppend(a, b[..k], p);
      assert (a + b)[..|a + b| - 1] == a + b[..k];
    }
  }

  /** A column of prints reaches exactly the cells of that column. */
  lemma {:induction false} LastAtColumn(s: string, x: int, y: int, n: int, p: Pos)
    requires |s| >= 1
    ensures LastAt(ColumnCmds(s, x, y, n), p) == if p.0 == x && y <= p.1 < y + n then Some(s[0]) else None
    decreases n
  {
    if n > 0 {
      LastAtColumn(s, x, y, n - 1, p);
      var cs := ColumnCmds(s, x, y, n);
      assert cs[..|cs| - 1] == ColumnCmds(s, x, y, n - 1);
    }
  }

  /** A row of prints reaches exactly the cells of that row. */
  lemma {:induction false} LastAtRow(s: string, x: int, y: int, n: int, p: Pos)
    requires |s| >= 1
    ensures LastAt(RowCmds(s, x, y, n), p) == if p.1 == y && x <= p.0 < x + n then Some(s[0]) else None
    decreases n
  {
    if n > 0 {
      LastAtRow(s, x, y, n - 1, p);
      var cs := RowCmds(s, x, y, n);
      assert cs[..|cs| - 1] == RowCmds(s, x, y, n - 1);
    }
  }

  lemma {:induction false} ColumnPlain(s: string, x: int, y: int, n: int, wm: WidthModel)
    requires PlainText(s, wm)
    ensures Plain(ColumnCmds(s, x, y, n), wm)
    decreases n
  {
    if n > 0 {
      ColumnPlain(s, x, y, n - 1, wm);
    }
  }

  lemma {:induction false} RowPlain(s: string, x: int, y: int, n: int, wm: WidthModel)
    requires PlainText(s, wm)
    ensures Plain(RowCmds(s, x, y, n), wm)
    decreases n
  {
    if n > 0 {
      RowPlain(s, x, y, n - 1, wm);
    }
  }

  lemma PlainAppend(a: seq<PrintCmd>, b: seq<PrintCmd>, wm: WidthModel)
    requires Plain(a, wm) && Plain(b, wm)
    ensures Plain(a + b, wm)
  {
    forall i | 0 <= i < |a + b|
      ensures PlainText((a + b)[i].text, wm)
    {
      if i < |a| { assert (a + b)[i] == a[i]; } else { assert (a + b)[i] == b[i - |a|]; }
    }
  }

  /** `draw_hline` with one narrow character: row y takes it, nothing else changes. */
  lemma HLineCells(g: Grid, w: int, h: int, y: int, s: string, pos: Pos,
                   fg: Option<Color>, bg: Option<Color>, wm: WidthModel, p: Pos)
    requires Shaped(g, w, h) && PlainText(s, wm) && p in g
    ensures var r := PrintAll(g, w, h, HLineCmds(w, y, s), pos, fg, bg, wm).0;
      r[p] == if p.1 == y then Cell(s[0], Or(fg, g[p].fg), Or(bg, g[p].bg)) else g[p]
  {
    RowPlain(s, 0, y, w, wm);
    PrintAllCell(g, w, h, HLineCmds(w, y, s), pos, fg, bg, wm, p);
    LastAtRow(s, 0, y, w, p);
  }

  /** `draw_vline` with one narrow character: column x takes it, nothing else changes. */
  lemma VLineCells(g: Grid, w: int, h: int, x: int, s: string, pos: Pos,
                   fg: Option<Color>, bg: Option<Color>, wm: WidthModel, p: Pos)
    requires Shaped(g, w, h) && PlainText(s, wm) && p in g
    ensures var r := PrintAll(g, w, h, VLineCmds(h, x, s), pos, fg, bg, wm).0;
      r[p] == if p.0 == x then Cell(s[0], Or(fg, g[p].fg), Or(bg, g[p].bg)) else g[p]
  {
    ColumnPlain(s, x, 0, h, wm);
    PrintAllCell(g, w, h, VLineCmds(h, x, s), pos, fg, bg, wm, p);
    LastAtColumn(s, x, 0, h, p);
  }

  /** The box as it looks: the corners, then the top and bottom rows, then
      the left and right columns; a box one cell wide is a column of the
      left character and one cell tall a row of the top character. */
  function BoxChar(x: int, y: int, bw: int, bh: int, chars: string, p: Pos): Option<char>
    requires |chars| >= 8
  {
    if bw < 1 || bh < 1 || (bw == 1 && bh == 1) then None
    else if bw > 1 && bh > 1 && p == (x, y) then Some(chars[BoxTL])
    else if bw > 1 && bh > 1 && p == (x + bw - 1, y) then Some(chars[BoxTR])
    else if bw > 1 && bh > 1 && p == (x, y + bh - 1) then Some(chars[BoxBL])
    else if bw > 1 && bh > 1 && p == (x + bw - 1, y + bh - 1) then Some(chars[BoxBR])
    else if bw > 1 && p.1 == y && x <= p.0 < x + bw then Some(chars[BoxT])
    else if bw > 1 && p.1 == y + bh - 1 && x <= p.0 < x + bw then Some(chars[BoxB])
    else if bh > 1 && p.0 == x && y <= p.1 < y + bh then Some(chars[BoxL])
    else if bh > 1 && p.0 == x + bw - 1 && y <= p.1 < y + bh then Some(chars[BoxR])
    else None
  }

  /** The sides of `draw_box` reach their columns; the left one is printed last. */
  lemma BoxSidesLastAt(x: int, y: int, bw: int, bh: int, chars: string, p: Pos)
    requires |chars| >= 8 && x >= 0 && bw >= 1
    ensures LastAt(BoxSideCmds(x, y, bw, bh, chars), p) ==
      if bh > 1 && p.0 == x && y <= p.1 < y + bh then Some(chars[BoxL])
      else if bh > 1 && p.0 == x + bw - 1 && y <= p.1 < y + bh then Some(chars[BoxR])
      else None
  {
    if bh > 1 {
      var right, left := ColumnCmds([chars[BoxR]], Max(0, x + bw - 1), y, bh), ColumnCmds([chars[BoxL]], x, y, bh);
      LastAtAppend(right, left, p);
      LastAtColumn([chars[BoxR]], Max(0, x + bw - 1), y, bh, p);
      LastAtColumn([chars[BoxL]], x, y, bh, p);
    }
  }

  /** The top and bottom of `draw_box` reach their rows; the top one is printed last. */
  lemma BoxEdgesLastAt(x: int, y: int, bw: int, bh: int, chars: string, p: Pos)
    requires |chars| >= 8 && y >= 0 && bh >= 1
    ensures LastAt(BoxEdgeCmds(x, y, bw, bh, chars), p) ==
      if bw > 1 && p.1 == y && x <= p.0 < x + bw then Some(chars[BoxT])
      else if bw > 1 && p.1 == y + bh - 1 && x <= p.0 < x + bw then Some(chars[BoxB])
      else None
  {
    if bw > 1 {
      var bottom, top := RowCmds([chars[BoxB]], x, Max(0, y + bh - 1), bw), RowCmds([chars[BoxT]], x, y, bw);
      LastAtAppend(bottom, top, p);
      LastAtRow([chars[BoxB]], x, Max(0, y + bh - 1), bw, p);
      LastAtRow([chars[BoxT]], x, y, bw, p);
    }
  }

  /** The corners of `draw_box` reach only the four corner cells. */
  lemma BoxCornersLastAt(x: int, y: int, bw: int, bh: int, chars: string, p: Pos)
    requires |chars| >= 8
    ensures LastAt(BoxCornerCmds(x, y, bw, bh, chars), p) ==
      if !(bw > 1 && bh > 1) then None
      else if p == (x + bw - 1, y + bh - 1) then Some(chars[BoxBR])
      else if p == (x, y + bh - 1) then Some(chars[BoxBL])
      else if p == (x + bw - 1, y) then Some(chars[BoxTR])
      else if p == (x, y) then Some(chars[BoxTL])
      else None
  {
    if bw > 1 && bh > 1 {
      var cs := BoxCornerCmds(x, y, bw, bh, chars);
      assert cs[..3] == [cs[0], cs[1], cs[2]];
      assert cs[..3][..2] == [cs[0], cs[1]];
      assert cs[..3][..2][..1] == [cs[0]];
      assert [cs[0]][..0] == [];
      assert LastAt([cs[0]], p) == if p == (x, y) then Some(chars[BoxTL]) else None;
      assert LastAt([cs[0], cs[1]], p) == if p == (x + bw - 1, y) then Some(chars[BoxTR]) else LastAt([cs[0]], p);
      assert LastAt([cs[0], cs[1], cs[2]], p) ==
        if p == (x, y + bh - 1) then Some(chars[BoxBL]) else LastAt([cs[0], cs[1]], p);
    }
  }

  /** The last print of `draw_box` at each cell is the one the box shows
      there (for a box whose corner is not left of or above the origin). */
  lemma BoxLastAt(x: int, y: int, bw: int, bh: int, chars: string, p: Pos)
    requires |chars| >= 8 && x >= 0 && y >= 0
    ensures LastAt(BoxCmds(x, y, bw, bh, chars), p) == BoxChar(x, y, bw, bh, chars, p)
  {
    if bw >= 1 && bh >= 1 {
      var sides, edges, corners := BoxSideCmds(x, y, bw, bh, chars), BoxEdgeCmds(x, y, bw, bh, chars),
                                   BoxCornerCmds(x, y, bw, bh, chars);
      LastAtAppend(sides + edges, corners, p);
      LastAtAppend(sides, edges, p);
      BoxSidesLastAt(x, y, bw, bh, chars, p);
      BoxEdgesLastAt(x, y, bw, bh, chars, p);
      BoxCornersLastAt(x, y, bw, bh, chars, p);
    }
  }

  /** Every print of `draw_box` is plain when its eight characters are. */
  lemma BoxPlain(x: int, y: int, bw: int, bh: int, chars: string, wm: WidthModel)
    requires |chars| >= 8 && forall i :: 0 <= i < 8 ==> PlainText([chars[i]], wm)
    ensures Plain(BoxCmds(x, y, bw, bh, chars), wm)
  {
    if bw >= 1 && bh >= 1 {
      var sides, edges, corners := BoxSideCmds(x, y, bw, bh, chars), BoxEdgeCmds(x, y, bw, bh, chars),
                                   BoxCornerCmds(x, y, bw, bh, chars);
      if bh > 1 {
        ColumnPlain([chars[BoxR]], Max(0, x + bw - 1), y, bh, wm);
        ColumnPlain([chars[BoxL]], x, y, bh, wm);
        PlainAppend(ColumnCmds([chars[BoxR]], Max(0, x + bw - 1), y, bh), ColumnCmds([chars[BoxL]], x, y, bh), wm);
      }
      if bw > 1 {
        RowPlain([chars[BoxB]], x, Max(0, y + bh - 1), bw, wm);
        RowPlain([chars[BoxT]], x, y, bw, wm);
        PlainAppend(RowCmds([chars[BoxB]], x, Max(0, y + bh - 1), bw), RowCmds([chars[BoxT]], x, y, bw), wm);
      }
      assert Plain(corners, wm) by {
        assert PlainText([chars[BoxTL]], wm) && PlainText([chars[BoxTR]], wm);
        assert PlainText([chars[BoxBL]], wm) && PlainText([chars[BoxBR]], wm);
      }
      PlainAppend(sides, edges, wm);
      PlainAppend(sides + edges, corners, wm);
    }
  }

  /** `draw_box` with eight narrow characters: each cell of the box takes
      the character the box shows there, every other cell is unchanged. */
  lemma BoxCells(g: Grid, w: int, h: int, x: int, y: int, bw: int, bh: int, chars: string, pos: Pos,
                 fg: Option<Color>, bg: Option<Color>, wm: WidthModel, p: Pos)
    requires Shaped(g, w, h) && p in g && x >= 0 && y >= 0
    requires |chars| >= 8 && forall i :: 0 <= i < 8 ==> PlainText([chars[i]], wm)
    ensures PrintAll(g, w, h, BoxCmds(x, y, bw, bh, chars), pos, fg, bg, wm).0[p] ==
      Painted(g, w, h, p, BoxChar(x, y, bw, bh, chars, p), fg, bg)
  {
    BoxPlain(x, y, bw, bh, chars, wm);
    PrintAllCell(g, w, h, BoxCmds(x, y, bw, bh, chars), pos, fg, bg, wm, p);
    BoxLastAt(x, y, bw, bh, chars, p);
  }

  /** The unit test's 3 by 3 box at (1, 1) drawn with "tblrABCD". */
  lemma BoxExample()
    ensures BoxChar(1, 1, 3, 3, "tblrABCD", (1, 1)) == Some('A')
    ensures BoxChar(1, 1, 3, 3, "tblrABCD", (2, 1)) == Some('t')
    ensures BoxChar(1, 1, 3, 3, "tblrABCD", (3, 1)) == Some('B')
    ensures BoxChar(1, 1, 3, 3, "tblrABCD", (1, 2)) == Some('l')
    ensures BoxChar(1, 1, 3, 3, "tblrABCD", (2, 2)) == None
    ensures BoxChar(1, 1, 3, 3, "tblrABCD", (3, 2)) == Some('r')
    ensures BoxChar(1, 1, 3, 3, "tblrABCD", (1, 3)) == Some('C')
    ensures BoxChar(1, 1, 3, 3, "tblrABCD", (2, 3)) == Some('b')
    ensures BoxChar(1, 1, 3, 3, "tblrABCD", (3, 3)) == Some('D')
    ensures BoxChar(1, 1, 1, 3, "tblrABCD", (1, 2)) == Some('l')
    ensures BoxChar(1, 1, 3, 1, "tblrABCD", (2, 1)) == Some('t')
  {
  }

  /** `buffer.print(c.text, c.x, c.y)`. */
  method PrintCmdNow(b: Buffer, c: PrintCmd, fg: Option<Color>, bg: Option<Color>, wm: WidthModel)
    requires b.Valid()
    modifies b, b.Cells()
    ensures b.Valid()
    ensures (b.w, b.h, b.pixels, b.cursorPos) == old((b.w, b.h, b.pixels, b.cursorPos))
    ensures (b.grid, b.printPos) == PrintAt(old(b.grid), b.w, b.h, c, fg, bg, wm)
  {
    var _ := b.Print(c.text, Some(c.x), Some(c.y), None, fg, bg, wm);
  }

  /** One pass of the loop over a column. */
  method PrintColumnStep(b: Buffer, s: string, x: int, y: int, k: int, ghost g0: Grid, ghost p0: Pos,
                      fg: Option<Color>, bg: Option<Color>, wm: WidthModel)
    requires b.Valid() && Shaped(g0, b.w, b.h) && k >= 0
    requires (b.grid, b.printPos) == PrintAll(g0, b.w, b.h, ColumnCmds(s, x, y, k), p0, fg, bg, wm)
    modifies b, b.Cells()
    ensures b.Valid()
    ensures (b.w, b.h, b.pixels, b.cursorPos) == old((b.w, b.h, b.pixels, b.cursorPos))
    ensures (b.grid, b.printPos) == PrintAll(g0, b.w, b.h, ColumnCmds(s, x, y, k + 1), p0, fg, bg, wm)
  {
    PrintAllSnoc(g0, b.w, b.h, ColumnCmds(s, x, y, k), PrintCmd(s, x, y + k), p0, fg, bg, wm);
    PrintCmdNow(b, PrintCmd(s, x, y + k), fg, bg, wm);
  }

  /** The loop over one column of prints. */
  method PrintColumn(b: Buffer, s: string, x: int, y: int, n: int,
                  fg: Option<Color>, bg: Option<Color>, wm: WidthModel)
    requires b.Valid()
    modifies b, b.Cells()
    ensures b.Valid()
    ensures (b.w, b.h, b.pixels, b.cursorPos) == old((b.w, b.h, b.pixels, b.cursorPos))
    ensures (b.grid, b.printPos) == PrintAll(old(b.grid), b.w, b.h, ColumnCmds(s, x, y, n), old(b.printPos), fg, bg, wm)
  {
    if n > 0 {
      for k := 0 to n
        invariant b.Valid()
        invariant b.w == old(b.w) && b.h == old(b.h) && b.pixels == old(b.pixels) && b.cursorPos == old(b.cursorPos)
        invariant (b.grid, b.printPos) == PrintAll(old(b.grid), b.w, b.h, ColumnCmds(s, x, y, k), old(b.printPos), fg, bg, wm)
      {
        PrintColumnStep(b, s, x, y, k, old(b.grid), old(b.printPos), fg, bg, wm);
      }
    }
  }

  /** One pass of the loop over a row. */
  method PrintRowStep(b: Buffer, s: string, x: int, y: int, k: int, ghost g0: Grid, ghost p0: Pos,
                      fg: Option<Color>, bg: Option<Color>, wm: WidthModel)
    requires b.Valid() && Shaped(g0, b.w, b.h) && k >= 0
    requires (b.grid, b.printPos) == PrintAll(g0, b.w, b.h, RowCmds(s, x, y, k), p0, fg, bg, wm)
    modifies b, b.Cells()
    ensures b.Valid()
    ensures (b.w, b.h, b.pixels, b.cursorPos) == old((b.w, b.h, b.pixels, b.cursorPos))
    ensures (b.grid, b.printPos) == PrintAll(g0, b.w, b.h, RowCmds(s, x, y, k + 1), p0, fg, bg, wm)
  {
    PrintAllSnoc(g0, b.w, b.h, RowCmds(s, x, y, k), PrintCmd(s, x + k, y), p0, fg, bg, wm);
    PrintCmdNow(b, PrintCmd(s, x + k, y), fg, bg, wm);
  }

  /** The loop over one row of prints. */
  method PrintRow(b: Buffer, s: string, x: int, y: int, n: int,
                  fg: Option<Color>, bg: Option<Color>, wm: WidthModel)
    requires b.Valid()
    modifies b, b.Cells()
    ensures b.Valid()
    ensures (b.w, b.h, b.pixels, b.cursorPos) == old((b.w, b.h, b.pixels, b.cursorPos))
    ensures (b.grid, b.printPos) == PrintAll(old(b.grid), b.w, b.h, RowCmds(s, x, y, n), old(b.printPos), fg, bg, wm)
  {
    if n > 0 {
      for k := 0 to n
        invariant b.Valid()
        invariant b.w == old(b.w) && b.h == old(b.h) && b.pixels == old(b.pixels) && b.cursorPos == old(b.cursorPos)
        invariant (b.grid, b.printPos) == PrintAll(old(b.grid), b.w, b.h, RowCmds(s, x, y, k), old(b.printPos), fg, bg, wm)
      {
        PrintRowStep(b, s, x, y, k, old(b.grid), old(b.printPos), fg, bg, wm);
      }
    }
  }

  /** `draw_hline`: `s` printed at every column of row y. */
  method DrawHLine(b: Buffer, y: int, s: string, fg: Option<Color>, bg: Option<Color>, wm: WidthModel)
    requires b.Valid()
    modifies b, b.Cells()
    ensures b.Valid()
    ensures (b.w, b.h, b.pixels, b.cursorPos) == old((b.w, b.h, b.pixels, b.cursorPos))
    ensures (b.grid, b.printPos) == PrintAll(old(b.grid), b.w, b.h, HLineCmds(b.w, y, s), old(b.printPos), fg, bg, wm)
  {
    PrintRow(b, s, 0, y, b.w, fg, bg, wm);
  }

  /** `draw_vline`: `s` printed at every row of column x. */
  method DrawVLine(b: Buffer, x: int, s: string, fg: Option<Color>, bg: Option<Color>, wm: WidthModel)
    requires b.Valid()
    modifies b, b.Cells()
    ensures b.Valid()
    ensures (b.w, b.h, b.pixels, b.cursorPos) == old((b.w, b.h, b.pixels, b.cursorPos))
    ensures (b.grid, b.printPos) == PrintAll(old(b.grid), b.w, b.h, VLineCmds(b.h, x, s), old(b.printPos), fg, bg, wm)
  {
    PrintColumn(b, s, x, 0, b.h, fg, bg, wm);
  }

  /** The first loop of `draw_box`: the right side, then the left side. */
  method DrawBoxSides(b: Buffer, x: int, y: int, bw: int, bh: int, chars: string,
                      fg: Option<Color>, bg: Option<Color>, wm: WidthModel)
    requires b.Valid() && |chars| >= 8
    modifies b, b.Cells()
    ensures b.Valid()
    ensures (b.w, b.h, b.pixels, b.cursorPos) == old((b.w, b.h, b.pixels, b.cursorPos))
    ensures (b.grid, b.printPos) == PrintAll(old(b.grid), b.w, b.h, BoxSideCmds(x, y, bw, bh, chars), old(b.printPos), fg, bg, wm)
  {
    if bh > 1 {
      var right, left := ColumnCmds([chars[BoxR]], Max(0, x + bw - 1), y, bh), ColumnCmds([chars[BoxL]], x, y, bh);
      PrintAllAppend(old(b.grid), b.w, b.h, right, left, old(b.printPos), fg, bg, wm);
      PrintColumn(b, [chars[BoxR]], Max(0, x + bw - 1), y, bh, fg, bg, wm);
      PrintColumn(b, [chars[BoxL]], x, y, bh, fg, bg, wm);
    }
  }

  /** The second loop of `draw_box`: the bottom side, then the top side. */
  method DrawBoxEdges(b: Buffer, x: int, y: int, bw: int, bh: int, chars: string,
                      fg: Option<Color>, bg: Option<Color>, wm: WidthModel)
    requires b.Valid() && |chars| >= 8
    modifies b, b.Cells()
    ensures b.Valid()
    ensures (b.w, b.h, b.pixels, b.cursorPos) == old((b.w, b.h, b.pixels, b.cursorPos))
    ensures (b.grid, b.printPos) == PrintAll(old(b.grid), b.w, b.h, BoxEdgeCmds(x, y, bw, bh, chars), old(b.printPos), fg, bg, wm)
  {
    if bw > 1 {
      var bottom, top := RowCmds([chars[BoxB]], x, Max(0, y + bh - 1), bw), RowCmds([chars[BoxT]], x, y, bw);
      PrintAllAppend(old(b.grid), b.w, b.h, bottom, top, old(b.printPos), fg, bg, wm);
      PrintRow(b, [chars[BoxB]], x, Max(0, y + bh - 1), bw, fg, bg, wm);
      PrintRow(b, [chars[BoxT]], x, y, bw, fg, bg, wm);
    }
  }

  /** The four corner prints of `draw_box`. */
  method DrawBoxCorners(b: Buffer, x: int, y: int, bw: int, bh: int, chars: string,
                        fg: Option<Color>, bg: Option<Color>, wm: WidthModel)
    requires b.Valid() && |chars| >= 8
    modifies b, b.Cells()
    ensures b.Valid()
    ensures (b.w, b.h, b.pixels, b.cursorPos) == old((b.w, b.h, b.pixels, b.cursorPos))
    ensures (b.grid, b.printPos) == PrintAll(old(b.grid), b.w, b.h, BoxCornerCmds(x, y, bw, bh, chars), old(b.printPos), fg, bg, wm)
  {
    if bw > 1 && bh > 1 {
      var cs := BoxCornerCmds(x, y, bw, bh, chars);
      for i := 0 to 4
        invariant b.Valid()
        invariant (b.w, b.h, b.pixels, b.cursorPos) == old((b.w, b.h, b.pixels, b.cursorPos))
        invariant (b.grid, b.printPos) == PrintAll(old(b.grid), b.w, b.h, cs[..i], old(b.printPos), fg, bg, wm)
      {
        PrintAllSnoc(old(b.grid), b.w, b.h, cs[..i], cs[i], old(b.printPos), fg, bg, wm);
        assert cs[..i] + [cs[i]] == cs[..i + 1];
        PrintCmdNow(b, cs[i], fg, bg, wm);
      }
      assert cs[..4] == cs;
    }
  }

  /** `draw_box`: nothing for an empty box; otherwise the sides, the top
      and bottom, and the corners, in that order. */
  method DrawBox(b: Buffer, x: int, y: int, bw: int, bh: int, chars: string,
                 fg: Option<Color>, bg: Option<Color>, wm: WidthModel)
    requires b.Valid() && |chars| >= 8
    modifies b, b.Cells()
    ensures b.Valid()
    ensures (b.w, b.h, b.pixels, b.cursorPos) == old((b.w, b.h, b.pixels, b.cursorPos))
    ensures (b.grid, b.printPos) == PrintAll(old(b.grid), b.w, b.h, BoxCmds(x, y, bw, bh, chars), old(b.printPos), fg, bg, wm)
  {
    if bw < 1 || bh < 1 {
      return;
    }
    var sides, edges, corners := BoxSideCmds(x, y, bw, bh, chars), BoxEdgeCmds(x, y, bw, bh, chars),
                                 BoxCornerCmds(x, y, bw, bh, chars);
    PrintAllAppend(old(b.grid), b.w, b.h, sides + edges, corners, old(b.printPos), fg, bg, wm);
    PrintAllAppend(old(b.grid), b.w, b.h, sides, edges, old(b.printPos), fg, bg, wm);
    DrawBoxSides(b, x, y, bw, bh, chars, fg, bg, wm);
    DrawBoxEdges(b, x, y, bw, bh, chars, fg, bg, wm);
    DrawBoxCorners(b, x, y, bw, bh, chars, fg, bg, wm);
  }

  // draw_colormap: a list of colours, row after row, painted cell by cell.

  /** `idx = dy * w + dx`. */
  function MapIndex(cw: int, dx: int, dy: int): int { dy * cw + dx }

  /** Every cell of a `cw` by `ch` map has its colour in a list of `cw * ch`. */
  lemma MapIndexInRange(cw: int, ch: int, dx: int, dy: int)
    requires 0 <= dx < cw && 0 <= dy < ch
    ensures 0 <= MapIndex(cw, dx, dy) < cw * ch
  {
    assert dy * cw <= (ch - 1) * cw by {
      assert (ch - 1) * cw - dy * cw == (ch - 1 - dy) * cw;
    }
    assert (ch - 1) * cw == ch * cw - cw;
  }

  /** The list holds a colour or `None` for every cell of the map. */
  predicate MapFits(cm: seq<Option<Color>>, cw: int, ch: int) { cw <= 0 || ch <= 0 || cw * ch <= |cm| }

  /** Entry (dx, dy) of the map drawn at (x, y) paints a cell: it is not
      `None`, and its cell (x + dx, y + dy) is in the buffer. */
  predicate MapTarget(w: int, h: int, cm: seq<Option<Color>>, x: int, y: int, cw: int, ch: int, dx: int, dy: int)
  {
    0 <= dx < cw && 0 <= dy < ch && 0 <= MapIndex(cw, dx, dy) < |cm| &&
    cm[MapIndex(cw, dx, dy)].Some? && InRange(w, h, x + dx, y + dy)
  }

  /** The inner loop's body at (dx, dy): a painted target takes the
      character and its colour as foreground. */
  function PaintStep(g: Grid, w: int, h: int, cm: seq<Option<Color>>, x: int, y: int, cw: int,
                     dx: int, dy: int, c: char): (r: Grid)
    requires Shaped(g, w, h) && 0 <= MapIndex(cw, dx, dy) < |cm|
    ensures Shaped(r, w, h)
  {
    var col := cm[MapIndex(cw, dx, dy)];
    if col.None? || !InRange(w, h, x + dx, y + dy) then g
    else g[(x + dx, y + dy) := g[(x + dx, y + dy)].(ch := c, fg := col.value)]
  }

  /** The inner loop: rows 0 .. n - 1 of column dx. */
  function PaintColumn(g: Grid, w: int, h: int, cm: seq<Option<Color>>, x: int, y: int, cw: int, ch: int,
                       dx: int, n: int, c: char): (r: Grid)
    requires Shaped(g, w, h) && MapFits(cm, cw, ch) && 0 <= dx < cw && n <= Max(ch, 0)
    ensures Shaped(r, w, h)
    decreases n
  {
    if n <= 0 then g
    else
      MapIndexInRange(cw, ch, dx, n - 1);
      PaintStep(PaintColumn(g, w, h, cm, x, y, cw, ch, dx, n - 1, c), w, h, cm, x, y, cw, dx, n - 1, c)
  }

  /** The outer loop: columns 0 .. n - 1, each in full. */
  function PaintColumns(g: Grid, w: int, h: int, cm: seq<Option<Color>>, x: int, y: int, cw: int, ch: int,
                        n: int, c: char): (r: Grid)
    requires Shaped(g, w, h) && MapFits(cm, cw, ch) && n <= Max(cw, 0)
    ensures Shaped(r, w, h)
    decreases n
  {
    if n <= 0 then g
    else PaintColumn(PaintColumns(g, w, h, cm, x, y, cw, ch, n - 1, c), w, h, cm, x, y, cw, ch, n - 1, Max(ch, 0), c)
  }

  /** After rows 0 .. n - 1 of column dx, each target among them is painted
      and every other cell unchanged. */
  lemma {:induction false} PaintColumnCell(g: Grid, w: int, h: int, cm: seq<Option<Color>>, x: int, y: int,
                                           cw: int, ch: int, dx: int, n: int, c: char, p: Pos)
    requires Shaped(g, w, h) && MapFits(cm, cw, ch) && 0 <= dx < cw && n <= Max(ch, 0) && p in g
    ensures PaintColumn(g, w, h, cm, x, y, cw, ch, dx, n, c)[p] ==
      if p.0 == x + dx && p.1 - y < n && MapTarget(w, h, cm, x, y, cw, ch, p.0 - x, p.1 - y)
      then g[p].(ch := c, fg := cm[MapIndex(cw, dx, p.1 - y)].value)
      else g[p]
    decreases n
  {
    if n > 0 {
      PaintColumnCell(g, w, h, cm, x, y, cw, ch, dx, n - 1, c, p);
      MapIndexInRange(cw, ch, dx, n - 1);
    }
  }

  /** After columns 0 .. n - 1, each target among them is painted and every
      other cell unchanged. */
  lemma {:induction false} PaintColumnsCell(g: Grid, w: int, h: int, cm: seq<Option<Color>>, x: int, y: int,
                                            cw: int, ch: int, n: int, c: char, p: Pos)
    requires Shaped(g, w, h) && MapFits(cm, cw, ch) && n <= Max(cw, 0) && p in g
    ensures PaintColumns(g, w, h, cm, x, y, cw, ch, n, c)[p] ==
      if p.0 - x < n && MapTarget(w, h, cm, x, y, cw, ch, p.0 - x, p.1 - y)
      then g[p].(ch := c, fg := cm[MapIndex(cw, p.0 - x, p.1 - y)].value)
      else g[p]
    decreases n
  {
    if n > 0 {
      var prev := PaintColumns(g, w, h, cm, x, y, cw, ch, n - 1, c);
      PaintColumnsCell(g, w, h, cm, x, y, cw, ch, n - 1, c, p);
      PaintColumnCell(prev, w, h, cm, x, y, cw, ch, n - 1, Max(ch, 0), c, p);
    }
  }

  /** `draw_colormap` with a one-character string: every target cell takes
      the character and its entry as foreground, its background kept; every
      other cell is unchanged. */
  lemma ColormapCells(g: Grid, w: int, h: int, cm: seq<Option<Color>>, x: int, y: int,
                      cw: int, ch: int, c: char, p: Pos)
    requires Shaped(g, w, h) && MapFits(cm, cw, ch) && p in g
    ensures var r := PaintColumns(g, w, h, cm, x, y, cw, ch, cw, c);
      (MapTarget(w, h, cm, x, y, cw, ch, p.0 - x, p.1 - y) ==>
         r[p] == Cell(c, cm[MapIndex(cw, p.0 - x, p.1 - y)].value, g[p].bg)) &&
      (!MapTarget(w, h, cm, x, y, cw, ch, p.0 - x, p.1 - y) ==> r[p] == g[p])
  {
    PaintColumnsCell(g, w, h, cm, x, y, cw, ch, cw, c, p);
  }

  /** Whether any cell is painted: `draw_colormap` with a character that is
      not one long raises at the first one. */
  ghost predicate AnyTarget(w: int, h: int, cm: seq<Option<Color>>, x: int, y: int, cw: int, ch: int)
  {
    exists dx, dy :: MapTarget(w, h, cm, x, y, cw, ch, dx, dy)
  }

  /** The inner loop of `draw_colormap` over column dx.  Fails, leaving the
      grid as it was, at the first target when `s` is not one character. */
  method PaintColumnOf(b: Buffer, cm: seq<Option<Color>>, x: int, y: int, cw: int, ch: int, dx: int, s: string)
    returns (r: Outcome<BufferError>)
    requires b.Valid() && MapFits(cm, cw, ch) && 0 <= dx < cw
    modifies b, b.Cells()
    ensures b.Valid()
    ensures (b.w, b.h, b.pixels, b.cursorPos, b.printPos) == old((b.w, b.h, b.pixels, b.cursorPos, b.printPos))
    ensures |s| == 1 ==> r.Pass? && b.grid == PaintColumn(old(b.grid), b.w, b.h, cm, x, y, cw, ch, dx, Max(ch, 0), s[0])
    ensures |s| != 1 && r.Pass? ==>
      b.grid == old(b.grid) && forall dy :: !MapTarget(b.w, b.h, cm, x, y, cw, ch, dx, dy)
    ensures r.Fail? ==>
      |s| != 1 && r.error == CharLength && b.grid == old(b.grid) && exists dy :: MapTarget(b.w, b.h, cm, x, y, cw, ch, dx, dy)
  {
    if ch <= 0 {
      return Pass;
    }
    for dy := 0 to ch
      invariant b.Valid()
      invariant (b.w, b.h, b.pixels, b.cursorPos, b.printPos) == old((b.w, b.h, b.pixels, b.cursorPos, b.printPos))
      invariant |s| == 1 ==> b.grid == PaintColumn(old(b.grid), b.w, b.h, cm, x, y, cw, ch, dx, dy, s[0])
      invariant |s| != 1 ==>
        b.grid == old(b.grid) && forall dy' :: dy' < dy ==> !MapTarget(b.w, b.h, cm, x, y, cw, ch, dx, dy')
    {
      MapIndexInRange(cw, ch, dx, dy);
      var idx := dy * cw + dx;
      if cm[idx].Some? && b.InBounds(x + dx, y + dy) {
        assert MapTarget(b.w, b.h, cm, x, y, cw, ch, dx, dy);
        var o := b.SetCharAt(x + dx, y + dy, s);
        if o.Fail? {
          return Fail(CharLength);
        }
        b.SetFgAt(x + dx, y + dy, cm[idx].value);
      }
    }
    r := Pass;
  }

  /** `draw_colormap(buffer, colormap, x, y, w=cw, h=ch, char=s)`: column
      after column, row after row within each, every target cell takes `s`
      and its colour as foreground.  A string that is not one character
      raises at the first target, before anything is changed. */
  method DrawColormap(b: Buffer, cm: seq<Option<Color>>, x: int, y: int, cw: int, ch: int, s: string)
    returns (r: Outcome<BufferError>)
    requires b.Valid() && MapFits(cm, cw, ch)
    modifies b, b.Cells()
    ensures b.Valid()
    ensures (b.w, b.h, b.pixels, b.cursorPos, b.printPos) == old((b.w, b.h, b.pixels, b.cursorPos, b.printPos))
    ensures r.Fail? <==> |s| != 1 && AnyTarget(b.w, b.h, cm, x, y, cw, ch)
    ensures r.Fail? ==> r.error == CharLength
    ensures |s| == 1 ==> b.grid == PaintColumns(old(b.grid), b.w, b.h, cm, x, y, cw, ch, cw, s[0])
    ensures |s| != 1 ==> b.grid == old(b.grid)
  {
    if cw <= 0 {
      return Pass;
    }
    for dx := 0 to cw
      invariant b.Valid()
      invariant (b.w, b.h, b.pixels, b.cursorPos, b.printPos) == old((b.w, b.h, b.pixels, b.cursorPos, b.printPos))
      invariant |s| == 1 ==> b.grid == PaintColumns(old(b.grid), b.w, b.h, cm, x, y, cw, ch, dx, s[0])
      invariant |s| != 1 ==>
        b.grid == old(b.grid) && forall dx', dy' :: dx' < dx ==> !MapTarget(b.w, b.h, cm, x, y, cw, ch, dx', dy')
    {
      var o := PaintColumnOf(b, cm, x, y, cw, ch, dx, s);
      if o.Fail? {
        return o;
      }
    }
    r := Pass;
  }
}
