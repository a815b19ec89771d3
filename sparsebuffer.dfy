/** termpixels/sparsebuffer.py: a `SparseBuffer` keeps only the cells that
    have been accessed since the last `clear`, each a copy of the clear
    pixel when first touched, and counts them.  Its dictionary of columns
    of cells is one map from positions here. */
module SparseBuffers {

  import opened Wrappers
  import opened Colors
  import opened Pixels
  import opened Geometry
  import opened Grids
  import opened Buffers

  class SparseBuffer {
    var w: int
    var h: int
    /** When false, every position with non-negative coordinates is in bounds. */
    var bounded: bool
    /** `_data`: the cells accessed since the last `clear`. */
    var data: map<Pos, PixelData>
    /** `_pixel_count`. */
    var pixelCount: int
    /** `_clear_pixel`: the value every cell starts from. */
    var clearPixel: PixelData
    var cursorPos: Pos
    var printPos: Pos

    /** The counter counts the stored cells; they and the clear pixel cache
        their hashes correctly, and the clear pixel is not one of them. */
    ghost predicate Valid()
      reads this, data.Values, clearPixel
    {
      pixelCount == |data.Keys| && clearPixel.Valid() && clearPixel !in data.Values &&
      forall c :: c in data.Values ==> c.Valid()
    }

    /** What the buffer shows at `p`: the stored cell, or the clear pixel
        where nothing is stored. */
    function CellAt(p: Pos): Cell
      reads this, data.Values, clearPixel
    {
      if p in data then data[p].Value() else clearPixel.Value()
    }

    /** `SparseBuffer(w, h)`: bounded, empty, clear pixel white on black " ". */
    constructor (w: int, h: int)
      ensures Valid() && this.w == w && this.h == h && bounded
      ensures data == map[] && pixelCount == 0 && clearPixel.Value() == DefaultCell
      ensures cursorPos == (0, 0) && printPos == (0, 0)
      ensures fresh(clearPixel)
    {
      this.w, this.h := w, h;
      cursorPos, printPos := (0, 0), (0, 0);
      data := map[];
      pixelCount := 0;
      clearPixel := new PixelData.Default();
      bounded := true;
    }

    /** `resize`: only the size changes; stored cells stay, even outside it. */
    method Resize(nw: int, nh: int)
      modifies this
      ensures w == nw && h == nh
      ensures (bounded, data, pixelCount, clearPixel, cursorPos, printPos) ==
              old((bounded, data, pixelCount, clearPixel, cursorPos, printPos))
    {
      w, h := nw, nh;
    }

    /** `extend_to(w, h)`: each bound becomes the larger of the old and the
        proposed one, so the buffer never shrinks. */
    method ExtendTo(nw: int, nh: int)
      modifies this
      ensures w == Max(nw, old(w)) && h == Max(nh, old(h))
      ensures old(w) <= w && old(h) <= h
      ensures (bounded, data, pixelCount, clearPixel, cursorPos, printPos) ==
              old((bounded, data, pixelCount, clearPixel, cursorPos, printPos))
    {
      w := if nw > w then nw else w;
      h := if nh > h then nh else h;
    }

    /** `in_bounds`: unbounded, only the signs of the coordinates matter. */
    function InBounds(x: int, y: int): (b: bool)
      reads this
      ensures !bounded ==> (b <==> x >= 0 && y >= 0)
      ensures bounded ==> (b <==> InRange(w, h, x, y))
    {
      if !bounded then x >= 0 && y >= 0 else x >= 0 && y >= 0 && x < w && y < h
    }

    /** `at_unsafe`: the stored cell at (x, y); a position not yet stored gets
        a new copy of the clear pixel, and the counter goes up.  What the
        buffer shows does not change. */
    method AtUnsafe(x: int, y: int) returns (p: PixelData)
      requires Valid()
      modifies this
      ensures Valid()
      ensures (x, y) in data && p == data[(x, y)]
      ensures old((x, y) in data) ==> data == old(data) && pixelCount == old(pixelCount)
      ensures old((x, y) !in data) ==>
        fresh(p) && data == old(data)[(x, y) := p] && pixelCount == old(pixelCount) + 1
      ensures p.Valid() && p.Value() == old(CellAt((x, y)))
      ensures forall q :: q in old(data) ==> q in data && data[q] == old(data[q])
      ensures (w, h, bounded, clearPixel, cursorPos, printPos) ==
              old((w, h, bounded, clearPixel, cursorPos, printPos))
    {
      if (x, y) !in data {
        var np := new PixelData.Default();
        var _ := np.Set(clearPixel);
        data := data[(x, y) := np];
        pixelCount := pixelCount + 1;
      }
      p := data[(x, y)];
    }

    /** `at(x, y, clip=clip)`: `Buffer.at` over this buffer's `at_unsafe`,
        with `clip` ignored when unbounded; the bounds checked are still the
        buffer's size. */
    method At(x: int, y: int, clip: bool) returns (r: Result<PixelData, BufferError>)
      requires Valid()
      modifies this
      ensures Valid()
      ensures var l := Locate(w, h, x, y, bounded && clip);
        (r.Ok? <==> l.Ok?) &&
        (r.Err? ==> r.error == l.error && data == old(data) && pixelCount == old(pixelCount)) &&
        (r.Ok? ==> l.value in data && r.value == data[l.value] && r.value.Value() == old(CellAt(l.value)))
      ensures forall q :: q in old(data) ==> q in data && data[q] == old(data[q])
      ensures (w, h, bounded, clearPixel, cursorPos, printPos) ==
              old((w, h, bounded, clearPixel, cursorPos, printPos))
    {
      var l := Locate(w, h, x, y, bounded && clip);
      if l.Err? {
        return Err(l.error);
      }
      var p := AtUnsafe(l.value.0, l.value.1);
      r := Ok(p);
    }

    /** `clear(fg=..., bg=..., char=...)`: records the new clear pixel and
        forgets every stored cell.  A character that is not one character
        long raises before anything changes. */
    method Clear(fg: Color, bg: Color, ch: string) returns (r: Outcome<PixelError>)
      requires Valid()
      modifies this
      ensures Valid()
      ensures r.Fail? <==> |ch| != 1
      ensures r.Fail? ==> data == old(data) && pixelCount == old(pixelCount) && clearPixel == old(clearPixel)
      ensures r.Pass? ==> data == map[] && pixelCount == 0 && fresh(clearPixel)
      ensures r.Pass? ==> forall p :: CellAt(p) == Cell(ch[0], fg, bg)
      ensures (w, h, bounded, cursorPos, printPos) == old((w, h, bounded, cursorPos, printPos))
    {
      var b := PixelData.New(fg, bg, ch);
      if b.Err? {
        return Fail(b.error);
      }
      clearPixel := b.value;
      data := map[];
      pixelCount := 0;
      r := Pass;
    }
  }
}
