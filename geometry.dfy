/** Coordinates shared by the buffers and the screen (termpixels/buffer.py
    and termpixels/screen.py): positions, bounds, and where `at` reads. */
module Geometry {

  import opened Wrappers

  type Pos = (int, int)

  /** `in_bounds`. */
  predicate InRange(w: int, h: int, x: int, y: int) { 0 <= x < w && 0 <= y < h }

  /** In the rectangle of `range(x, x + w)` times `range(y, y + h)`. */
  predicate InRect(p: Pos, x: int, y: int, w: int, h: int) { x <= p.0 < x + w && y <= p.1 < y + h }

  function Max(a: int, b: int): int { if a < b then b else a }
  function Min(a: int, b: int): int { if a < b then a else b }

  /** The coordinate `at(..., clip=True)` uses: the nearest in `[0, n)`
      (`max(0, min(n - 1, v))`), which is 0 when the buffer is empty along
      that axis. */
  function Clip(v: int, n: int): (c: int)
    ensures n > 0 ==> 0 <= c < n
    ensures 0 <= v < n ==> c == v
    ensures v < 0 ==> c == 0
    ensures n > 0 && v >= n ==> c == n - 1
    ensures n <= 0 ==> c == 0
  {
    Max(0, Min(n - 1, v))
  }

  /** The exceptions `at` and the cell setters raise. */
  datatype BufferError = XOutOfBounds(x: int) | YOutOfBounds(y: int) | CharLength

  /** `range(n)` has `max(n, 0)` elements. */
  function Clamp0(n: int): nat { if n < 0 then 0 else n }

  /** The position `at(x, y, clip=clip)` reads, or the exception it raises.
      With `clip` the position is first moved to the nearest in bounds; an
      empty buffer still raises, for x first. */
  function Locate(w: int, h: int, x: int, y: int, clip: bool): (r: Result<Pos, BufferError>)
    ensures r.Ok? ==> InRange(w, h, r.value.0, r.value.1)
    ensures !clip ==> (r.Ok? <==> InRange(w, h, x, y))
    ensures !clip && r.Ok? ==> r.value == (x, y)
    ensures !clip && !(0 <= x < w) ==> r == Err(XOutOfBounds(x))
    ensures !clip && 0 <= x < w && !(0 <= y < h) ==> r == Err(YOutOfBounds(y))
    ensures clip ==> (r.Ok? <==> w > 0 && h > 0)
    ensures clip && r.Ok? ==> r.value == (Clip(x, w), Clip(y, h))
    ensures clip && w <= 0 ==> r == Err(XOutOfBounds(0))
    ensures clip && w > 0 && h <= 0 ==> r == Err(YOutOfBounds(0))
  {
    var cx := if clip then Clip(x, w) else x;
    var cy := if clip then Clip(y, h) else y;
    if cx >= w || cx < 0 then Err(XOutOfBounds(cx))
    else if cy >= h || cy < 0 then Err(YOutOfBounds(cy))
    else Ok((cx, cy))
  }
}
