/** termpixels/examples/sand.py: a falling-sand simulation on a flat list of
    particles, `w` wide and `h` tall, cell (x, y) at index `y * w + x`.  One
    step (`P.update`) visits the rows from the bottom up, even rows left to
    right and odd rows right to left; a falling particle sinks into a less
    dense particle below it, and a sliding one then slides diagonally down
    into a less dense neighbour.  The step changes the list only by swapping
    two entries.  `P.draw` shows two rows of particles in one screen cell,
    the upper as the background and the lower as a half block. */
module Sand {

  import opened Wrappers
  import opened Colors
  import opened Geometry
  import opened Pixels
  import opened Grids
  import opened Buffers

  /** `P(color=..., falling=..., density=..., sliding=...)`. */
  datatype Particle = Particle(color: Color, falling: bool, density: int, sliding: bool)

  /** `P(**props["air"])`. */
  const Air: Particle := Particle(Black, false, 1, false)

  /** `P(color=c, **props["sand"])`. */
  function Grain(c: Color): Particle { Particle(c, true, 2, true) }

  /** The outcome of `random() < 0.5` at the visit of (x, y): true moves
      left.  Each cell is visited once per step, so a function of the
      position stands for any sequence of random numbers. */
  type Coin = (int, int) -> bool

  /** The index of cell (x, y). */
  function Idx(w: int, x: int, y: int): int { y * w + x }

  /** The list has a particle for every cell. */
  predicate Fits(n: int, w: int, h: int) { w * h <= n }

  /** Every index the visit of (x, y) reads lies in the list. */
  lemma Indices(w: int, h: int, x: int, y: int)
    requires InRange(w, h, x, y)
    ensures 0 <= Idx(w, x, y) < w * h
    ensures y < h - 1 ==> w <= Idx(w, x, y + 1) < w * h
    ensures y < h - 1 && x < w - 1 ==> Idx(w, x, y + 1) + 1 < w * h
  {
    assert y * w <= (h - 1) * w;
    assert (y + 1) * w == y * w + w;
    if y < h - 1 {
      assert (y + 1) * w <= (h - 1) * w;
    }
  }

  /** The index of (x, y), which lies in the list. */
  function Here(w: int, h: int, x: int, y: int): (i: int)
    requires InRange(w, h, x, y)
    ensures i == Idx(w, x, y) && 0 <= i < w * h
  {
    Indices(w, h, x, y);
    Idx(w, x, y)
  }

  /** The index of (x, y + 1) below a cell above the bottom row; its right
      neighbour lies in the list too when there is one. */
  function Below(w: int, h: int, x: int, y: int): (i: int)
    requires InRange(w, h, x, y) && y < h - 1
    ensures i == Idx(w, x, y + 1) && w <= i < w * h
    ensures x < w - 1 ==> i + 1 < w * h
  {
    Indices(w, h, x, y);
    Idx(w, x, y + 1)
  }

  /** Exchange entries i and j. */
  function Swap(s: seq<Particle>, i: int, j: int): (r: seq<Particle>)
    requires 0 <= i < |s| && 0 <= j < |s|
    ensures |r| == |s|
  {
    s[i := s[j]][j := s[i]]
  }

  /** A swap exchanges the two entries, keeps all others and so keeps the
      particles. */
  lemma SwapExchanges(s: seq<Particle>, i: int, j: int)
    requires 0 <= i < |s| && 0 <= j < |s|
    ensures var r := Swap(s, i, j);
      r[i] == s[j] && r[j] == s[i] && multiset(r) == multiset(s) &&
      forall k :: 0 <= k < |s| && k != i && k != j ==> r[k] == s[k]
  {
  }

  /** A swap keeps the particles. */
  lemma SwapPermutes(s: seq<Particle>, i: int, j: int)
    requires 0 <= i < |s| && 0 <= j < |s|
    ensures multiset(Swap(s, i, j)) == multiset(s)
  {
    SwapExchanges(s, i, j);
  }

  /** The fall of the particle at p = (x, y) into o = (x, y + 1). */
  function Fall(s: seq<Particle>, w: int, h: int, x: int, y: int): (r: seq<Particle>)
    requires InRange(w, h, x, y) && Fits(|s|, w, h)
    ensures |r| == |s|
  {
    if y < h - 1 && s[Here(w, h, x, y)].density > s[Below(w, h, x, y)].density
    then Swap(s, Here(w, h, x, y), Below(w, h, x, y))
    else s
  }

  /** A particle falls only above the bottom row, and only into a strictly
      less dense particle, with which it changes places. */
  lemma FallMoves(s: seq<Particle>, w: int, h: int, x: int, y: int)
    requires InRange(w, h, x, y) && Fits(|s|, w, h)
    ensures var r := Fall(s, w, h, x, y);
      multiset(r) == multiset(s) &&
      (r != s ==>
         y < h - 1 && s[Here(w, h, x, y)].density > s[Below(w, h, x, y)].density &&
         r == Swap(s, Here(w, h, x, y), Below(w, h, x, y))) &&
      (y < h - 1 && s[Here(w, h, x, y)].density > s[Below(w, h, x, y)].density ==>
         r == Swap(s, Here(w, h, x, y), Below(w, h, x, y)))
  {
    if y < h - 1 {
      SwapExchanges(s, Here(w, h, x, y), Below(w, h, x, y));
    }
  }

  /** Whether the neighbour diagonally below on the left (dx = -1) or right
      (dx = 1) is inside the grid and strictly less dense than p. */
  predicate CanSlide(s: seq<Particle>, w: int, h: int, x: int, y: int, dx: int)
    requires InRange(w, h, x, y) && Fits(|s|, w, h) && y < h - 1 && (dx == -1 || dx == 1)
  {
    0 <= x + dx < w && s[Below(w, h, x, y) + dx].density < s[Here(w, h, x, y)].density
  }

  /** The slide of the particle at p = (x, y) diagonally down. */
  function Slide(s: seq<Particle>, w: int, h: int, x: int, y: int, coin: Coin): (r: seq<Particle>)
    requires InRange(w, h, x, y) && Fits(|s|, w, h)
    ensures |r| == |s|
  {
    var p := Here(w, h, x, y);
    if !s[p].sliding || y >= h - 1 then s
    else
      var l, rt := Below(w, h, x, y) - 1, Below(w, h, x, y) + 1;
      var lp, rp := CanSlide(s, w, h, x, y, -1), CanSlide(s, w, h, x, y, 1);
      if lp && rp then (if coin(x, y) then Swap(s, l, p) else Swap(s, rt, p))
      else if lp then Swap(s, l, p)
      else if rp then Swap(s, rt, p)
      else s
  }

  /** A sliding particle above the bottom row does slide into a qualifying
      neighbour: the only one, or the one the coin picks. */
  lemma SlideChoice(s: seq<Particle>, w: int, h: int, x: int, y: int, coin: Coin)
    requires InRange(w, h, x, y) && Fits(|s|, w, h) && y < h - 1 && s[Here(w, h, x, y)].sliding
    ensures CanSlide(s, w, h, x, y, -1) && (!CanSlide(s, w, h, x, y, 1) || coin(x, y)) ==>
      Slide(s, w, h, x, y, coin) == Swap(s, Below(w, h, x, y) - 1, Here(w, h, x, y))
    ensures CanSlide(s, w, h, x, y, 1) && (!CanSlide(s, w, h, x, y, -1) || !coin(x, y)) ==>
      Slide(s, w, h, x, y, coin) == Swap(s, Below(w, h, x, y) + 1, Here(w, h, x, y))
    ensures !CanSlide(s, w, h, x, y, -1) && !CanSlide(s, w, h, x, y, 1) ==> Slide(s, w, h, x, y, coin) == s
  {
  }

  /** Only a sliding particle above the bottom row slides, only into a
      neighbour diagonally below that is strictly less dense, and when both
      neighbours qualify the coin chooses the side. */
  lemma SlideMoves(s: seq<Particle>, w: int, h: int, x: int, y: int, coin: Coin)
    requires InRange(w, h, x, y) && Fits(|s|, w, h)
    ensures var r := Slide(s, w, h, x, y, coin);
      r != s ==>
        y < h - 1 && s[Here(w, h, x, y)].sliding &&
        ((CanSlide(s, w, h, x, y, -1) && (CanSlide(s, w, h, x, y, 1) ==> coin(x, y)) &&
          r == Swap(s, Below(w, h, x, y) - 1, Here(w, h, x, y))) ||
         (CanSlide(s, w, h, x, y, 1) && (CanSlide(s, w, h, x, y, -1) ==> !coin(x, y)) &&
          r == Swap(s, Below(w, h, x, y) + 1, Here(w, h, x, y))))
  {
    if s[Here(w, h, x, y)].sliding && y < h - 1 {
      SlideChoice(s, w, h, x, y, coin);
    }
  }

  /** A slide keeps the particles. */
  lemma SlidePermutes(s: seq<Particle>, w: int, h: int, x: int, y: int, coin: Coin)
    requires InRange(w, h, x, y) && Fits(|s|, w, h)
    ensures multiset(Slide(s, w, h, x, y, coin)) == multiset(s)
  {
    SlideMoves(s, w, h, x, y, coin);
    if s[Here(w, h, x, y)].sliding && y < h - 1 {
      var b := Below(w, h, x, y);
      var l := if CanSlide(s, w, h, x, y, -1) then b - 1 else b;
      var rt := if CanSlide(s, w, h, x, y, 1) then b + 1 else b;
      SwapOrSame(s, Slide(s, w, h, x, y, coin), l, rt, Here(w, h, x, y));
    }
  }

  /** Whatever is one of two swaps with p, or unchanged, keeps the particles. */
  lemma SwapOrSame(s: seq<Particle>, r: seq<Particle>, i: int, j: int, p: int)
    requires 0 <= i < |s| && 0 <= j < |s| && 0 <= p < |s|
    requires r == s || r == Swap(s, i, p) || r == Swap(s, j, p)
    ensures multiset(r) == multiset(s)
  {
    if r == Swap(s, i, p) {
      SwapPermutes(s, i, p);
    } else if r == Swap(s, j, p) {
      SwapPermutes(s, j, p);
    }
  }

  /** The visit of cell (x, y): nothing unless its particle falls; then the
      fall, then the slide of whatever particle is at (x, y) afterwards. */
  function Visit(s: seq<Particle>, w: int, h: int, x: int, y: int, coin: Coin): (r: seq<Particle>)
    requires InRange(w, h, x, y) && Fits(|s|, w, h)
    ensures |r| == |s|
  {
    if !s[Here(w, h, x, y)].falling then s else Slide(Fall(s, w, h, x, y), w, h, x, y, coin)
  }

  /** Index k is (x, y), the cell below it, or a cell diagonally below it
      inside the grid. */
  predicate Near(w: int, x: int, y: int, k: int)
  {
    k == Idx(w, x, y) || k == Idx(w, x, y + 1) ||
    (x > 0 && k == Idx(w, x, y + 1) - 1) || (x < w - 1 && k == Idx(w, x, y + 1) + 1)
  }

  /** A fall changes only (x, y) and the cell below it. */
  lemma FallIsLocal(s: seq<Particle>, w: int, h: int, x: int, y: int)
    requires InRange(w, h, x, y) && Fits(|s|, w, h)
    ensures forall k :: 0 <= k < |s| && !Near(w, x, y, k) ==> Fall(s, w, h, x, y)[k] == s[k]
  {
    if y < h - 1 {
      SwapExchanges(s, Here(w, h, x, y), Below(w, h, x, y));
    }
  }

  /** A slide changes only (x, y) and a cell diagonally below it. */
  lemma SlideIsLocal(s: seq<Particle>, w: int, h: int, x: int, y: int, coin: Coin)
    requires InRange(w, h, x, y) && Fits(|s|, w, h)
    ensures forall k :: 0 <= k < |s| && !Near(w, x, y, k) ==> Slide(s, w, h, x, y, coin)[k] == s[k]
  {
    var p := Here(w, h, x, y);
    if s[p].sliding && y < h - 1 {
      var b := Below(w, h, x, y);
      if CanSlide(s, w, h, x, y, -1) {
        SwapExchanges(s, b - 1, p);
      }
      if CanSlide(s, w, h, x, y, 1) {
        SwapExchanges(s, b + 1, p);
      }
    }
  }

  /** A visit moves nothing in the bottom row or for a particle that does
      not fall, and otherwise touches only (x, y) and the cells below it:
      straight down and, inside the grid, diagonally. */
  lemma VisitIsLocal(s: seq<Particle>, w: int, h: int, x: int, y: int, coin: Coin)
    requires InRange(w, h, x, y) && Fits(|s|, w, h)
    ensures y == h - 1 ==> Visit(s, w, h, x, y, coin) == s
    ensures !s[Here(w, h, x, y)].falling ==> Visit(s, w, h, x, y, coin) == s
    ensures forall k :: 0 <= k < |s| && !Near(w, x, y, k) ==> Visit(s, w, h, x, y, coin)[k] == s[k]
  {
    if s[Here(w, h, x, y)].falling {
      FallIsLocal(s, w, h, x, y);
      SlideIsLocal(Fall(s, w, h, x, y), w, h, x, y, coin);
    }
  }

  /** A visit rearranges the particles but keeps them. */
  lemma VisitPermutes(s: seq<Particle>, w: int, h: int, x: int, y: int, coin: Coin)
    requires InRange(w, h, x, y) && Fits(|s|, w, h)
    ensures multiset(Visit(s, w, h, x, y, coin)) == multiset(s)
  {
    FallMoves(s, w, h, x, y);
    SlidePermutes(Fall(s, w, h, x, y), w, h, x, y, coin);
  }

  /** The index of the i-th cell a row visits: left to right on even rows,
      right to left on odd ones. */
  function RowX(w: int, y: int, i: int): int { if y % 2 == 0 then i else w - 1 - i }

  /** Each row visits each of its cells once, in one direction. */
  lemma RowOrder(w: int, y: int, i: int, j: int)
    requires 0 <= i < w && 0 <= j < w
    ensures 0 <= RowX(w, y, i) < w
    ensures RowX(w, y, i) == RowX(w, y, j) ==> i == j
    ensures i < j && y % 2 == 0 ==> RowX(w, y, i) < RowX(w, y, j)
    ensures i < j && y % 2 == 1 ==> RowX(w, y, i) > RowX(w, y, j)
  {
  }

  /** The first n visits of row y. */
  function RowPass(s: seq<Particle>, w: int, h: int, y: int, n: int, coin: Coin): (r: seq<Particle>)
    requires 0 <= y < h && 0 <= n <= w && Fits(|s|, w, h)
    ensures |r| == |s|
    decreases n
  {
    if n == 0 then s else Visit(RowPass(s, w, h, y, n - 1, coin), w, h, RowX(w, y, n - 1), y, coin)
  }

  /** The first m rows from the bottom: rows h - 1 down to h - m, each in full. */
  function Rows(s: seq<Particle>, w: int, h: int, m: int, coin: Coin): (r: seq<Particle>)
    requires 0 <= m <= h && 0 <= w && Fits(|s|, w, h)
    ensures |r| == |s|
    decreases m
  {
    if m == 0 then s else RowPass(Rows(s, w, h, m - 1, coin), w, h, h - m, w, coin)
  }

  /** `P.update(buf, w, h)`: one step of the simulation. */
  function Update(s: seq<Particle>, w: int, h: int, coin: Coin): (r: seq<Particle>)
    requires w <= 0 || h <= 0 || Fits(|s|, w, h)
    ensures |r| == |s|
  {
    if w <= 0 || h <= 0 then s else Rows(s, w, h, h, coin)
  }

  lemma {:induction false} RowPassPermutes(s: seq<Particle>, w: int, h: int, y: int, n: int, coin: Coin)
    requires 0 <= y < h && 0 <= n <= w && Fits(|s|, w, h)
    ensures multiset(RowPass(s, w, h, y, n, coin)) == multiset(s)
    decreases n
  {
    if n > 0 {
      RowPassPermutes(s, w, h, y, n - 1, coin);
      VisitPermutes(RowPass(s, w, h, y, n - 1, coin), w, h, RowX(w, y, n - 1), y, coin);
    }
  }

  lemma {:induction false} RowsPermute(s: seq<Particle>, w: int, h: int, m: int, coin: Coin)
    requires 0 <= m <= h && 0 <= w && Fits(|s|, w, h)
    ensures multiset(Rows(s, w, h, m, coin)) == multiset(s)
    decreases m
  {
    if m > 0 {
      RowsPermute(s, w, h, m - 1, coin);
      RowPassPermutes(Rows(s, w, h, m - 1, coin), w, h, h - m, w, coin);
    }
  }

  /** A step keeps the particles, only rearranged. */
  lemma UpdatePermutes(s: seq<Particle>, w: int, h: int, coin: Coin)
    requires w <= 0 || h <= 0 || Fits(|s|, w, h)
    ensures multiset(Update(s, w, h, coin)) == multiset(s)
  {
    if w > 0 && h > 0 {
      RowsPermute(s, w, h, h, coin);
    }
  }

  /** Sand above air falls into it, moving the air up. */
  lemma FallExample(c: Color, coin: Coin)
    ensures Update([Grain(c), Air], 1, 2, coin) == [Air, Grain(c)]
  {
    var g := Grain(c);
    assert Update([g, Air], 1, 2, coin) == Visit([g, Air], 1, 2, 0, 0, coin);
    assert Fall([g, Air], 1, 2, 0, 0) == [Air, g];
  }

  /** In the slide example, nothing moves in the bottom row: the air does
      not fall and the sand is already at the bottom. */
  lemma SlideExampleBottom(c: Color, coin: Coin)
    ensures var s := [Grain(c), Air, Grain(c), Air]; Rows(s, 2, 2, 1, coin) == s
  {
    var s := [Grain(c), Air, Grain(c), Air];
    assert RowPass(s, 2, 2, 1, 1, coin) == Visit(s, 2, 2, 1, 1, coin) == s;
    assert Fall(s, 2, 2, 0, 1) == s;
    assert Slide(s, 2, 2, 0, 1, coin) == s;
    assert RowPass(s, 2, 2, 1, 2, coin) == Visit(s, 2, 2, 0, 1, coin);
  }

  /** In the slide example, the top-left grain cannot fall onto the grain
      below it and slides right into the air. */
  lemma SlideExampleTop(c: Color, coin: Coin)
    ensures var s := [Grain(c), Air, Grain(c), Air];
      RowPass(s, 2, 2, 0, 2, coin) == [Air, Air, Grain(c), Grain(c)]
  {
    var g := Grain(c);
    var s := [g, Air, g, Air];
    assert Fall(s, 2, 2, 0, 0) == s;
    assert !CanSlide(s, 2, 2, 0, 0, -1) && CanSlide(s, 2, 2, 0, 0, 1);
    var t := Swap(s, 3, 0);
    assert t == [Air, Air, g, g];
    assert RowPass(s, 2, 2, 0, 1, coin) == Visit(s, 2, 2, 0, 0, coin) == t;
    assert RowPass(s, 2, 2, 0, 2, coin) == Visit(t, 2, 2, 1, 0, coin) == t;
  }

  /** Sand resting on sand slides down into the air diagonally below it. */
  lemma SlideExample(c: Color, coin: Coin)
    ensures Update([Grain(c), Air, Grain(c), Air], 2, 2, coin) == [Air, Air, Grain(c), Grain(c)]
  {
    var s := [Grain(c), Air, Grain(c), Air];
    SlideExampleBottom(c, coin);
    SlideExampleTop(c, coin);
    assert Update(s, 2, 2, coin) == RowPass(Rows(s, 2, 2, 1, coin), 2, 2, 0, 2, coin);
  }

  /** The visit of (x, y) on the list in place. */
  method VisitCell(buf: array<Particle>, w: int, h: int, x: int, y: int, coin: Coin)
    requires InRange(w, h, x, y) && Fits(buf.Length, w, h)
    modifies buf
    ensures buf[..] == Visit(old(buf[..]), w, h, x, y, coin)
  {
    ghost var s0 := buf[..];
    Indices(w, h, x, y);
    var p := y * w + x;
    if buf[p].falling {
      if y < h - 1 {
        var o := (y + 1) * w + x;
        if buf[p].density > buf[o].density {
          buf[p], buf[o] := buf[o], buf[p];
        }
      }
      ghost var s1 := buf[..];
      assert s1 == Fall(s0, w, h, x, y);
      if buf[p].sliding {
        if y < h - 1 {
          var l := (y + 1) * w + x - 1;
          var r := (y + 1) * w + x + 1;
          var lp: Option<Particle> := None;
          var rp: Option<Particle> := None;
          if x > 0 {
            if buf[l].density < buf[p].density {
              lp := Some(buf[l]);
            }
          }
          if x < w - 1 {
            if buf[r].density < buf[p].density {
              rp := Some(buf[r]);
            }
          }
          assert lp.Some? == CanSlide(s1, w, h, x, y, -1);
          assert rp.Some? == CanSlide(s1, w, h, x, y, 1);
          if lp.Some? && rp.Some? {
            if coin(x, y) {
              buf[l], buf[p] := buf[p], buf[l];
            } else {
              buf[r], buf[p] := buf[p], buf[r];
            }
          } else if lp.Some? {
            buf[l], buf[p] := buf[p], buf[l];
          } else if rp.Some? {
            buf[r], buf[p] := buf[p], buf[r];
          }
        }
      }
    }
  }

  /** One pass of the outer loop: the visits of row y, in its direction. */
  method PassRow(buf: array<Particle>, w: int, h: int, y: int, coin: Coin)
    requires 0 <= y < h && 0 <= w && Fits(buf.Length, w, h)
    modifies buf
    ensures buf[..] == RowPass(old(buf[..]), w, h, y, w, coin)
  {
    ghost var before := buf[..];
    if y % 2 == 0 {
      for x := 0 to w
        invariant buf[..] == RowPass(before, w, h, y, x, coin)
      {
        VisitCell(buf, w, h, x, y, coin);
      }
    } else {
      for x := w downto 0
        invariant buf[..] == RowPass(before, w, h, y, w - x, coin)
      {
        VisitCell(buf, w, h, x, y, coin);
      }
    }
  }

  /** `P.update(buf, w, h)` on the list in place: rows from the bottom up,
      even rows left to right, odd rows right to left. */
  method UpdateInPlace(buf: array<Particle>, w: int, h: int, coin: Coin)
    requires w <= 0 || h <= 0 || Fits(buf.Length, w, h)
    modifies buf
    ensures buf[..] == Update(old(buf[..]), w, h, coin)
    ensures multiset(buf[..]) == multiset(old(buf[..]))
  {
    UpdatePermutes(buf[..], w, h, coin);
    if w <= 0 || h <= 0 {
      return;
    }
    ghost var s0 := buf[..];
    for y := h downto 0
      invariant buf[..] == Rows(s0, w, h, h - y, coin)
    {
      assert h - (h - y) == y;
      PassRow(buf, w, h, y, coin);
    }
  }

  // ---------------------------------------------------------------------------
  // P.draw

  const HalfBlock: char := '▄'

  /** The inner loop's body at (x, yy): an even particle row sets the
      background of cell (x, yy / 2), an odd one its foreground and a lower
      half block. */
  function DrawHalf(g: Grid, bw: int, bh: int, buf: seq<Particle>, w: int, h: int, x: int, yy: int): (r: Grid)
    requires Shaped(g, bw, bh) && InRange(w, h, x, yy) && Fits(|buf|, w, h) && w <= bw && h <= 2 * bh
    ensures Shaped(r, bw, bh)
  {
    Indices(w, h, x, yy);
    var cell := (x, yy / 2);
    var col := buf[Idx(w, x, yy)].color;
    if yy % 2 == 0 then g[cell := g[cell].(bg := col)] else g[cell := g[cell].(fg := col, ch := HalfBlock)]
  }

  /** Particle rows 0 .. n - 1 of column x. */
  function DrawColumn(g: Grid, bw: int, bh: int, buf: seq<Particle>, w: int, h: int, x: int, n: int): (r: Grid)
    requires Shaped(g, bw, bh) && 0 <= x < w && 0 <= n <= h && Fits(|buf|, w, h) && w <= bw && h <= 2 * bh
    ensures Shaped(r, bw, bh)
    decreases n
  {
    if n == 0 then g else DrawHalf(DrawColumn(g, bw, bh, buf, w, h, x, n - 1), bw, bh, buf, w, h, x, n - 1)
  }

  /** Columns 0 .. m - 1, each in full. */
  function DrawColumns(g: Grid, bw: int, bh: int, buf: seq<Particle>, w: int, h: int, m: int): (r: Grid)
    requires Shaped(g, bw, bh) && 0 <= m <= w && 0 <= h && Fits(|buf|, w, h) && w <= bw && h <= 2 * bh
    ensures Shaped(r, bw, bh)
    decreases m
  {
    if m == 0 then g else DrawColumn(DrawColumns(g, bw, bh, buf, w, h, m - 1), bw, bh, buf, w, h, m - 1, h)
  }

  /** What a drawn cell shows: the particle of row 2j as background and the
      particle of row 2j + 1 as a half block in the foreground, for each of
      the two that exists; the character and colours are otherwise kept. */
  function Shown(c: Cell, buf: seq<Particle>, w: int, h: int, p: Pos, n: int): (r: Cell)
    requires 0 <= p.0 < w && 0 <= p.1 && n <= h && Fits(|buf|, w, h)
  {
    var c1 := if 2 * p.1 < n then (Indices(w, h, p.0, 2 * p.1); c.(bg := buf[Idx(w, p.0, 2 * p.1)].color)) else c;
    if 2 * p.1 + 1 < n then (Indices(w, h, p.0, 2 * p.1 + 1); c1.(fg := buf[Idx(w, p.0, 2 * p.1 + 1)].color, ch := HalfBlock))
    else c1
  }

  /** After particle rows 0 .. n - 1 of column x, the cells of that column
      show those rows and every other cell is unchanged. */
  lemma {:induction false} DrawColumnCell(g: Grid, bw: int, bh: int, buf: seq<Particle>, w: int, h: int,
                                          x: int, n: int, p: Pos)
    requires Shaped(g, bw, bh) && 0 <= x < w && 0 <= n <= h && Fits(|buf|, w, h) && w <= bw && h <= 2 * bh
    requires p in g
    ensures DrawColumn(g, bw, bh, buf, w, h, x, n)[p] == if p.0 == x then Shown(g[p], buf, w, h, p, n) else g[p]
    decreases n
  {
    if n > 0 {
      DrawColumnCell(g, bw, bh, buf, w, h, x, n - 1, p);
    }
  }

  /** After columns 0 .. m - 1, their cells show the particles and every
      other cell is unchanged. */
  lemma {:induction false} DrawColumnsCell(g: Grid, bw: int, bh: int, buf: seq<Particle>, w: int, h: int,
                                           m: int, p: Pos)
    requires Shaped(g, bw, bh) && 0 <= m <= w && 0 <= h && Fits(|buf|, w, h) && w <= bw && h <= 2 * bh
    requires p in g
    ensures DrawColumns(g, bw, bh, buf, w, h, m)[p] == if p.0 < m then Shown(g[p], buf, w, h, p, h) else g[p]
    decreases m
  {
    if m > 0 {
      var prev := DrawColumns(g, bw, bh, buf, w, h, m - 1);
      DrawColumnsCell(g, bw, bh, buf, w, h, m - 1, p);
      DrawColumnCell(prev, bw, bh, buf, w, h, m - 1, h, p);
    }
  }

  /** `P.draw(screen, buf, w, h)`: cell (x, j) shows particle rows 2j and
      2j + 1 of column x; cells right of column w - 1 are unchanged. */
  lemma DrawCells(g: Grid, bw: int, bh: int, buf: seq<Particle>, w: int, h: int, p: Pos)
    requires Shaped(g, bw, bh) && 0 <= w && 0 <= h && Fits(|buf|, w, h) && w <= bw && h <= 2 * bh
    requires p in g
    ensures var r := DrawColumns(g, bw, bh, buf, w, h, w);
      (p.0 < w ==> r[p] == Shown(g[p], buf, w, h, p, h)) && (p.0 >= w ==> r[p] == g[p])
  {
    DrawColumnsCell(g, bw, bh, buf, w, h, w, p);
  }

  /** A sand grain under air shows as the grain's colour in a half block
      on a black background. */
  lemma DrawExample(g: Grid, c: Color)
    requires Shaped(g, 1, 1)
    ensures DrawColumns(g, 1, 1, [Air, Grain(c)], 1, 2, 1)[(0, 0)] == Cell(HalfBlock, c, Black)
  {
    DrawCells(g, 1, 1, [Air, Grain(c)], 1, 2, (0, 0));
  }

  /** The inner loop over the particle rows of column x. */
  method DrawColumnOf(b: Buffer, buf: seq<Particle>, w: int, h: int, x: int)
    requires b.Valid() && 0 <= x < w && 0 <= h && Fits(|buf|, w, h) && w <= b.w && h <= 2 * b.h
    modifies b, b.Cells()
    ensures b.Valid()
    ensures (b.w, b.h, b.pixels, b.cursorPos, b.printPos) == old((b.w, b.h, b.pixels, b.cursorPos, b.printPos))
    ensures b.grid == DrawColumn(old(b.grid), b.w, b.h, buf, w, h, x, h)
  {
    for yy := 0 to h
      invariant b.Valid()
      invariant b.w == old(b.w) && b.h == old(b.h) && b.pixels == old(b.pixels)
      invariant b.cursorPos == old(b.cursorPos) && b.printPos == old(b.printPos)
      invariant b.grid == DrawColumn(old(b.grid), b.w, b.h, buf, w, h, x, yy)
    {
      Indices(w, h, x, yy);
      if yy % 2 == 0 {
        b.SetBgAt(x, yy / 2, buf[yy * w + x].color);
      } else {
        b.SetFgAt(x, yy / 2, buf[yy * w + x].color);
        var o := b.SetCharAt(x, yy / 2, [HalfBlock]);
      }
    }
  }

  /** `P.draw(screen, buf, w, h)`. */
  method Draw(b: Buffer, buf: seq<Particle>, w: int, h: int)
    requires b.Valid() && (w <= 0 || h <= 0 || (Fits(|buf|, w, h) && w <= b.w && h <= 2 * b.h))
    modifies b, b.Cells()
    ensures b.Valid()
    ensures (b.w, b.h, b.pixels, b.cursorPos, b.printPos) == old((b.w, b.h, b.pixels, b.cursorPos, b.printPos))
    ensures w <= 0 || h <= 0 ==> b.grid == old(b.grid)
    ensures w > 0 && h > 0 ==> b.grid == DrawColumns(old(b.grid), b.w, b.h, buf, w, h, w)
  {
    if w <= 0 || h <= 0 {
      return;
    }
    for x := 0 to w
      invariant b.Valid()
      invariant b.w == old(b.w) && b.h == old(b.h) && b.pixels == old(b.pixels)
      invariant b.cursorPos == old(b.cursorPos) && b.printPos == old(b.printPos)
      invariant b.grid == DrawColumns(old(b.grid), b.w, b.h, buf, w, h, x)
    {
      DrawColumnOf(b, buf, w, h, x);
    }
  }
}
