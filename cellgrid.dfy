/** The cell objects behind a buffer: a column-major grid of `PixelData`
    objects, the position each object sits at, and the values they hold. */
module CellGrids {

  import opened Pixels
  import opened Geometry
  import opened Grids

  /** The cell objects of a column-major grid of cells. */
  ghost function CellSet(ps: seq<seq<PixelData>>): set<PixelData>
  {
    set x, y | 0 <= x < |ps| && 0 <= y < |ps[x]| :: ps[x][y]
  }

  /** Each cell object of `ps` sits at the position `place` gives it (so no
      object appears twice), caches its hash correctly and holds the value
      `g` has at its position. */
  ghost predicate CellsHold(ps: seq<seq<PixelData>>, place: map<PixelData, Pos>, g: Grid)
    reads CellSet(ps)
  {
    forall x, y {:trigger ps[x][y]} :: 0 <= x < |ps| && 0 <= y < |ps[x]| ==> CellHolds(ps[x][y], place, g, (x, y))
  }

  /** One cell object: it sits at `p`, caches its hash correctly and holds
      the value `g` has at `p`. */
  ghost predicate CellHolds(c: PixelData, place: map<PixelData, Pos>, g: Grid, p: Pos)
    reads c
  {
    c in place && place[c] == p && p in g && c.Valid() && c.Value() == g[p]
  }

  /** Appending a column of distinct new cells keeps `CellsHold`. */
  lemma CellsHoldAppend(ps: seq<seq<PixelData>>, place: map<PixelData, Pos>, col: seq<PixelData>, g: Grid)
    requires CellsHold(ps, place, g)
    requires forall p :: p in place ==> place[p].0 < |ps|
    requires forall j :: 0 <= j < |col| ==>
      col[j] !in place && (|ps|, j) in g && col[j].Valid() && col[j].Value() == g[(|ps|, j)]
    requires forall j1, j2 :: 0 <= j1 < j2 < |col| ==> col[j1] != col[j2]
    ensures CellsHold(ps + [col], place + ColumnPlace(col, |ps|), g)
  {
    var ps', place' := ps + [col], place + ColumnPlace(col, |ps|);
    forall x, y | 0 <= x < |ps'| && 0 <= y < |ps'[x]|
      ensures ps'[x][y] in place' && place'[ps'[x][y]] == (x, y)
    {
      if x < |ps| {
        assert ps'[x][y] == ps[x][y] && ps[x][y] in place;
        assert ps[x][y] !in ColumnPlace(col, |ps|);
      } else {
        assert ps'[x][y] == col[y];
      }
    }
  }

  /** Column `x`'s cells and their positions. */
  ghost function ColumnPlace(col: seq<PixelData>, x: int): (m: map<PixelData, Pos>)
    requires forall j1, j2 :: 0 <= j1 < j2 < |col| ==> col[j1] != col[j2]
    ensures forall j :: 0 <= j < |col| ==> col[j] in m && m[col[j]] == (x, j)
    ensures forall p :: p in m ==> m[p].0 == x && exists j :: 0 <= j < |col| && col[j] == p
  {
    map j | 0 <= j < |col| :: col[j] := (x, j)
  }
}
