/**
 * The Othello grid: a rectangle of cells holding 0 (empty), 1 or 2 (the two sides),
 * positions on it, the eight scan directions and the sets of cells holding a value.
 */
module Board {

  /** A grid is a list of rows; `g[r][c]` is the cell in row `r`, column `c`. */
  type Grid = seq<seq<int>>

  datatype Pos = Pos(r: int, c: int)

  /** `k * u`, written out for the unit factors the engine uses so that it stays linear. */
  function Times(k: int, u: int): int {
    if u == 0 then 0 else if u == 1 then k else if u == -1 then -k else k * u
  }

  /** `p + k * d` */
  function At(p: Pos, d: Pos, k: int): Pos {
    Pos(p.r + Times(k, d.r), p.c + Times(k, d.c))
  }

  /** The eight unit vectors, in the order in which the scan visits them. */
  const Directions: seq<Pos> :=
    [Pos(0, 1), Pos(1, 0), Pos(1, 1), Pos(0, -1), Pos(-1, 0), Pos(-1, -1), Pos(1, -1), Pos(-1, 1)]

  predicate IsUnit(d: Pos) {
    -1 <= d.r <= 1 && -1 <= d.c <= 1 && d != Pos(0, 0)
  }

  lemma DirectionsAreUnits()
    ensures forall d :: d in Directions ==> IsUnit(d)
    ensures forall i :: 0 <= i < |Directions| ==> IsUnit(Directions[i])
    ensures |Directions| == 8
  {
  }

  /** The eight directions one by one. */
  lemma DirectionsListed()
    ensures Directions[0] == Pos(0, 1) && Directions[1] == Pos(1, 0) && Directions[2] == Pos(1, 1)
    ensures Directions[3] == Pos(0, -1) && Directions[4] == Pos(-1, 0) && Directions[5] == Pos(-1, -1)
    ensures Directions[6] == Pos(1, -1) && Directions[7] == Pos(-1, 1)
  {
  }

  /** The grids the engine works on: non-empty, rectangular, every cell 0, 1 or 2. */
  predicate WellFormed(g: Grid) {
    |g| > 0 &&
    (forall i :: 0 <= i < |g| ==> |g[i]| == |g[0]|) &&
    (forall i, j :: 0 <= i < |g| && 0 <= j < |g[i]| ==> 0 <= g[i][j] <= 2)
  }

  /** position_in_grid: the row is checked against the number of rows, the column against the first row. */
  predicate InGrid(g: Grid, p: Pos) {
    0 <= p.r < |g| && 0 <= p.c < |g[0]|
  }

  /** No position is in an empty grid; in a rectangular grid, a position is in it exactly when its row holds its column. */
  lemma InGridRow(g: Grid, p: Pos)
    ensures |g| == 0 ==> !InGrid(g, p)
    ensures WellFormed(g) ==> (InGrid(g, p) <==> 0 <= p.r < |g| && 0 <= p.c < |g[p.r]|)
  {
  }

  function Cell(g: Grid, p: Pos): int
    requires WellFormed(g) && InGrid(g, p)
  {
    g[p.r][p.c]
  }

  /** `g` with the cell at `p` replaced by `v`. */
  function SetCell(g: Grid, p: Pos, v: int): (g': Grid)
    requires WellFormed(g) && InGrid(g, p) && 0 <= v <= 2
    ensures WellFormed(g') && |g'| == |g| && |g'[0]| == |g[0]|
    ensures forall q :: InGrid(g, q) ==> Cell(g', q) == if q == p then v else Cell(g, q)
  {
    g[p.r := g[p.r][p.c := v]]
  }

  /** The positions of the cells of `g` that hold `v`. */
  function Cells(g: Grid, v: int): set<Pos> {
    set r, c | 0 <= r < |g| && 0 <= c < |g[r]| && g[r][c] == v :: Pos(r, c)
  }

  lemma CellsMember(g: Grid, v: int, p: Pos)
    requires WellFormed(g)
    ensures p in Cells(g, v) <==> InGrid(g, p) && Cell(g, p) == v
  {
  }

  /** Two grids of the same shape that agree on every cell are equal. */
  lemma GridExt(a: Grid, b: Grid)
    requires WellFormed(a) && WellFormed(b) && |a| == |b| && |a[0]| == |b[0]|
    requires forall p :: InGrid(a, p) ==> Cell(a, p) == Cell(b, p)
    ensures a == b
  {
    forall i | 0 <= i < |a|
      ensures a[i] == b[i]
    {
      forall j | 0 <= j < |a[i]|
        ensures a[i][j] == b[i][j]
      {
        assert Cell(a, Pos(i, j)) == Cell(b, Pos(i, j));
      }
    }
  }

  /** The opening position of the 6 x 6 game. */
  const DefaultGrid: Grid :=
    [[0, 0, 0, 0, 0, 0],
     [0, 0, 0, 0, 0, 0],
     [0, 0, 1, 2, 0, 0],
     [0, 0, 2, 1, 0, 0],
     [0, 0, 0, 0, 0, 0],
     [0, 0, 0, 0, 0, 0]]

  lemma DefaultGridWellFormed()
    ensures WellFormed(DefaultGrid) && |DefaultGrid| == 6 && |DefaultGrid[0]| == 6
  {
  }
}
