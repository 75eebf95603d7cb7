/**
 * What apply_move does to the grid: a capture sets its target and every cell strictly
 * between the target and each origin to the mover's side, and leaves every other cell
 * alone. For captures produced by get_side_moves this fills one empty cell and turns a
 * set of opposing disks over, so the disk counts change by exact amounts.
 */
module Capture {
  import opened Board
  import opened Scan
  import opened Moves

  function Sign(x: int): int {
    if x > 0 then 1 else if x < 0 then -1 else 0
  }

  function Abs(x: int): nat {
    if x < 0 then -x else x
  }

  /** apply_move's direction: `origin - target`, each component clamped to -1, 0 or 1. */
  function Dir(t: Pos, o: Pos): Pos {
    Pos(Sign(o.r - t.r), Sign(o.c - t.c))
  }

  /** The number of king steps from `t` to `o`. */
  function Dist(t: Pos, o: Pos): nat {
    if Abs(o.r - t.r) >= Abs(o.c - t.c) then Abs(o.r - t.r) else Abs(o.c - t.c)
  }

  /** `o` is on the row, the column or a diagonal of `t` (or is `t`). */
  predicate Aligned(t: Pos, o: Pos) {
    o.r == t.r || o.c == t.c || Abs(o.r - t.r) == Abs(o.c - t.c)
  }

  /** `q` is strictly between `t` and `o`: the walk from `t` towards `o` sets it. */
  predicate Between(t: Pos, o: Pos, q: Pos) {
    0 < Dist(t, q) < Dist(t, o) && q == At(t, Dir(t, o), Dist(t, q))
  }

  /** `q` is set by the capture `Capture(t, os)`. */
  predicate Marked(t: Pos, os: seq<Pos>, q: Pos) {
    q == t || exists i :: 0 <= i < |os| && Between(t, os[i], q)
  }

  /**
   * What apply_move relies on: the target and every origin are in the grid, and every
   * origin is on a line through the target (otherwise its walk misses the origin and runs
   * off the grid).
   */
  predicate Applicable(g: Grid, m: Action)
    requires WellFormed(g)
  {
    m.Capture? ==> InGrid(g, m.target) && forall o :: o in m.origins ==> InGrid(g, o) && Aligned(m.target, o)
  }

  /** The grid after `side` plays `m`: a pass changes nothing, a capture sets its marked cells. */
  function Applied(g: Grid, m: Action, side: int): (g': Grid)
    requires WellFormed(g) && 1 <= side <= 2
    ensures WellFormed(g') && |g'| == |g| && |g'[0]| == |g[0]|
    ensures forall q :: InGrid(g, q) ==>
      Cell(g', q) == if m.Capture? && Marked(m.target, m.origins, q) then side else Cell(g, q)
  {
    match m
    case Pass => g
    case Capture(t, os) =>
      seq(|g|, r requires 0 <= r < |g| =>
        seq(|g[r]|, c requires 0 <= c < |g[r]| => if Marked(t, os, Pos(r, c)) then side else g[r][c]))
  }

  /** The cells a capture turns over: the marked cells other than the target. */
  function Flipped(g: Grid, m: Action): set<Pos>
    requires m.Capture?
  {
    set r, c | 0 <= r < |g| && 0 <= c < |g[r]| && Pos(r, c) != m.target && Marked(m.target, m.origins, Pos(r, c)) :: Pos(r, c)
  }

  // ---------------------------------------------------------------- geometry of the walk

  lemma DistAt(t: Pos, d: Pos, j: int)
    requires IsUnit(d) && j >= 0
    ensures Dist(t, At(t, d, j)) == j
    ensures j > 0 ==> Dir(t, At(t, d, j)) == d
  {
  }

  lemma AlignedReach(t: Pos, o: Pos)
    requires Aligned(t, o)
    ensures o == At(t, Dir(t, o), Dist(t, o))
    ensures o != t ==> IsUnit(Dir(t, o)) && Dist(t, o) >= 1
  {
  }

  /** Walking `j` steps from `t` towards `o` stays in the grid while `j` is at most the distance. */
  lemma WalkInGrid(g: Grid, t: Pos, o: Pos, j: int)
    requires WellFormed(g) && InGrid(g, t) && InGrid(g, o) && Aligned(t, o) && 0 <= j <= Dist(t, o)
    ensures InGrid(g, At(t, Dir(t, o), j))
  {
  }

  lemma AtNext(p: Pos, d: Pos, j: int)
    ensures Pos(At(p, d, j).r + d.r, At(p, d, j).c + d.c) == At(p, d, j + 1)
  {
    assert Times(j + 1, d.r) == Times(j, d.r) + d.r;
    assert Times(j + 1, d.c) == Times(j, d.c) + d.c;
  }

  /** `q` is one of the cells the walk from `t` towards `o` has set before reaching step `j`. */
  predicate Walked(t: Pos, o: Pos, j: int, q: Pos) {
    0 < Dist(t, q) < j && q == At(t, Dir(t, o), Dist(t, q))
  }

  lemma WalkStep(t: Pos, o: Pos, j: int, q: Pos)
    requires Aligned(t, o) && o != t && j >= 1
    ensures Walked(t, o, j + 1, q) <==> Walked(t, o, j, q) || q == At(t, Dir(t, o), j)
  {
    AlignedReach(t, o);
    DistAt(t, Dir(t, o), j);
  }

  /** Once the walk stands on the origin, it has set exactly the cells between target and origin. */
  lemma WalkDone(t: Pos, o: Pos, j: int, q: Pos)
    requires Aligned(t, o) && j >= 1 && At(t, Dir(t, o), j) == o
    ensures Walked(t, o, j, q) <==> Between(t, o, q)
  {
    AlignedReach(t, o);
    if o != t {
      DistAt(t, Dir(t, o), j);
    }
  }

  /** A line found by the scan, read from its far end: the target sees the origin `k` steps back. */
  lemma LineGeometry(o: Pos, d: Pos, k: int, t: Pos)
    requires IsUnit(d) && k >= 1 && t == At(o, d, k)
    ensures Aligned(t, o) && Dir(t, o) == Pos(-d.r, -d.c) && Dist(t, o) == k
    ensures forall j :: At(t, Dir(t, o), j) == At(o, d, k - j)
  {
  }

  lemma {:induction false} MarkedSnoc(t: Pos, os: seq<Pos>, i: nat, q: Pos)
    requires i < |os|
    ensures Marked(t, os[..i + 1], q) <==> Marked(t, os[..i], q) || Between(t, os[i], q)
  {
    if Marked(t, os[..i + 1], q) && q != t {
      var k :| 0 <= k < i + 1 && Between(t, os[..i + 1][k], q);
      if k < i {
        assert os[..i][k] == os[k];
      }
    }
    if Marked(t, os[..i], q) && q != t {
      var k :| 0 <= k < i && Between(t, os[..i][k], q);
      assert os[..i + 1][k] == os[k];
    }
    if Between(t, os[i], q) {
      assert os[..i + 1][i] == os[i];
    }
  }

  // ---------------------------------------------------------------- generated captures

  /**
   * A capture whose every origin is a disk of `side` that claims the target, with at least
   * one origin: what get_side_moves guarantees about each capture it lists.
   */
  ghost predicate Sandwiches(g: Grid, side: int, m: Action)
    requires WellFormed(g)
  {
    m.Capture? && m.origins != [] &&
    forall o :: o in m.origins ==> InGrid(g, o) && Cell(g, o) == side && Claims(g, o, m.target)
  }

  lemma GeneratedOrigins(g: Grid, side: int, m: Action)
    requires WellFormed(g) && m in SideMoves(g, side) && m.Capture?
    ensures Sandwiches(g, side, m)
  {
    SideMovesSound(g, side);
    var i :| 0 <= i < |SideMoves(g, side)| && SideMoves(g, side)[i] == m;
  }

  /** The target of a sandwiching capture is an empty in-grid cell that every origin is aligned with. */
  lemma GeneratedTarget(g: Grid, side: int, m: Action)
    requires WellFormed(g) && 1 <= side <= 2 && Sandwiches(g, side, m)
    ensures InGrid(g, m.target) && Cell(g, m.target) == 0
    ensures Applicable(g, m)
  {
    var t, os := m.target, m.origins;
    forall o | o in os
      ensures Aligned(t, o) && InGrid(g, t) && Cell(g, t) == 0
    {
      var d, k :| d in Directions && Line(g, o, d, k) && t == At(o, d, k);
      LineGeometry(o, d, k, t);
    }
    assert os[0] in os;
  }

  /**
   * A capture produced by get_side_moves targets an empty in-grid cell, can be applied, and
   * every other cell it marks is an in-grid disk of the opponent.
   */
  lemma GeneratedCapture(g: Grid, side: int, m: Action)
    requires WellFormed(g) && 1 <= side <= 2 && Sandwiches(g, side, m)
    ensures InGrid(g, m.target) && Cell(g, m.target) == 0
    ensures Applicable(g, m)
    ensures forall q :: q != m.target && Marked(m.target, m.origins, q) ==> InGrid(g, q) && Cell(g, q) == 3 - side
  {
    GeneratedTarget(g, side, m);
    forall q | q != m.target && Marked(m.target, m.origins, q)
      ensures InGrid(g, q) && Cell(g, q) == 3 - side
    {
      var n :| 0 <= n < |m.origins| && Between(m.target, m.origins[n], q);
      GeneratedBetween(g, side, m, m.origins[n], q);
    }
  }

  /** A cell strictly between the target and one origin of a sandwiching capture is an opponent's disk. */
  lemma GeneratedBetween(g: Grid, side: int, m: Action, o: Pos, q: Pos)
    requires WellFormed(g) && 1 <= side <= 2 && Sandwiches(g, side, m)
    requires o in m.origins && q != m.target && Between(m.target, o, q)
    ensures InGrid(g, q) && Cell(g, q) == 3 - side
  {
    var t := m.target;
    var d, k :| d in Directions && Line(g, o, d, k) && t == At(o, d, k);
    LineGeometry(o, d, k, t);
    var j := Dist(t, q);
    assert q == At(o, d, k - j);
  }

  /** Every move get_side_moves produces, the pass included, can be applied. */
  lemma GeneratedApplicable(g: Grid, side: int, m: Action)
    requires WellFormed(g) && 1 <= side <= 2 && m in SideMoves(g, side)
    ensures Applicable(g, m)
  {
    if m.Capture? {
      GeneratedOrigins(g, side, m);
      GeneratedCapture(g, side, m);
    }
  }

  lemma FlippedMember(g: Grid, m: Action, q: Pos)
    requires WellFormed(g) && m.Capture?
    ensures q in Flipped(g, m) <==> InGrid(g, q) && q != m.target && Marked(m.target, m.origins, q)
  {
  }

  /** What a generated capture does to one cell, as seen by the mover. */
  lemma CaptureGainsAt(g: Grid, side: int, m: Action, q: Pos)
    requires WellFormed(g) && 1 <= side <= 2 && Sandwiches(g, side, m)
    ensures q in Cells(Applied(g, m, side), side) <==> q in Cells(g, side) || q == m.target || q in Flipped(g, m)
    ensures q in Flipped(g, m) ==> q !in Cells(g, side) && q != m.target
    ensures q == m.target ==> q !in Cells(g, side)
  {
    GeneratedCapture(g, side, m);
    CellsMember(Applied(g, m, side), side, q);
    CellsMember(g, side, q);
    FlippedMember(g, m, q);
  }

  /** The cells a generated capture gives to the mover: its old disks, the target and the flipped cells. */
  lemma CaptureGains(g: Grid, side: int, m: Action)
    requires WellFormed(g) && 1 <= side <= 2 && Sandwiches(g, side, m)
    ensures m.target !in Cells(g, side) && m.target !in Flipped(g, m) && Cells(g, side) !! Flipped(g, m)
    ensures Cells(Applied(g, m, side), side) == Cells(g, side) + {m.target} + Flipped(g, m)
  {
    forall q
      ensures q in Cells(Applied(g, m, side), side) <==> q in Cells(g, side) + {m.target} + Flipped(g, m)
      ensures q in Flipped(g, m) ==> q !in Cells(g, side) && q != m.target
    {
      CaptureGainsAt(g, side, m, q);
    }
    CaptureGainsAt(g, side, m, m.target);
  }

  /** The cells a generated capture takes from the opponent: exactly the flipped ones. */
  lemma CaptureLosses(g: Grid, side: int, m: Action)
    requires WellFormed(g) && 1 <= side <= 2 && Sandwiches(g, side, m)
    ensures Flipped(g, m) <= Cells(g, 3 - side)
    ensures Cells(Applied(g, m, side), 3 - side) == Cells(g, 3 - side) - Flipped(g, m)
  {
    GeneratedCapture(g, side, m);
    var g' := Applied(g, m, side);
    forall q
      ensures q in Cells(g', 3 - side) <==> q in Cells(g, 3 - side) - Flipped(g, m)
      ensures q in Flipped(g, m) ==> q in Cells(g, 3 - side)
    {
      CellsMember(g', 3 - side, q);
      CellsMember(g, 3 - side, q);
      FlippedMember(g, m, q);
    }
  }

  /** A generated capture fills exactly one empty cell, its target. */
  lemma CaptureFills(g: Grid, side: int, m: Action)
    requires WellFormed(g) && 1 <= side <= 2 && Sandwiches(g, side, m)
    ensures m.target in Cells(g, 0)
    ensures Cells(Applied(g, m, side), 0) == Cells(g, 0) - {m.target}
  {
    GeneratedCapture(g, side, m);
    var g' := Applied(g, m, side);
    forall q
      ensures q in Cells(g', 0) <==> q in Cells(g, 0) - {m.target}
    {
      CellsMember(g', 0, q);
      CellsMember(g, 0, q);
    }
    CellsMember(g, 0, m.target);
  }

  lemma SetCounts(a: set<Pos>, b: set<Pos>, e: set<Pos>, f: set<Pos>, t: Pos)
    requires t !in a && t !in f && a !! f && f <= b && t in e
    ensures |a + {t} + f| == |a| + 1 + |f|
    ensures |b - f| == |b| - |f|
    ensures |e - {t}| == |e| - 1
  {
    assert |a + {t}| == |a| + 1;
  }

  /**
   * For a generated capture, the mover gains one disk plus the flipped ones, the opponent
   * loses exactly the flipped ones, and one empty cell is filled.
   */
  lemma CaptureCounts(g: Grid, side: int, m: Action)
    requires WellFormed(g) && 1 <= side <= 2 && Sandwiches(g, side, m)
    ensures |Flipped(g, m)| >= 1
    ensures |Cells(Applied(g, m, side), side)| == |Cells(g, side)| + 1 + |Flipped(g, m)|
    ensures |Cells(Applied(g, m, side), 3 - side)| == |Cells(g, 3 - side)| - |Flipped(g, m)|
    ensures |Cells(Applied(g, m, side), 0)| == |Cells(g, 0)| - 1
  {
    CaptureGains(g, side, m);
    CaptureLosses(g, side, m);
    CaptureFills(g, side, m);
    SetCounts(Cells(g, side), Cells(g, 3 - side), Cells(g, 0), Flipped(g, m), m.target);
    FlippedNonEmpty(g, side, m);
  }

  /** Both sides together hold one disk more after a generated capture. */
  lemma CaptureOccupies(g: Grid, side: int, m: Action)
    requires WellFormed(g) && 1 <= side <= 2 && Sandwiches(g, side, m)
    ensures |Cells(Applied(g, m, side), 1)| + |Cells(Applied(g, m, side), 2)| == |Cells(g, 1)| + |Cells(g, 2)| + 1
  {
    CaptureCounts(g, side, m);
    if side == 1 {
      assert 3 - side == 2;
    } else {
      assert 3 - side == 1;
    }
  }

  /** A generated capture turns at least one disk over: the cell next to the target on its first line. */
  lemma FlippedNonEmpty(g: Grid, side: int, m: Action)
    requires WellFormed(g) && 1 <= side <= 2 && Sandwiches(g, side, m)
    ensures |Flipped(g, m)| >= 1
  {
    GeneratedCapture(g, side, m);
    var t, os := m.target, m.origins;
    var o := os[0];
    assert o in os;
    var d, k :| d in Directions && Line(g, o, d, k) && t == At(o, d, k);
    LineGeometry(o, d, k, t);
    var q := At(t, Dir(t, o), 1);
    assert q == At(o, d, k - 1);
    DistAt(t, Dir(t, o), 1);
    assert Between(t, os[0], q);
    assert q in Flipped(g, m);
  }
}
