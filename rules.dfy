/**
 * The game state of othello_rules.py and the operations on it: the legal actions, playing
 * an action on a copy, the end-of-game test and the result from a fixed side's perspective.
 */
module Rules {
  import opened Board
  import opened Scan
  import opened Moves
  import opened Capture

  datatype Option<T> = None | Some(value: T)

  class State {
    var grid: Grid
    var side: int
    var previousSkip: bool
    var masterSide: int

    /** The states the engine works on: a well-formed grid and a side to move that is 1 or 2. */
    ghost predicate Valid()
      reads this
    {
      WellFormed(grid) && 1 <= side <= 2
    }

    /** With no grid, the 6 x 6 opening position; the side to move and the perspective default to 2. */
    constructor (grid: Option<Grid> := None, previousSkip: bool := false, side: int := 2, masterSide: int := 2)
      ensures this.grid == (if grid.Some? then grid.value else DefaultGrid)
      ensures this.side == side && this.previousSkip == previousSkip && this.masterSide == masterSide
    {
      if grid.None? {
        var g := seq(6, i => seq(6, j => 0));
        g := g[2 := g[2][2 := 1]];
        g := g[2 := g[2][3 := 2]];
        g := g[3 := g[3][2 := 2]];
        g := g[3 := g[3][3 := 1]];
        assert g[0] == DefaultGrid[0] && g[1] == DefaultGrid[1] && g[2] == DefaultGrid[2];
        assert g[3] == DefaultGrid[3] && g[4] == DefaultGrid[4] && g[5] == DefaultGrid[5];
        this.grid := g;
      } else {
        this.grid := grid.value;
      }
      this.side := side;
      this.previousSkip := previousSkip;
      this.masterSide := masterSide;
    }

    /** get_legal_actions: the moves of the side to move. */
    method GetLegalActions() returns (actions: seq<Action>)
      requires Valid()
      ensures actions == SideMoves(grid, side)
    {
      actions := GetSideMoves(grid, side);
    }

    /** is_game_over, on this state. */
    method IsGameOver() returns (over: bool)
      requires Valid()
      ensures over == GameOver(grid, side, previousSkip)
    {
      over := IsGameOverGrid(grid, side, previousSkip);
    }

    /** game_result: the result from the perspective of `masterSide`. */
    method GameResult() returns (result: int)
      requires Valid()
      ensures result == Winner(grid, masterSide)
    {
      result := GetWinningSide(grid, masterSide);
    }

    /** move: play `action` on a copy; the copy's turn passes to the other side. */
    method Move(action: Action) returns (next: State)
      requires Valid() && Applicable(grid, action)
      ensures fresh(next) && next.Valid()
      ensures next.grid == Applied(grid, action, side)
      ensures next.side == 3 - side && next.previousSkip == action.Pass? && next.masterSide == masterSide
    {
      next := new State(Some(grid), previousSkip, side, masterSide);
      ApplyMove(next, action);
      next.side := 3 - side;
    }
  }

  /** apply_move's direction from `t` towards `o`: the difference, each component clamped to one unit. */
  method UnitDirection(t: Pos, o: Pos) returns (direction: Pos)
    ensures direction == Dir(t, o)
  {
    direction := Pos(o.r - t.r, o.c - t.c);
    if direction.r > 0 {
      direction := direction.(r := 1);
    } else if direction.r < 0 {
      direction := direction.(r := -1);
    }
    if direction.c > 0 {
      direction := direction.(c := 1);
    } else if direction.c < 0 {
      direction := direction.(c := -1);
    }
  }

  /**
   * One pass of apply_move's `while`: the cell `j` steps from `t`, not yet `o`, is inside the grid
   * and short of `o`, and setting it extends what the walk has set from `j` steps to `j + 1`.
   */
  lemma FlipStep(g0: Grid, g: Grid, t: Pos, o: Pos, j: int, side: int)
    requires WellFormed(g0) && WellFormed(g) && |g| == |g0| && |g[0]| == |g0[0]| && 1 <= side <= 2
    requires InGrid(g0, t) && InGrid(g0, o) && Aligned(t, o) && j >= 1 && (o != t ==> j <= Dist(t, o))
    requires At(t, Dir(t, o), j) != o
    requires forall q :: InGrid(g, q) ==> Cell(g, q) == if Walked(t, o, j, q) then side else Cell(g0, q)
    ensures o != t && j + 1 <= Dist(t, o) && InGrid(g, At(t, Dir(t, o), j))
    ensures forall q :: InGrid(g, q) ==>
      Cell(SetCell(g, At(t, Dir(t, o), j), side), q) == if Walked(t, o, j + 1, q) then side else Cell(g0, q)
  {
    AlignedReach(t, o);
    WalkInGrid(g, t, o, j);
    forall q | InGrid(g, q)
      ensures Cell(SetCell(g, At(t, Dir(t, o), j), side), q) == if Walked(t, o, j + 1, q) then side else Cell(g0, q)
    {
      WalkStep(t, o, j, q);
    }
  }

  /** The `while` of apply_move: set every cell strictly between `t` and `o` to the side to move. */
  method FlipLine(s: State, t: Pos, o: Pos)
    modifies s`grid
    requires s.Valid() && InGrid(s.grid, t) && InGrid(s.grid, o) && Aligned(t, o)
    ensures s.Valid()
    ensures |s.grid| == |old(s.grid)| && |s.grid[0]| == |old(s.grid)[0]|
    ensures forall q :: InGrid(s.grid, q) ==> Cell(s.grid, q) == if Between(t, o, q) then s.side else Cell(old(s.grid), q)
  {
    var direction := UnitDirection(t, o);
    AlignedReach(t, o);
    AtNext(t, direction, 0);
    var newPos := Pos(t.r + direction.r, t.c + direction.c);
    ghost var j := 1;
    while newPos != o
      invariant s.Valid()
      invariant |s.grid| == |old(s.grid)| && |s.grid[0]| == |old(s.grid)[0]|
      invariant j >= 1 && newPos == At(t, direction, j) && (o != t ==> j <= Dist(t, o))
      invariant forall q :: InGrid(s.grid, q) ==> Cell(s.grid, q) == if Walked(t, o, j, q) then s.side else Cell(old(s.grid), q)
      decreases Dist(t, o) - j
    {
      FlipStep(old(s.grid), s.grid, t, o, j, s.side);
      s.grid := SetCell(s.grid, newPos, s.side);
      AtNext(t, direction, j);
      newPos := Pos(newPos.r + direction.r, newPos.c + direction.c);
      j := j + 1;
    }
    forall q ensures Walked(t, o, j, q) <==> Between(t, o, q) {
      WalkDone(t, o, j, q);
    }
  }

  /** apply_move: a pass records the skip; a capture sets its target and flips toward every origin. */
  method ApplyMove(s: State, m: Action)
    modifies s
    requires s.Valid() && Applicable(s.grid, m)
    ensures s.Valid() && s.grid == Applied(old(s.grid), m, old(s.side))
    ensures s.side == old(s.side) && s.masterSide == old(s.masterSide) && s.previousSkip == m.Pass?
  {
    if m.Capture? {
      s.previousSkip := false;
      var coord, listPositionFrom := m.target, m.origins;
      ghost var g0 := s.grid;
      s.grid := SetCell(s.grid, coord, s.side);
      for i := 0 to |listPositionFrom|
        invariant s.Valid() && s.side == old(s.side) && s.masterSide == old(s.masterSide) && !s.previousSkip
        invariant |s.grid| == |g0| && |s.grid[0]| == |g0[0]|
        invariant forall q :: InGrid(g0, q) ==>
          Cell(s.grid, q) == if Marked(coord, listPositionFrom[..i], q) then s.side else Cell(g0, q)
      {
        assert listPositionFrom[i] in m.origins;
        FlipLine(s, coord, listPositionFrom[i]);
        forall q ensures Marked(coord, listPositionFrom[..i + 1], q) <==>
                         Marked(coord, listPositionFrom[..i], q) || Between(coord, listPositionFrom[i], q) {
          MarkedSnoc(coord, listPositionFrom, i, q);
        }
      }
      assert listPositionFrom[..|listPositionFrom|] == listPositionFrom;
      GridExt(s.grid, Applied(g0, m, s.side));
    } else {
      s.previousSkip := true;
    }
  }

  // ---------------------------------------------------------------- end of the game

  /** The game is over when the previous side passed and no disk of the side to move claims anything. */
  ghost predicate GameOver(g: Grid, side: int, skip: bool)
    requires WellFormed(g)
  {
    skip && forall o :: InGrid(g, o) && Cell(g, o) == side ==> Claimable(g, o) == []
  }

  /** The game is over exactly when a pass follows a pass: the side to move has only the pass move. */
  lemma GameOverIffPass(g: Grid, side: int, skip: bool)
    requires WellFormed(g)
    ensures GameOver(g, side, skip) <==> skip && SideMoves(g, side) == [Pass]
  {
    SideMovesPass(g, side);
  }

  /** is_game_over: only after a pass, look for a disk of the side to move that can claim. */
  method IsGameOverGrid(grid: Grid, side: int, previousSkip: bool) returns (over: bool)
    requires WellFormed(grid)
    ensures over == GameOver(grid, side, previousSkip)
  {
    if previousSkip {
      var disks := GetSideDisks(grid, side);
      SideDisksInGrid(grid, side);
      for i := 0 to |disks|
        invariant forall k :: 0 <= k < i ==> Claimable(grid, disks[k]) == []
      {
        var can := PositionCanClaim(grid, disks[i]);
        if can {
          return false;
        }
      }
      forall o | InGrid(grid, o) && Cell(grid, o) == side
        ensures Claimable(grid, o) == []
      {
        SideDisksMeaning(grid, side, o);
        var k :| 0 <= k < |disks| && disks[k] == o;
      }
      return true;
    }
    return false;
  }

  // ---------------------------------------------------------------- the result

  /**
   * get_winning_side: 0 on equal disk counts, otherwise 1 when the side with more disks is
   * `masterSide` and -1 when it is not.
   */
  function Winner(g: Grid, masterSide: int): (r: int)
    ensures -1 <= r <= 1
    ensures r == 0 <==> |Cells(g, 1)| == |Cells(g, 2)|
    ensures 1 <= masterSide <= 2 ==>
      (r == 1 <==> |Cells(g, masterSide)| > |Cells(g, 3 - masterSide)|) &&
      (r == -1 <==> |Cells(g, masterSide)| < |Cells(g, 3 - masterSide)|)
    ensures !(1 <= masterSide <= 2) ==> r <= 0
  {
    var c1, c2 := |Cells(g, 1)|, |Cells(g, 2)|;
    if c1 == c2 then 0
    else if c1 > c2 then (if masterSide == 1 then 1 else -1)
    else (if masterSide == 2 then 1 else -1)
  }

  /** The two perspectives always disagree: what is a win for side 1 is a loss for side 2. */
  lemma WinnerSwap(g: Grid)
    ensures Winner(g, 1) == -Winner(g, 2)
  {
  }

  ghost function Elems(s: seq<Pos>): set<Pos> {
    set x | x in s
  }

  lemma ElemsAppend(a: seq<Pos>, b: seq<Pos>)
    ensures Elems(a + b) == Elems(a) + Elems(b)
  {
  }

  lemma {:induction false} RowDistinct(g: Grid, v: int, i: int, j: nat)
    requires 0 <= i < |g| && j <= |g[i]|
    ensures |Elems(RowDisks(g, v, i, j))| == |RowDisks(g, v, i, j)|
  {
    if j > 0 {
      var a := RowDisks(g, v, i, j - 1);
      RowDistinct(g, v, i, j - 1);
      if g[i][j - 1] == v {
        RowDisksMeaning(g, v, i, j - 1, Pos(i, j - 1));
        ElemsAppend(a, [Pos(i, j - 1)]);
        assert Elems([Pos(i, j - 1)]) == {Pos(i, j - 1)};
      } else {
        assert RowDisks(g, v, i, j) == a + [];
        assert a + [] == a;
      }
    }
  }

  lemma {:induction false} BeforeDistinct(g: Grid, v: int, i: nat)
    requires i <= |g|
    ensures |Elems(DisksBefore(g, v, i))| == |DisksBefore(g, v, i)|
  {
    if i > 0 {
      var a := DisksBefore(g, v, i - 1);
      var b := RowDisks(g, v, i - 1, |g[i - 1]|);
      BeforeDistinct(g, v, i - 1);
      RowDistinct(g, v, i - 1, |g[i - 1]|);
      ElemsAppend(a, b);
      forall p | p in Elems(a) ensures p !in Elems(b) {
        DisksBeforeMeaning(g, v, i - 1, p);
        RowDisksMeaning(g, v, i - 1, |g[i - 1]|, p);
      }
      assert Elems(a) !! Elems(b);
    }
  }

  /** get_side_disks lists every disk of a side exactly once, so its length is the disk count. */
  lemma SideDisksCount(g: Grid, v: int)
    requires WellFormed(g)
    ensures |SideDisks(g, v)| == |Cells(g, v)|
  {
    BeforeDistinct(g, v, |g|);
    forall p ensures p in Elems(SideDisks(g, v)) <==> p in Cells(g, v) {
      SideDisksMeaning(g, v, p);
      CellsMember(g, v, p);
    }
    assert Elems(SideDisks(g, v)) == Cells(g, v);
  }

  /**
   * From the opening position, side 2 playing (4,3) from (2,3) turns over only (3,3): side 1
   * is left with 1 disk and side 2 has 4.
   */
  lemma DefaultFirstCapture()
    ensures WellFormed(DefaultGrid)
    ensures Capture(Pos(4, 3), [Pos(2, 3)]) in SideMoves(DefaultGrid, 2)
    ensures Flipped(DefaultGrid, Capture(Pos(4, 3), [Pos(2, 3)])) == {Pos(3, 3)}
    ensures |Cells(Applied(DefaultGrid, Capture(Pos(4, 3), [Pos(2, 3)]), 2), 1)| == 1
    ensures |Cells(Applied(DefaultGrid, Capture(Pos(4, 3), [Pos(2, 3)]), 2), 2)| == 4
  {
    DefaultGridWellFormed();
    DefaultFirstMove();
    DefaultCounts();
    FirstCaptureFlips(DefaultGrid);
    FirstCaptureCounts(DefaultGrid);
  }

  lemma DefaultFirstMove()
    ensures WellFormed(DefaultGrid)
    ensures Capture(Pos(4, 3), [Pos(2, 3)]) in SideMoves(DefaultGrid, 2)
    ensures Sandwiches(DefaultGrid, 2, Capture(Pos(4, 3), [Pos(2, 3)]))
  {
    DefaultMoves();
    assert SideMoves(DefaultGrid, 2)[0] == Capture(Pos(4, 3), [Pos(2, 3)]);
    GeneratedOrigins(DefaultGrid, 2, Capture(Pos(4, 3), [Pos(2, 3)]));
  }

  lemma DefaultCounts()
    ensures WellFormed(DefaultGrid) && |Cells(DefaultGrid, 1)| == 2 && |Cells(DefaultGrid, 2)| == 2
  {
    DefaultGridWellFormed();
    DefaultDisks();
    SideDisksCount(DefaultGrid, 1);
    SideDisksCount(DefaultGrid, 2);
  }

  /** On a 6 x 6 grid the capture (4,3) from (2,3) marks only (3,3) besides its target. */
  lemma FirstCaptureFlips(g: Grid)
    requires WellFormed(g) && |g| == 6 && |g[0]| == 6
    ensures Flipped(g, Capture(Pos(4, 3), [Pos(2, 3)])) == {Pos(3, 3)}
  {
    var t, o := Pos(4, 3), Pos(2, 3);
    var m := Capture(t, [o]);
    assert Dir(t, o) == Pos(-1, 0) && Dist(t, o) == 2;
    assert At(t, Pos(-1, 0), 1) == Pos(3, 3);
    forall q ensures q in Flipped(g, m) <==> q == Pos(3, 3) {
      FlippedMember(g, m, q);
      if q in Flipped(g, m) {
        var i :| 0 <= i < |m.origins| && Between(t, m.origins[i], q);
        assert m.origins[i] == o && Dist(t, q) == 1;
      }
      if q == Pos(3, 3) {
        assert Between(t, m.origins[0], q);
      }
    }
  }

  lemma FirstCaptureCounts(g: Grid)
    requires WellFormed(g) && Sandwiches(g, 2, Capture(Pos(4, 3), [Pos(2, 3)]))
    requires Flipped(g, Capture(Pos(4, 3), [Pos(2, 3)])) == {Pos(3, 3)}
    requires |Cells(g, 1)| == 2 && |Cells(g, 2)| == 2
    ensures |Cells(Applied(g, Capture(Pos(4, 3), [Pos(2, 3)]), 2), 1)| == 1
    ensures |Cells(Applied(g, Capture(Pos(4, 3), [Pos(2, 3)]), 2), 2)| == 4
  {
    CaptureCounts(g, 2, Capture(Pos(4, 3), [Pos(2, 3)]));
  }

  /** get_winning_side: count the disks of each side row by row, then compare. */
  method GetWinningSide(grid: Grid, masterSide: int) returns (result: int)
    requires WellFormed(grid)
    ensures result == Winner(grid, masterSide)
  {
    var count1, count2 := 0, 0;
    for i := 0 to |grid|
      invariant count1 == |DisksBefore(grid, 1, i)| && count2 == |DisksBefore(grid, 2, i)|
    {
      var line := grid[i];
      for j := 0 to |line|
        invariant count1 == |DisksBefore(grid, 1, i)| + |RowDisks(grid, 1, i, j)|
        invariant count2 == |DisksBefore(grid, 2, i)| + |RowDisks(grid, 2, i, j)|
      {
        var tile := line[j];
        if tile == 1 {
          count1 := count1 + 1;
        } else if tile == 2 {
          count2 := count2 + 1;
        }
      }
    }
    SideDisksCount(grid, 1);
    SideDisksCount(grid, 2);
    if count1 == count2 {
      result := 0;
    } else if count1 > count2 {
      result := if masterSide == 1 then 1 else -1;
    } else {
      result := if masterSide == 2 then 1 else -1;
    }
  }

  // ---------------------------------------------------------------- progress

  /** A measure that every legal move from a running game lowers: twice the empty cells, plus one before a pass. */
  function Measure(g: Grid, skip: bool): nat {
    2 * |Cells(g, 0)| + if skip then 0 else 1
  }

  /** Every legal move from a position that is not over lowers the measure, so every game ends. */
  lemma MoveProgress(g: Grid, side: int, skip: bool, m: Action)
    requires WellFormed(g) && 1 <= side <= 2 && !GameOver(g, side, skip) && m in SideMoves(g, side)
    ensures Measure(Applied(g, m, side), m.Pass?) < Measure(g, skip)
  {
    if m.Capture? {
      GeneratedOrigins(g, side, m);
      CaptureCounts(g, side, m);
    } else {
      SideMovesShape(g, side);
      GameOverIffPass(g, side, skip);
      var i :| 0 <= i < |SideMoves(g, side)| && SideMoves(g, side)[i] == m;
    }
  }
}
