/**
 * The capture scan of othello_rules.py: from a disk, walk each of the eight directions
 * over a run of opposing disks; the position just past the run is claimable when it is
 * an empty cell inside the grid.
 */
module Scan {
  import opened Board

  /** How many steps along `d` are left before `p` leaves the grid (a termination measure). */
  function Span(g: Grid, p: Pos, d: Pos): int
    requires |g| > 0
  {
    if d.r == 1 then |g| - p.r
    else if d.r == -1 then p.r + 1
    else if d.c == 1 then |g[0]| - p.c
    else p.c + 1
  }

  /** The first position from `p` on (itself included) along `d` that is not an in-grid cell holding `other`. */
  function RunEnd(g: Grid, p: Pos, d: Pos, other: int): Pos
    requires WellFormed(g) && IsUnit(d)
    decreases Span(g, p, d)
  {
    if InGrid(g, p) && Cell(g, p) == other then RunEnd(g, Pos(p.r + d.r, p.c + d.c), d, other) else p
  }

  /** What the scan of one direction from `src` yields: the claimable position, if any. */
  function ClaimIn(g: Grid, src: Pos, d: Pos): seq<Pos>
    requires WellFormed(g) && InGrid(g, src) && IsUnit(d)
  {
    var other := 3 - Cell(g, src);
    var first := Pos(src.r + d.r, src.c + d.c);
    if InGrid(g, first) && Cell(g, first) == other then
      var e := RunEnd(g, first, d, other);
      if InGrid(g, e) && Cell(g, e) == 0 then [e] else []
    else []
  }

  /** The claims of the first `k` directions, in direction order. */
  function ClaimsUpTo(g: Grid, src: Pos, k: nat): seq<Pos>
    requires WellFormed(g) && InGrid(g, src) && k <= |Directions|
  {
    if k == 0 then [] else ClaimsUpTo(g, src, k - 1) + ClaimIn(g, src, Directions[k - 1])
  }

  /** The result of get_claimable_positions_from. */
  function Claimable(g: Grid, src: Pos): seq<Pos>
    requires WellFormed(g) && InGrid(g, src)
  {
    ClaimsUpTo(g, src, |Directions|)
  }

  /**
   * The geometric meaning of a claim: going `k >= 2` steps from `src` along `d` reaches an
   * empty in-grid cell, and every cell strictly between holds the side opposite to `src`'s.
   */
  ghost predicate Line(g: Grid, src: Pos, d: Pos, k: int)
    requires WellFormed(g) && InGrid(g, src)
  {
    IsUnit(d) && k >= 2 &&
    InGrid(g, At(src, d, k)) && Cell(g, At(src, d, k)) == 0 &&
    forall j :: 1 <= j < k ==> InGrid(g, At(src, d, j)) && Cell(g, At(src, d, j)) == 3 - Cell(g, src)
  }

  /** `t` is claimable from `src` in the geometric sense. */
  ghost predicate Claims(g: Grid, src: Pos, t: Pos)
    requires WellFormed(g) && InGrid(g, src)
  {
    exists d, k :: d in Directions && Line(g, src, d, k) && t == At(src, d, k)
  }

  lemma AtShift(p: Pos, d: Pos, j: int)
    ensures At(Pos(p.r + d.r, p.c + d.c), d, j) == At(p, d, j + 1)
  {
    assert Times(j + 1, d.r) == Times(j, d.r) + d.r;
    assert Times(j + 1, d.c) == Times(j, d.c) + d.c;
  }

  lemma {:induction false} RunEndSteps(g: Grid, p: Pos, d: Pos, other: int) returns (n: nat)
    requires WellFormed(g) && IsUnit(d)
    ensures RunEnd(g, p, d, other) == At(p, d, n)
    ensures forall j :: 0 <= j < n ==> InGrid(g, At(p, d, j)) && Cell(g, At(p, d, j)) == other
    decreases Span(g, p, d)
  {
    if InGrid(g, p) && Cell(g, p) == other {
      var m := RunEndSteps(g, Pos(p.r + d.r, p.c + d.c), d, other);
      n := m + 1;
      forall j | 0 <= j < n
        ensures InGrid(g, At(p, d, j)) && Cell(g, At(p, d, j)) == other
      {
        if j > 0 {
          AtShift(p, d, j - 1);
        } else {
          assert At(p, d, 0) == p;
        }
      }
      AtShift(p, d, m);
    } else {
      n := 0;
      assert At(p, d, 0) == p;
    }
  }

  lemma {:induction false} RunEndReaches(g: Grid, src: Pos, d: Pos, other: int, m: int, k: int)
    requires WellFormed(g) && IsUnit(d) && 1 <= m <= k
    requires forall j :: m <= j < k ==> InGrid(g, At(src, d, j)) && Cell(g, At(src, d, j)) == other
    requires InGrid(g, At(src, d, k)) && Cell(g, At(src, d, k)) != other
    ensures RunEnd(g, At(src, d, m), d, other) == At(src, d, k)
    decreases k - m
  {
    if m < k {
      AtShift(src, d, m);
      assert Pos(At(src, d, m).r + d.r, At(src, d, m).c + d.c) == At(src, d, m + 1);
      RunEndReaches(g, src, d, other, m + 1, k);
    }
  }

  lemma ClaimInSound(g: Grid, src: Pos, d: Pos, t: Pos)
    requires WellFormed(g) && InGrid(g, src) && IsUnit(d) && t in ClaimIn(g, src, d)
    ensures exists k :: Line(g, src, d, k) && t == At(src, d, k)
  {
    var other := 3 - Cell(g, src);
    var first := Pos(src.r + d.r, src.c + d.c);
    assert first == At(src, d, 1);
    var n := RunEndSteps(g, first, d, other);
    assert t == At(first, d, n);
    forall j | 1 <= j < n + 1
      ensures InGrid(g, At(src, d, j)) && Cell(g, At(src, d, j)) == other
    {
      AtShift(src, d, j - 1);
    }
    AtShift(src, d, n);
    assert Line(g, src, d, n + 1);
  }

  lemma ClaimInComplete(g: Grid, src: Pos, d: Pos, k: int)
    requires WellFormed(g) && InGrid(g, src) && Line(g, src, d, k)
    ensures At(src, d, k) in ClaimIn(g, src, d)
  {
    var other := 3 - Cell(g, src);
    assert Pos(src.r + d.r, src.c + d.c) == At(src, d, 1);
    RunEndReaches(g, src, d, other, 1, k);
  }

  /** One direction's scan yields exactly the end of its line, when there is one. */
  lemma ClaimInMeaning(g: Grid, src: Pos, d: Pos, t: Pos)
    requires WellFormed(g) && InGrid(g, src) && IsUnit(d)
    ensures t in ClaimIn(g, src, d) <==> exists k :: Line(g, src, d, k) && t == At(src, d, k)
  {
    if t in ClaimIn(g, src, d) {
      ClaimInSound(g, src, d, t);
    }
    if exists k :: Line(g, src, d, k) && t == At(src, d, k) {
      var k :| Line(g, src, d, k) && t == At(src, d, k);
      ClaimInComplete(g, src, d, k);
    }
  }

  lemma {:induction false} ClaimsUpToMeaning(g: Grid, src: Pos, n: nat, t: Pos)
    requires WellFormed(g) && InGrid(g, src) && n <= |Directions|
    ensures t in ClaimsUpTo(g, src, n) <==> exists i :: 0 <= i < n && t in ClaimIn(g, src, Directions[i])
  {
    DirectionsAreUnits();
    if n > 0 {
      ClaimsUpToMeaning(g, src, n - 1, t);
    }
  }

  lemma ClaimableSound(g: Grid, src: Pos, t: Pos)
    requires WellFormed(g) && InGrid(g, src) && t in Claimable(g, src)
    ensures Claims(g, src, t)
  {
    DirectionsAreUnits();
    ClaimsUpToMeaning(g, src, |Directions|, t);
    var i :| 0 <= i < |Directions| && t in ClaimIn(g, src, Directions[i]);
    var d := Directions[i];
    ClaimInMeaning(g, src, d, t);
    var k :| Line(g, src, d, k) && t == At(src, d, k);
    assert d in Directions;
  }

  lemma ClaimableComplete(g: Grid, src: Pos, t: Pos)
    requires WellFormed(g) && InGrid(g, src) && Claims(g, src, t)
    ensures t in Claimable(g, src)
  {
    DirectionsAreUnits();
    var d, k :| d in Directions && Line(g, src, d, k) && t == At(src, d, k);
    var i :| 0 <= i < |Directions| && Directions[i] == d;
    ClaimInMeaning(g, src, d, t);
    assert t in ClaimIn(g, src, Directions[i]);
    ClaimsUpToMeaning(g, src, |Directions|, t);
  }

  /** get_claimable_positions_from returns exactly the geometrically claimable positions. */
  lemma ClaimableMeaning(g: Grid, src: Pos, t: Pos)
    requires WellFormed(g) && InGrid(g, src)
    ensures t in Claimable(g, src) <==> Claims(g, src, t)
  {
    if t in Claimable(g, src) {
      ClaimableSound(g, src, t);
    }
    if Claims(g, src, t) {
      ClaimableComplete(g, src, t);
    }
  }

  /** Every claimable position is an empty in-grid cell. */
  lemma ClaimableIsEmpty(g: Grid, src: Pos, t: Pos)
    requires WellFormed(g) && InGrid(g, src) && t in Claimable(g, src)
    ensures InGrid(g, t) && Cell(g, t) == 0
  {
    ClaimableMeaning(g, src, t);
  }

  /** An empty cell claims nothing: no cell holds the value 3 that it would need to sandwich. */
  lemma EmptyClaimsNothing(g: Grid, src: Pos)
    requires WellFormed(g) && InGrid(g, src) && Cell(g, src) == 0
    ensures Claimable(g, src) == []
  {
    if Claimable(g, src) != [] {
      var t := Claimable(g, src)[0];
      ClaimableMeaning(g, src, t);
      var d, k :| d in Directions && Line(g, src, d, k) && t == At(src, d, k);
      ghost var first := At(src, d, 1);
      assert false;
    }
  }

  /** The inner `while` of the scan: step along `d` while the cell holds `other`. */
  method WalkRun(g: Grid, start: Pos, d: Pos, other: int) returns (newPos: Pos)
    requires WellFormed(g) && IsUnit(d)
    ensures newPos == RunEnd(g, start, d, other)
  {
    newPos := start;
    while InGrid(g, newPos) && Cell(g, newPos) == other
      invariant RunEnd(g, newPos, d, other) == RunEnd(g, start, d, other)
      decreases Span(g, newPos, d)
    {
      newPos := Pos(newPos.r + d.r, newPos.c + d.c);
    }
  }

  /** The body of the direction loop shared by both scans: the claim in direction `vector`, if any. */
  method ScanDirection(g: Grid, source: Pos, vector: Pos) returns (found: seq<Pos>)
    requires WellFormed(g) && InGrid(g, source) && IsUnit(vector)
    ensures found == ClaimIn(g, source, vector)
  {
    var otherSide := 3 - Cell(g, source);
    var newPos := Pos(source.r + vector.r, source.c + vector.c);
    if InGrid(g, newPos) && Cell(g, newPos) == otherSide {
      newPos := WalkRun(g, newPos, vector, otherSide);
      if InGrid(g, newPos) && Cell(g, newPos) == 0 {
        found := [newPos];
      } else {
        found := [];
      }
    } else {
      found := [];
    }
  }

  /** get_claimable_positions_from: the claims of all eight directions, in order. */
  method GetClaimablePositionsFrom(g: Grid, source: Pos) returns (claimable: seq<Pos>)
    requires WellFormed(g) && InGrid(g, source)
    ensures claimable == Claimable(g, source)
  {
    DirectionsAreUnits();
    claimable := [];
    for k := 0 to |Directions|
      invariant claimable == ClaimsUpTo(g, source, k)
    {
      var found := ScanDirection(g, source, Directions[k]);
      claimable := claimable + found;
    }
  }

  /** position_can_claim: the early-exit form of the same scan. */
  method PositionCanClaim(g: Grid, source: Pos) returns (can: bool)
    requires WellFormed(g) && InGrid(g, source)
    ensures can <==> Claimable(g, source) != []
  {
    DirectionsAreUnits();
    for k := 0 to |Directions|
      invariant ClaimsUpTo(g, source, k) == []
    {
      var found := ScanDirection(g, source, Directions[k]);
      if found != [] {
        ClaimsNonEmptyAfter(g, source, k + 1);
        return true;
      }
    }
    return false;
  }

  lemma {:induction false} ClaimsNonEmptyAfter(g: Grid, src: Pos, k: nat)
    requires WellFormed(g) && InGrid(g, src) && 0 < k <= |Directions|
    requires ClaimsUpTo(g, src, k) != []
    ensures Claimable(g, src) != []
    decreases |Directions| - k
  {
    DirectionsAreUnits();
    if k < |Directions| {
      assert ClaimsUpTo(g, src, k + 1) == ClaimsUpTo(g, src, k) + ClaimIn(g, src, Directions[k]);
      ClaimsNonEmptyAfter(g, src, k + 1);
    }
  }
}
