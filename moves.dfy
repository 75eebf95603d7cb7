/**
 * Move generation of othello_rules.py: the disks of a side in row-major order, and the
 * grouping of their claims by target into moves. A side without any claim gets the
 * single move `Pass` (the `[None]` list of the source).
 */
module Moves {
  import opened Board
  import opened Scan

  /** `Pass` is the source's `None`; `Capture(t, os)` is its `[t, os]`. */
  datatype Action = Pass | Capture(target: Pos, origins: seq<Pos>)

  /** One claim found by the scan: `target` is claimable from the disk at `origin`. */
  datatype Pair = Pair(target: Pos, origin: Pos)

  /** The dictionary built by get_side_moves: its keys in insertion order and its values. */
  datatype Groups = Groups(keys: seq<Pos>, vals: map<Pos, seq<Pos>>)

  // ---------------------------------------------------------------- side disks

  /** The disks of `side` among the first `j` cells of row `i`. */
  function RowDisks(g: Grid, side: int, i: int, j: nat): seq<Pos>
    requires 0 <= i < |g| && j <= |g[i]|
  {
    if j == 0 then [] else RowDisks(g, side, i, j - 1) + (if g[i][j - 1] == side then [Pos(i, j - 1)] else [])
  }

  /** The disks of `side` in the first `i` rows. */
  function DisksBefore(g: Grid, side: int, i: nat): seq<Pos>
    requires i <= |g|
  {
    if i == 0 then [] else DisksBefore(g, side, i - 1) + RowDisks(g, side, i - 1, |g[i - 1]|)
  }

  /** The result of get_side_disks. */
  function SideDisks(g: Grid, side: int): seq<Pos> {
    DisksBefore(g, side, |g|)
  }

  lemma {:induction false} RowDisksMeaning(g: Grid, side: int, i: int, j: nat, p: Pos)
    requires 0 <= i < |g| && j <= |g[i]|
    ensures p in RowDisks(g, side, i, j) <==> p.r == i && 0 <= p.c < j && g[i][p.c] == side
  {
    if j > 0 {
      RowDisksMeaning(g, side, i, j - 1, p);
    }
  }

  lemma {:induction false} DisksBeforeMeaning(g: Grid, side: int, i: nat, p: Pos)
    requires i <= |g|
    ensures p in DisksBefore(g, side, i) <==> 0 <= p.r < i && 0 <= p.c < |g[p.r]| && g[p.r][p.c] == side
  {
    if i > 0 {
      DisksBeforeMeaning(g, side, i - 1, p);
      RowDisksMeaning(g, side, i - 1, |g[i - 1]|, p);
    }
  }

  /** get_side_disks lists exactly the cells holding `side`. */
  lemma SideDisksMeaning(g: Grid, side: int, p: Pos)
    requires WellFormed(g)
    ensures p in SideDisks(g, side) <==> InGrid(g, p) && Cell(g, p) == side
  {
    DisksBeforeMeaning(g, side, |g|, p);
  }

  lemma SideDisksInGrid(g: Grid, side: int)
    requires WellFormed(g)
    ensures forall p :: p in SideDisks(g, side) ==> InGrid(g, p) && Cell(g, p) == side
  {
    forall p | p in SideDisks(g, side) ensures InGrid(g, p) && Cell(g, p) == side {
      SideDisksMeaning(g, side, p);
    }
  }

  // ---------------------------------------------------------------- grouping

  /** Each target of `ts`, paired with the disk `o` that claims it. */
  function Tag(ts: seq<Pos>, o: Pos): (ps: seq<Pair>)
    ensures |ps| == |ts| && forall i :: 0 <= i < |ts| ==> ps[i] == Pair(ts[i], o)
  {
    seq(|ts|, i requires 0 <= i < |ts| => Pair(ts[i], o))
  }

  ghost predicate AllInGrid(g: Grid, ds: seq<Pos>)
    requires WellFormed(g)
  {
    forall i :: 0 <= i < |ds| ==> InGrid(g, ds[i])
  }

  /** The claims of the first `i` disks of `ds`, disk by disk, each disk's in direction order. */
  function PairsUpTo(g: Grid, ds: seq<Pos>, i: nat): seq<Pair>
    requires WellFormed(g) && AllInGrid(g, ds) && i <= |ds|
  {
    if i == 0 then [] else PairsUpTo(g, ds, i - 1) + Tag(Claimable(g, ds[i - 1]), ds[i - 1])
  }

  /** The claims of all the disks `ds`. */
  function PairsOf(g: Grid, ds: seq<Pos>): seq<Pair>
    requires WellFormed(g) && AllInGrid(g, ds)
  {
    PairsUpTo(g, ds, |ds|)
  }

  /** One dictionary update of get_side_moves. */
  function Insert(gr: Groups, p: Pair): Groups {
    if p.target in gr.vals then Groups(gr.keys, gr.vals[p.target := gr.vals[p.target] + [p.origin]])
    else Groups(gr.keys + [p.target], gr.vals[p.target := [p.origin]])
  }

  /** The dictionary after all the updates of `ps`, in order. */
  function GroupAll(ps: seq<Pair>): Groups {
    if |ps| == 0 then Groups([], map[]) else Insert(GroupAll(ps[..|ps| - 1]), ps[|ps| - 1])
  }

  /** Keys are distinct, they are exactly the dictionary's keys, and no value is empty. */
  ghost predicate GroupsValid(gr: Groups) {
    (forall i, j :: 0 <= i < j < |gr.keys| ==> gr.keys[i] != gr.keys[j]) &&
    (forall t :: t in gr.vals <==> t in gr.keys) &&
    (forall t :: t in gr.vals ==> gr.vals[t] != [])
  }

  /** The list get_side_moves returns for a dictionary. */
  function ToMoves(gr: Groups): seq<Action>
    requires forall t :: t in gr.keys ==> t in gr.vals
  {
    if |gr.keys| == 0 then [Pass]
    else seq(|gr.keys|, i requires 0 <= i < |gr.keys| => Capture(gr.keys[i], gr.vals[gr.keys[i]]))
  }

  /** The result of get_side_moves. */
  function SideMoves(g: Grid, side: int): seq<Action>
    requires WellFormed(g)
  {
    SideDisksInGrid(g, side);
    var gr := GroupAll(PairsOf(g, SideDisks(g, side)));
    GroupAllMeaning(PairsOf(g, SideDisks(g, side)));
    ToMoves(gr)
  }

  lemma {:induction false} GroupAllMeaning(ps: seq<Pair>)
    ensures GroupsValid(GroupAll(ps))
    ensures |GroupAll(ps).keys| == 0 <==> |ps| == 0
    ensures forall t, o :: t in GroupAll(ps).vals && o in GroupAll(ps).vals[t] <==> Pair(t, o) in ps
  {
    if |ps| > 0 {
      var init := ps[..|ps| - 1];
      var last := ps[|ps| - 1];
      GroupAllMeaning(init);
      assert ps == init + [last];
      var gr := GroupAll(init);
      var gr' := GroupAll(ps);
      assert gr' == Insert(gr, last);
      if last.target !in gr.vals {
        assert forall i :: 0 <= i < |gr.keys| ==> gr.keys[i] != last.target;
      }
      forall t, o ensures t in gr'.vals && o in gr'.vals[t] <==> Pair(t, o) in ps {
        assert Pair(t, o) in ps <==> Pair(t, o) in init || Pair(t, o) == last;
      }
    }
  }

  /** `o` is among the first `i` disks of `ds`. */
  ghost predicate AmongFirst(ds: seq<Pos>, i: nat, o: Pos) {
    exists k :: 0 <= k < i && k < |ds| && ds[k] == o
  }

  lemma {:induction false} PairsUpToMeaning(g: Grid, ds: seq<Pos>, i: nat, t: Pos, o: Pos)
    requires WellFormed(g) && AllInGrid(g, ds) && i <= |ds|
    ensures Pair(t, o) in PairsUpTo(g, ds, i) <==> AmongFirst(ds, i, o) && t in Claimable(g, o)
  {
    if i > 0 {
      PairsUpToMeaning(g, ds, i - 1, t, o);
      var tagged := Tag(Claimable(g, ds[i - 1]), ds[i - 1]);
      assert Pair(t, o) in tagged <==> o == ds[i - 1] && t in Claimable(g, o);
      assert AmongFirst(ds, i, o) <==> AmongFirst(ds, i - 1, o) || ds[i - 1] == o;
    }
  }

  lemma PairsOfMeaning(g: Grid, ds: seq<Pos>, t: Pos, o: Pos)
    requires WellFormed(g) && AllInGrid(g, ds)
    ensures Pair(t, o) in PairsOf(g, ds) <==> o in ds && t in Claimable(g, o)
  {
    PairsUpToMeaning(g, ds, |ds|, t, o);
    assert AmongFirst(ds, |ds|, o) <==> o in ds;
  }

  lemma {:induction false} PairsUpToEmpty(g: Grid, ds: seq<Pos>, i: nat)
    requires WellFormed(g) && AllInGrid(g, ds) && i <= |ds|
    ensures |PairsUpTo(g, ds, i)| == 0 <==> forall k :: 0 <= k < i ==> |Claimable(g, ds[k])| == 0
  {
    if i > 0 {
      PairsUpToEmpty(g, ds, i - 1);
      var last := |Claimable(g, ds[i - 1])|;
      assert |PairsUpTo(g, ds, i)| == |PairsUpTo(g, ds, i - 1)| + last;
      if |PairsUpTo(g, ds, i)| == 0 {
        forall k | 0 <= k < i ensures |Claimable(g, ds[k])| == 0 {
          if k < i - 1 {
            assert |Claimable(g, ds[k])| == 0;
          }
        }
      }
    }
  }

  // ---------------------------------------------------------------- properties of the moves

  /** The list is never empty: it is `[Pass]` or consists of captures only. */
  lemma SideMovesShape(g: Grid, side: int)
    requires WellFormed(g)
    ensures SideMoves(g, side) != []
    ensures SideMoves(g, side) == [Pass] || forall i :: 0 <= i < |SideMoves(g, side)| ==> SideMoves(g, side)[i].Capture?
  {
  }

  lemma ToMovesPass(gr: Groups)
    requires forall t :: t in gr.keys ==> t in gr.vals
    ensures ToMoves(gr) == [Pass] <==> |gr.keys| == 0
  {
    if |gr.keys| > 0 {
      assert ToMoves(gr)[0].Capture?;
    }
  }

  /** Every disk in the list of `side`'s disks claims nothing iff every disk of `side` does. */
  lemma DisksClaimNothing(g: Grid, side: int)
    requires WellFormed(g)
    ensures AllInGrid(g, SideDisks(g, side))
    ensures (forall i :: 0 <= i < |SideDisks(g, side)| ==> |Claimable(g, SideDisks(g, side)[i])| == 0) <==>
            forall o :: InGrid(g, o) && Cell(g, o) == side ==> Claimable(g, o) == []
  {
    SideDisksInGrid(g, side);
    var ds := SideDisks(g, side);
    if forall i :: 0 <= i < |ds| ==> |Claimable(g, ds[i])| == 0 {
      forall o | InGrid(g, o) && Cell(g, o) == side ensures Claimable(g, o) == [] {
        SideDisksMeaning(g, side, o);
        var i :| 0 <= i < |ds| && ds[i] == o;
      }
    } else {
      var i :| 0 <= i < |ds| && |Claimable(g, ds[i])| != 0;
      SideDisksMeaning(g, side, ds[i]);
    }
  }

  /** The pass sentinel is returned exactly when no disk of `side` claims anything. */
  lemma SideMovesPass(g: Grid, side: int)
    requires WellFormed(g)
    ensures SideMoves(g, side) == [Pass] <==>
            forall o :: InGrid(g, o) && Cell(g, o) == side ==> Claimable(g, o) == []
  {
    SideMovesUnfold(g, side);
    var ds := SideDisks(g, side);
    var ps := PairsOf(g, ds);
    assert SideMoves(g, side) == [Pass] <==> |ps| == 0 by {
      GroupAllMeaning(ps);
      ToMovesPass(GroupAll(ps));
    }
    assert |ps| == 0 <==> forall i :: 0 <= i < |ds| ==> |Claimable(g, ds[i])| == 0 by {
      PairsUpToEmpty(g, ds, |ds|);
    }
    DisksClaimNothing(g, side);
  }

  /**
   * Every capture has a non-empty list of origins, each a disk of `side` that claims the
   * target, and no two captures share a target.
   */
  lemma SideMovesSound(g: Grid, side: int)
    requires WellFormed(g)
    ensures forall i :: 0 <= i < |SideMoves(g, side)| && SideMoves(g, side)[i].Capture? ==>
      var m := SideMoves(g, side)[i];
      m.origins != [] &&
      forall o :: o in m.origins ==> InGrid(g, o) && Cell(g, o) == side && Claims(g, o, m.target)
    ensures forall i, j :: 0 <= i < j < |SideMoves(g, side)| && SideMoves(g, side)[i].Capture? ==>
      SideMoves(g, side)[j].Capture? && SideMoves(g, side)[i].target != SideMoves(g, side)[j].target
  {
    SideDisksInGrid(g, side);
    var ds := SideDisks(g, side);
    var ps := PairsOf(g, ds);
    GroupAllMeaning(ps);
    var gr := GroupAll(ps);
    var ms := SideMoves(g, side);
    forall i | 0 <= i < |ms| && ms[i].Capture?
      ensures ms[i].origins != [] &&
              forall o :: o in ms[i].origins ==> InGrid(g, o) && Cell(g, o) == side && Claims(g, o, ms[i].target)
    {
      assert |gr.keys| > 0 && ms[i] == Capture(gr.keys[i], gr.vals[gr.keys[i]]);
      var t := gr.keys[i];
      forall o | o in ms[i].origins ensures InGrid(g, o) && Cell(g, o) == side && Claims(g, o, t) {
        assert Pair(t, o) in ps;
        PairsOfMeaning(g, ds, t, o);
        SideDisksMeaning(g, side, o);
        ClaimableMeaning(g, o, t);
      }
    }
  }

  /** Every claim of every disk of `side` shows up: its target is a move listing that disk. */
  lemma SideMovesComplete(g: Grid, side: int, o: Pos, t: Pos)
    requires WellFormed(g) && InGrid(g, o) && Cell(g, o) == side && Claims(g, o, t)
    ensures exists i :: 0 <= i < |SideMoves(g, side)| && SideMoves(g, side)[i].Capture? &&
                        SideMoves(g, side)[i].target == t && o in SideMoves(g, side)[i].origins
  {
    SideDisksInGrid(g, side);
    var ds := SideDisks(g, side);
    var ps := PairsOf(g, ds);
    GroupAllMeaning(ps);
    var gr := GroupAll(ps);
    SideDisksMeaning(g, side, o);
    ClaimableMeaning(g, o, t);
    PairsOfMeaning(g, ds, t, o);
    var i :| 0 <= i < |gr.keys| && gr.keys[i] == t;
    assert SideMoves(g, side)[i] == Capture(t, gr.vals[t]);
  }

  /** A direction whose first neighbour is not an opposing disk claims nothing. */
  lemma ClaimInBlocked(g: Grid, src: Pos, d: Pos)
    requires WellFormed(g) && InGrid(g, src) && IsUnit(d)
    requires !(InGrid(g, Pos(src.r + d.r, src.c + d.c)) && Cell(g, Pos(src.r + d.r, src.c + d.c)) == 3 - Cell(g, src))
    ensures ClaimIn(g, src, d) == []
  {
  }

  /** One opposing disk followed by an empty cell: that cell is claimed. */
  lemma ClaimInJump(g: Grid, src: Pos, d: Pos)
    requires WellFormed(g) && InGrid(g, src) && IsUnit(d)
    requires InGrid(g, Pos(src.r + d.r, src.c + d.c)) && Cell(g, Pos(src.r + d.r, src.c + d.c)) == 3 - Cell(g, src)
    requires InGrid(g, Pos(src.r + d.r + d.r, src.c + d.c + d.c)) && Cell(g, Pos(src.r + d.r + d.r, src.c + d.c + d.c)) == 0
    ensures ClaimIn(g, src, d) == [Pos(src.r + d.r + d.r, src.c + d.c + d.c)]
  {
    var other := 3 - Cell(g, src);
    var e := Pos(src.r + d.r + d.r, src.c + d.c + d.c);
    assert RunEnd(g, e, d, other) == e;
    assert RunEnd(g, Pos(src.r + d.r, src.c + d.c), d, other) == e;
  }

  lemma ClaimsUpToStep(g: Grid, src: Pos, k: nat)
    requires WellFormed(g) && InGrid(g, src) && k < |Directions|
    ensures ClaimsUpTo(g, src, k + 1) == ClaimsUpTo(g, src, k) + ClaimIn(g, src, Directions[k])
  {
  }

  /** The scan past direction `k` adds nothing when its first neighbour `n` is not an opposing disk. */
  lemma BlockedStep(g: Grid, src: Pos, k: nat, prev: seq<Pos>, n: Pos)
    requires WellFormed(g) && InGrid(g, src) && k < |Directions| && ClaimsUpTo(g, src, k) == prev
    requires n == Pos(src.r + Directions[k].r, src.c + Directions[k].c) && !(InGrid(g, n) && Cell(g, n) == 3 - Cell(g, src))
    ensures ClaimsUpTo(g, src, k + 1) == prev
  {
    DirectionsAreUnits();
    ClaimInBlocked(g, src, Directions[k]);
    ClaimsUpToStep(g, src, k);
  }

  /** The scan past direction `k` adds the empty cell `t` just beyond one opposing disk `n`. */
  lemma JumpStep(g: Grid, src: Pos, k: nat, prev: seq<Pos>, n: Pos, t: Pos)
    requires WellFormed(g) && InGrid(g, src) && k < |Directions| && ClaimsUpTo(g, src, k) == prev
    requires n == Pos(src.r + Directions[k].r, src.c + Directions[k].c) && InGrid(g, n) && Cell(g, n) == 3 - Cell(g, src)
    requires t == Pos(n.r + Directions[k].r, n.c + Directions[k].c) && InGrid(g, t) && Cell(g, t) == 0
    ensures ClaimsUpTo(g, src, k + 1) == prev + [t]
  {
    DirectionsAreUnits();
    ClaimInJump(g, src, Directions[k]);
    ClaimsUpToStep(g, src, k);
  }

  lemma DefaultClaims()
    ensures WellFormed(DefaultGrid)
    ensures Claimable(DefaultGrid, Pos(2, 3)) == [Pos(4, 3), Pos(2, 1)]
    ensures Claimable(DefaultGrid, Pos(3, 2)) == [Pos(3, 4), Pos(1, 2)]
  {
    DefaultGridWellFormed();
    var g := DefaultGrid;
    assert OpeningCells(g);
    OpeningClaimsA(g);
    OpeningClaimsB(g);
  }

  /** The cells of the opening grid that the scans from its two disks of side 2 look at. */
  predicate OpeningCells(g: Grid) {
    WellFormed(g) && |g| == 6 && |g[0]| == 6 &&
    g[1][2] == 0 && g[1][3] == 0 && g[1][4] == 0 &&
    g[2][1] == 0 && g[2][2] == 1 && g[2][3] == 2 && g[2][4] == 0 &&
    g[3][1] == 0 && g[3][2] == 2 && g[3][3] == 1 && g[3][4] == 0 &&
    g[4][1] == 0 && g[4][2] == 0 && g[4][3] == 0
  }

  lemma OpeningCellsListed(g: Grid)
    requires OpeningCells(g)
    ensures Cell(g, Pos(1, 2)) == 0 && Cell(g, Pos(1, 3)) == 0 && Cell(g, Pos(1, 4)) == 0
    ensures Cell(g, Pos(2, 1)) == 0 && Cell(g, Pos(2, 2)) == 1 && Cell(g, Pos(2, 3)) == 2 && Cell(g, Pos(2, 4)) == 0
    ensures Cell(g, Pos(3, 1)) == 0 && Cell(g, Pos(3, 2)) == 2 && Cell(g, Pos(3, 3)) == 1 && Cell(g, Pos(3, 4)) == 0
    ensures Cell(g, Pos(4, 1)) == 0 && Cell(g, Pos(4, 2)) == 0 && Cell(g, Pos(4, 3)) == 0
  {
  }

  /** The scan from the disk at (2, 3) of the opening grid, direction by direction. */
  lemma OpeningClaimsA(g: Grid)
    requires OpeningCells(g)
    ensures Claimable(g, Pos(2, 3)) == [Pos(4, 3), Pos(2, 1)]
  {
    OpeningClaimsAFirst(g);
    OpeningClaimsALast(g);
  }

  lemma OpeningClaimsAFirst(g: Grid)
    requires OpeningCells(g)
    ensures ClaimsUpTo(g, Pos(2, 3), 4) == [Pos(4, 3), Pos(2, 1)]
  {
    DirectionsListed();
    OpeningCellsListed(g);
    var a := Pos(2, 3);
    BlockedStep(g, a, 0, [], Pos(2, 4));
    JumpStep(g, a, 1, [], Pos(3, 3), Pos(4, 3));
    BlockedStep(g, a, 2, [] + [Pos(4, 3)], Pos(3, 4));
    JumpStep(g, a, 3, [] + [Pos(4, 3)], Pos(2, 2), Pos(2, 1));
    assert [] + [Pos(4, 3)] + [Pos(2, 1)] == [Pos(4, 3), Pos(2, 1)];
  }

  lemma OpeningClaimsALast(g: Grid)
    requires OpeningCells(g) && ClaimsUpTo(g, Pos(2, 3), 4) == [Pos(4, 3), Pos(2, 1)]
    ensures Claimable(g, Pos(2, 3)) == [Pos(4, 3), Pos(2, 1)]
  {
    DirectionsListed();
    OpeningCellsListed(g);
    var a := Pos(2, 3);
    BlockedStep(g, a, 4, [Pos(4, 3), Pos(2, 1)], Pos(1, 3));
    BlockedStep(g, a, 5, [Pos(4, 3), Pos(2, 1)], Pos(1, 2));
    BlockedStep(g, a, 6, [Pos(4, 3), Pos(2, 1)], Pos(3, 2));
    BlockedStep(g, a, 7, [Pos(4, 3), Pos(2, 1)], Pos(1, 4));
  }

  /** The scan from the disk at (3, 2) of the opening grid, direction by direction. */
  lemma OpeningClaimsB(g: Grid)
    requires OpeningCells(g)
    ensures Claimable(g, Pos(3, 2)) == [Pos(3, 4), Pos(1, 2)]
  {
    OpeningClaimsBFirst(g);
    OpeningClaimsBLast(g);
  }

  lemma OpeningClaimsBFirst(g: Grid)
    requires OpeningCells(g)
    ensures ClaimsUpTo(g, Pos(3, 2), 4) == [Pos(3, 4)]
  {
    DirectionsListed();
    OpeningCellsListed(g);
    var b := Pos(3, 2);
    JumpStep(g, b, 0, [], Pos(3, 3), Pos(3, 4));
    BlockedStep(g, b, 1, [] + [Pos(3, 4)], Pos(4, 2));
    BlockedStep(g, b, 2, [] + [Pos(3, 4)], Pos(4, 3));
    BlockedStep(g, b, 3, [] + [Pos(3, 4)], Pos(3, 1));
    assert [] + [Pos(3, 4)] == [Pos(3, 4)];
  }

  lemma OpeningClaimsBLast(g: Grid)
    requires OpeningCells(g) && ClaimsUpTo(g, Pos(3, 2), 4) == [Pos(3, 4)]
    ensures Claimable(g, Pos(3, 2)) == [Pos(3, 4), Pos(1, 2)]
  {
    DirectionsListed();
    OpeningCellsListed(g);
    var b := Pos(3, 2);
    JumpStep(g, b, 4, [Pos(3, 4)], Pos(2, 2), Pos(1, 2));
    BlockedStep(g, b, 5, [Pos(3, 4)] + [Pos(1, 2)], Pos(2, 1));
    BlockedStep(g, b, 6, [Pos(3, 4)] + [Pos(1, 2)], Pos(4, 1));
    BlockedStep(g, b, 7, [Pos(3, 4)] + [Pos(1, 2)], Pos(2, 3));
    assert [Pos(3, 4)] + [Pos(1, 2)] == [Pos(3, 4), Pos(1, 2)];
  }

  const DefaultPairs: seq<Pair> :=
    [Pair(Pos(4, 3), Pos(2, 3)), Pair(Pos(2, 1), Pos(2, 3)), Pair(Pos(3, 4), Pos(3, 2)), Pair(Pos(1, 2), Pos(3, 2))]

  lemma {:induction false} RowDisksNone(g: Grid, side: int, i: int, j: nat)
    requires 0 <= i < |g| && j <= |g[i]| && forall c :: 0 <= c < j ==> g[i][c] != side
    ensures RowDisks(g, side, i, j) == []
  {
    if j > 0 {
      RowDisksNone(g, side, i, j - 1);
    }
  }

  lemma {:induction false} RowDisksOnly(g: Grid, side: int, i: int, j: nat, c: nat)
    requires 0 <= i < |g| && c < j <= |g[i]| && g[i][c] == side
    requires forall c' :: 0 <= c' < j && c' != c ==> g[i][c'] != side
    ensures RowDisks(g, side, i, j) == [Pos(i, c)]
  {
    if j - 1 == c {
      RowDisksNone(g, side, i, j - 1);
    } else {
      RowDisksOnly(g, side, i, j - 1, c);
    }
  }

  lemma DefaultDisks()
    ensures SideDisks(DefaultGrid, 2) == [Pos(2, 3), Pos(3, 2)]
    ensures SideDisks(DefaultGrid, 1) == [Pos(2, 2), Pos(3, 3)]
  {
    OpeningDisks(DefaultGrid, 2, 3, 2);
    OpeningDisks(DefaultGrid, 1, 2, 3);
  }

  /** In the opening position each side has one disk in row 2 (column `c2`) and one in row 3 (column `c3`). */
  lemma OpeningDisks(g: Grid, side: int, c2: nat, c3: nat)
    requires g == DefaultGrid && ((side == 2 && c2 == 3 && c3 == 2) || (side == 1 && c2 == 2 && c3 == 3))
    ensures SideDisks(g, side) == [Pos(2, c2), Pos(3, c3)]
  {
    assert |g| == 6 && forall i :: 0 <= i < 6 ==> |g[i]| == 6;
    RowDisksNone(g, side, 0, 6);
    RowDisksNone(g, side, 1, 6);
    RowDisksOnly(g, side, 2, 6, c2);
    RowDisksOnly(g, side, 3, 6, c3);
    RowDisksNone(g, side, 4, 6);
    RowDisksNone(g, side, 5, 6);
    assert DisksBefore(g, side, 2) == [];
    assert DisksBefore(g, side, 3) == [Pos(2, c2)];
    assert DisksBefore(g, side, 4) == [Pos(2, c2), Pos(3, c3)];
    assert DisksBefore(g, side, 6) == [Pos(2, c2), Pos(3, c3)];
  }

  lemma PairsOfTwo(g: Grid, a: Pos, b: Pos)
    requires WellFormed(g) && InGrid(g, a) && InGrid(g, b)
    ensures AllInGrid(g, [a, b])
    ensures PairsOf(g, [a, b]) == Tag(Claimable(g, a), a) + Tag(Claimable(g, b), b)
  {
    assert PairsUpTo(g, [a, b], 1) == Tag(Claimable(g, a), a);
  }

  lemma SideMovesUnfold(g: Grid, side: int)
    requires WellFormed(g)
    ensures AllInGrid(g, SideDisks(g, side))
    ensures GroupsValid(GroupAll(PairsOf(g, SideDisks(g, side))))
    ensures SideMoves(g, side) == ToMoves(GroupAll(PairsOf(g, SideDisks(g, side))))
  {
    SideDisksInGrid(g, side);
    GroupAllMeaning(PairsOf(g, SideDisks(g, side)));
  }

  lemma GroupsSize(gr: Groups)
    requires GroupsValid(gr)
    ensures |gr.vals| > 0 <==> |gr.keys| > 0
  {
    if |gr.keys| > 0 {
      assert gr.keys[0] in gr.vals;
    } else {
      assert gr.vals == map[];
    }
  }

  lemma DefaultPairsOf()
    ensures WellFormed(DefaultGrid) && AllInGrid(DefaultGrid, SideDisks(DefaultGrid, 2))
    ensures PairsOf(DefaultGrid, SideDisks(DefaultGrid, 2)) == DefaultPairs
  {
    DefaultGridWellFormed();
    DefaultDisks();
    PairsOfTwo(DefaultGrid, Pos(2, 3), Pos(3, 2));
    DefaultClaims();
  }

  lemma DefaultGroups()
    ensures GroupAll(DefaultPairs) == Groups([Pos(4, 3), Pos(2, 1), Pos(3, 4), Pos(1, 2)],
      map[Pos(4, 3) := [Pos(2, 3)], Pos(2, 1) := [Pos(2, 3)], Pos(3, 4) := [Pos(3, 2)], Pos(1, 2) := [Pos(3, 2)]])
  {
    var ps := DefaultPairs;
    assert ps[..1][..0] == [] && ps[..2][..1] == ps[..1] && ps[..3][..2] == ps[..2] && ps[..|ps| - 1] == ps[..3];
    assert GroupAll(ps[..1]) == Groups([Pos(4, 3)], map[Pos(4, 3) := [Pos(2, 3)]]);
    assert GroupAll(ps[..2]) == Groups([Pos(4, 3), Pos(2, 1)], map[Pos(4, 3) := [Pos(2, 3)], Pos(2, 1) := [Pos(2, 3)]]);
    assert GroupAll(ps[..3]) == Groups([Pos(4, 3), Pos(2, 1), Pos(3, 4)],
      map[Pos(4, 3) := [Pos(2, 3)], Pos(2, 1) := [Pos(2, 3)], Pos(3, 4) := [Pos(3, 2)]]);
  }

  /**
   * From the opening position, side 2 has four moves: (4,3) and (2,1) anchored by (2,3),
   * then (3,4) and (1,2) anchored by (3,2).
   */
  lemma DefaultMoves()
    ensures WellFormed(DefaultGrid)
    ensures SideMoves(DefaultGrid, 2) ==
      [Capture(Pos(4, 3), [Pos(2, 3)]), Capture(Pos(2, 1), [Pos(2, 3)]),
       Capture(Pos(3, 4), [Pos(3, 2)]), Capture(Pos(1, 2), [Pos(3, 2)])]
  {
    DefaultPairsOf();
    DefaultGroups();
    SideMovesUnfold(DefaultGrid, 2);
    DefaultToMoves();
  }

  /** The list built from the opening position's dictionary. */
  lemma DefaultToMoves()
    ensures ToMoves(Groups([Pos(4, 3), Pos(2, 1), Pos(3, 4), Pos(1, 2)],
      map[Pos(4, 3) := [Pos(2, 3)], Pos(2, 1) := [Pos(2, 3)], Pos(3, 4) := [Pos(3, 2)], Pos(1, 2) := [Pos(3, 2)]])) ==
      [Capture(Pos(4, 3), [Pos(2, 3)]), Capture(Pos(2, 1), [Pos(2, 3)]),
       Capture(Pos(3, 4), [Pos(3, 2)]), Capture(Pos(1, 2), [Pos(3, 2)])]
  {
  }

  // ---------------------------------------------------------------- the source's loops

  /** get_side_disks: a row-major scan of the grid. */
  method GetSideDisks(g: Grid, side: int) returns (disks: seq<Pos>)
    ensures disks == SideDisks(g, side)
  {
    disks := [];
    for i := 0 to |g|
      invariant disks == DisksBefore(g, side, i)
    {
      for j := 0 to |g[i]|
        invariant disks == DisksBefore(g, side, i) + RowDisks(g, side, i, j)
      {
        if g[i][j] == side {
          disks := disks + [Pos(i, j)];
        }
      }
    }
  }

  lemma GroupStep(before: seq<Pair>, ts: seq<Pos>, j: nat, o: Pos)
    requires j < |ts|
    ensures GroupAll(before + Tag(ts[..j + 1], o)) == Insert(GroupAll(before + Tag(ts[..j], o)), Pair(ts[j], o))
  {
    var xs := before + Tag(ts[..j], o);
    assert before + Tag(ts[..j + 1], o) == xs + [Pair(ts[j], o)];
    assert (xs + [Pair(ts[j], o)])[..|xs|] == xs;
  }

  /** The inner loop of get_side_moves: file every target of `diskMoves` under `coord`. */
  method AddClaims(keys: seq<Pos>, moves: map<Pos, seq<Pos>>, coord: Pos, diskMoves: seq<Pos>,
                   ghost before: seq<Pair>)
    returns (keys': seq<Pos>, moves': map<Pos, seq<Pos>>)
    requires Groups(keys, moves) == GroupAll(before)
    ensures Groups(keys', moves') == GroupAll(before + Tag(diskMoves, coord))
  {
    keys', moves' := keys, moves;
    assert before + Tag(diskMoves[..0], coord) == before;
    for j := 0 to |diskMoves|
      invariant Groups(keys', moves') == GroupAll(before + Tag(diskMoves[..j], coord))
    {
      var move := diskMoves[j];
      GroupStep(before, diskMoves, j, coord);
      if move !in moves' {
        moves' := moves'[move := [coord]];
        keys' := keys' + [move];
      } else {
        moves' := moves'[move := moves'[move] + [coord]];
      }
    }
    assert diskMoves[..|diskMoves|] == diskMoves;
  }

  /** The list built from the finished dictionary, one capture per key in insertion order. */
  method MovesOf(keys: seq<Pos>, moves: map<Pos, seq<Pos>>) returns (sideMoves: seq<Action>)
    requires GroupsValid(Groups(keys, moves))
    ensures sideMoves == ToMoves(Groups(keys, moves))
  {
    GroupsSize(Groups(keys, moves));
    sideMoves := [Pass];
    if |moves| > 0 {
      sideMoves := [];
      for k := 0 to |keys|
        invariant |sideMoves| == k
        invariant forall j :: 0 <= j < k ==> sideMoves[j] == Capture(keys[j], moves[keys[j]])
      {
        sideMoves := sideMoves + [Capture(keys[k], moves[keys[k]])];
      }
    }
  }

  /** get_side_moves: group the claims of every disk of `side` by target. */
  method GetSideMoves(g: Grid, side: int) returns (sideMoves: seq<Action>)
    requires WellFormed(g)
    ensures sideMoves == SideMoves(g, side)
  {
    var disks := GetSideDisks(g, side);
    SideMovesUnfold(g, side);
    var keys: seq<Pos> := [];
    var moves: map<Pos, seq<Pos>> := map[];
    for i := 0 to |disks|
      invariant Groups(keys, moves) == GroupAll(PairsUpTo(g, disks, i))
    {
      var diskMoves := GetClaimablePositionsFrom(g, disks[i]);
      keys, moves := AddClaims(keys, moves, disks[i], diskMoves, PairsUpTo(g, disks, i));
    }
    sideMoves := MovesOf(keys, moves);
  }
}
