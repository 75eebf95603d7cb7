# Othello rules engine and Monte Carlo tree search, in Dafny

This project models two Python modules:

- `othello_rules.py`, the rules engine of a 6 x 6 Othello game;
- `othello_mcts.py`, the Monte Carlo tree search (MCTS) that plays the game with it.

It proves what these modules promise about their results.

**Rules engine.** A grid is a list of rows of cells. A cell holds 0 (empty), 1 or 2 (the two sides).

- The capture scan (`get_claimable_positions_from`, `position_can_claim`) walks the eight directions from a disk. A direction yields a claimable position when it passes over a run of opposing disks and reaches an empty cell.
- `get_side_moves` groups the claims of every disk of a side by target. When nothing can be claimed it returns the single pass sentinel (`None`, here `Pass`).
- `apply_move` sets the target and walks from the target towards each origin, turning over the cells in between. A pass only records the skip.
- `State.move` plays an action on a copy and hands the turn to the other side.
- The game is over when a pass follows a pass.
- `get_winning_side` compares the disk counts from the perspective of a fixed `master_side`.

**Search.** The search tree is an arena: node `i` of `SearchTree.nodes` is one `MonteCarloTreeSearchNode`. Parent and child links are indices into the arena. Each node holds:

- its `State` object;
- its children in expansion order;
- its visit count;
- its result tally;
- the legal actions it has not tried yet, which `expand` pops from the end.

`Rollout`, `TreePolicy` and `BestAction` are the source's loops. The rollout policy is a choice of any legal move.

**Modules.**

- `Board` (board.dfy): grids, positions, the eight directions, the sets of cells that hold a value, and the opening grid.
- `Scan` (scan.dfy): the capture scan. The functions `ClaimIn`/`Claimable` are the specification, and the methods are the source's loops.
- `Moves` (moves.dfy): the side's disks in row-major order, and the dictionary built by `get_side_moves`. The dictionary is `Groups`: its keys in insertion order, plus a map.
- `Capture` (capture.dfy): what a move does to the grid (`Applied`), and the exact changes in disk counts for generated captures.
- `Rules` (rules.dfy): the `State` class, `apply_move` in place, the end-of-game test, the result, and the termination measure.
- `Mcts` (mcts.dfy): nodes, the arena invariants and the `SearchTree` class.

Positions step as `Pos(p.r + d.r, p.c + d.c)`, as the source adds numpy vectors.

**Facts about the code that the model records:**

- From the opening position side 2 has four moves: (4,3) and (2,1) from (2,3), then (3,4) and (1,2) from (3,2) (`Moves.DefaultMoves`).
- The code raises no errors of its own. It does not reject an invalid move, a finished game or an illegal state. Where the Python would fail, the model has a precondition:
  - popping an empty list;
  - an argmax over no children;
  - a division by a zero visit count;
  - a capture origin off every line through the target. The walk of apply_move then misses the origin, leaves the grid, wraps through negative indices while overwriting cells, and raises `IndexError` within about twice the board size in steps.
- `game_result` is always from `master_side`'s perspective, never from the side to move.

## Model

| member | source | states |
|---|---|---|
| Board.SetCell | othello_rules.py:127 | Writing one cell changes that cell and no other, and keeps the grid's shape |
| Board.CellsMember | othello_rules.py:154-158 | A position is in the cell set of `v` exactly when it is an in-grid cell holding `v` |
| Board.DirectionsAreUnits | othello_rules.py:4-5 | The eight directions are exactly eight unit vectors, none of them zero |
| Board.InGridRow | othello_rules.py:79-80 | position_in_grid tests against the length of row 0; on a well-formed grid that is the test against the position's own row, and an empty grid holds no position |
| Board.DefaultGridWellFormed | othello_rules.py:10-15 | The default grid is a well-formed 6 x 6 grid |
| Scan.WalkRun | othello_rules.py:90-91 | The inner `while` stops at the first position that is not an in-grid cell holding the opposing side |
| Scan.ScanDirection | othello_rules.py:88-93 | One pass of the direction loop yields exactly the claim of that direction |
| Scan.GetClaimablePositionsFrom | othello_rules.py:83-94 | The claims of all eight directions, in the order of `DIRECTIONS` |
| Scan.PositionCanClaim | othello_rules.py:173-183 | True exactly when get_claimable_positions_from returns a non-empty list |
| Scan.RunEndSteps | othello_rules.py:90-91 | The walk stops after `n` steps, every one of which was over an opposing in-grid disk |
| Scan.ClaimInMeaning | othello_rules.py:88-93 | A direction yields `t` iff `t` is `k >= 2` steps away on that line, is empty and in the grid, and every cell strictly between holds the opposing side |
| Scan.ClaimInSound | othello_rules.py:88-93 | What a direction yields lies on such a line |
| Scan.ClaimInComplete | othello_rules.py:88-93 | The end of such a line is yielded |
| Scan.ClaimsUpToMeaning | othello_rules.py:87-93 | The claims of the first `n` directions are the union of their claims |
| Scan.ClaimableSound | othello_rules.py:83-94 | Every returned position is an in-grid empty cell at the end of a line of opposing disks from the source |
| Scan.ClaimableComplete | othello_rules.py:83-94 | Every such position is returned |
| Scan.ClaimableMeaning | othello_rules.py:83-94 | The returned positions are exactly those claimable in the geometric sense (both directions) |
| Scan.ClaimableIsEmpty | othello_rules.py:79-94 | A claimable position is inside the grid and empty |
| Scan.EmptyClaimsNothing | othello_rules.py:84-85 | An empty source cell claims nothing, since no cell holds the side 3 it would need |
| Scan.ClaimsNonEmptyAfter | othello_rules.py:176-183 | Once some direction has yielded a claim, the whole scan is non-empty, which justifies the early `return True` |
| Moves.GetSideDisks | othello_rules.py:97-103 | The row-major loops build exactly the list `SideDisks` |
| Moves.RowDisksMeaning | othello_rules.py:100-102 | The disks found in a row prefix are exactly the cells of that prefix holding the side |
| Moves.DisksBeforeMeaning | othello_rules.py:99-102 | The disks found in the first `i` rows are exactly the cells of those rows holding the side |
| Moves.SideDisksMeaning | othello_rules.py:97-103 | get_side_disks lists exactly the cells holding the side |
| Moves.AddClaims | othello_rules.py:111-116 | The inner loop leaves the dictionary as grouping all the pairs seen so far |
| Moves.MovesOf | othello_rules.py:117-119 | The loop over the finished dictionary builds exactly `ToMoves` of it: one capture per key, in insertion order, each with that key's origins, or `[None]` when the dictionary is empty |
| Moves.GetSideMoves | othello_rules.py:106-120 | The method computes exactly `SideMoves` |
| Moves.GroupAllMeaning | othello_rules.py:108-116 | The dictionary has distinct keys and no empty value, has no keys iff there were no pairs, and lists origin `o` under `t` iff `(t, o)` was a pair |
| Moves.PairsUpToMeaning | othello_rules.py:109-111 | The pairs of the first `i` disks are exactly the (claim, disk) pairs of those disks |
| Moves.PairsOfMeaning | othello_rules.py:109-111 | `(t, o)` is a pair iff `o` is one of the disks and claims `t` |
| Moves.PairsUpToEmpty | othello_rules.py:109-118 | No pairs iff none of the first `i` disks claims anything |
| Moves.SideMovesShape | othello_rules.py:117-120 | The move list is never empty: it is `[None]` or captures only |
| Moves.ToMovesPass | othello_rules.py:117-120 | The sentinel is returned iff the dictionary is empty |
| Moves.DisksClaimNothing | othello_rules.py:97-110 | Every listed disk claims nothing iff every disk of the side claims nothing |
| Moves.SideMovesPass | othello_rules.py:106-120 | get_side_moves returns `[None]` iff no disk of the side has a claimable position |
| Moves.SideMovesSound | othello_rules.py:106-120 | Every capture has a non-empty origin list of disks of the side that each claim its target, and no two captures share a target |
| Moves.SideMovesComplete | othello_rules.py:106-120 | Every claim of every disk of the side is a listed move naming that disk among its origins |
| Moves.ClaimInBlocked | othello_rules.py:88-89 | A direction whose neighbour is not an opposing disk yields nothing |
| Moves.ClaimInJump | othello_rules.py:88-93 | One opposing disk followed by an empty cell yields that cell |
| Moves.DefaultClaims | othello_rules.py:83-94 | From the opening grid, (2,3) claims (4,3) then (2,1), and (3,2) claims (3,4) then (1,2) |
| Moves.DefaultDisks | othello_rules.py:97-103 | In the opening grid side 2 holds (2,3), (3,2) and side 1 holds (2,2), (3,3), in that order |
| Moves.DefaultMoves | othello_rules.py:106-120 | From the default state side 2 has exactly the four moves (4,3), (2,1) from (2,3) and (3,4), (1,2) from (3,2), in that order |
| Capture.Applied | othello_rules.py:123-144 | After a move each cell holds the mover's side if the capture marks it (the target, or strictly between the target and an origin), and otherwise its old value; a pass changes nothing |
| Capture.DistAt | othello_rules.py:129-139 | Walking `j` unit steps is at distance `j`, and the clamped direction back is the step |
| Capture.AlignedReach | othello_rules.py:129-142 | An aligned origin is reached from the target by steps of the clamped direction, after the distance many |
| Capture.WalkInGrid | othello_rules.py:139-142 | The walk towards an in-grid aligned origin stays inside the grid |
| Capture.WalkStep | othello_rules.py:140-142 | One more step of the walk adds exactly the cell it stands on |
| Capture.WalkDone | othello_rules.py:140 | When the walk stands on the origin it has set exactly the cells strictly between |
| Capture.LineGeometry | othello_rules.py:129-139 | A line found by the scan, read back from the target, leads to the origin in the opposite direction |
| Capture.GeneratedOrigins | othello_rules.py:106-120 | Every capture listed by get_side_moves sandwiches: it has origins, and each is a disk of the side claiming the target |
| Capture.GeneratedTarget | othello_rules.py:89-93 | The target of such a capture is empty and in the grid, and the capture can be applied |
| Capture.GeneratedCapture | othello_rules.py:127-142 | Every other cell it marks is an in-grid disk of the opponent |
| Capture.GeneratedBetween | othello_rules.py:139-142 | A cell strictly between the target and one origin is an opponent's disk |
| Capture.GeneratedApplicable | othello_rules.py:106-144 | Every generated move, the pass included, can be applied: its walks meet their origins |
| Capture.FlippedMember | othello_rules.py:139-142 | The flipped cells are the in-grid marked cells other than the target |
| Capture.CaptureGainsAt | othello_rules.py:127-142 | Cell by cell, the mover's disks after a capture are its old disks, the target and the flipped cells, and these are disjoint |
| Capture.CaptureGains | othello_rules.py:127-142 | The mover's disk set becomes its old set plus the target plus the flipped cells, which are disjoint |
| Capture.CaptureLosses | othello_rules.py:139-142 | The opponent loses exactly the flipped cells, which were all its disks |
| Capture.CaptureFills | othello_rules.py:127 | Exactly one empty cell is filled: the target |
| Capture.CaptureCounts | othello_rules.py:127-142 | The mover gains 1 plus the number flipped, the opponent loses the number flipped (at least 1), and the empty count falls by 1 |
| Capture.CaptureOccupies | othello_rules.py:127-142 | The occupied count rises by exactly 1 |
| Capture.FlippedNonEmpty | othello_rules.py:139-142 | A generated capture turns over at least one disk |
| Rules.State.constructor | othello_rules.py:9-20 | With no grid, the opening 6 x 6 position; the fields take the given side, skip flag and perspective, defaulting to 2, false and 2 |
| Rules.State.GetLegalActions | othello_rules.py:22-29 | The legal actions are get_side_moves of the grid and the side to move |
| Rules.State.IsGameOver | othello_rules.py:31-38 | is_game_over of the grid, side and skip flag |
| Rules.State.GameResult | othello_rules.py:40-47 | The result from the perspective of `master_side` |
| Rules.State.Move | othello_rules.py:49-67 | A fresh state whose grid is the move applied to the old grid, with the other side to move, the skip flag set iff the action is a pass, and the same perspective; the receiver is unchanged |
| Rules.UnitDirection | othello_rules.py:129-138 | The difference of origin and target, each component clamped to one unit |
| Rules.FlipStep | othello_rules.py:140-142 | Each pass of the `while` is still short of the origin, stays inside the grid, and extends by one the cells the walk has set |
| Rules.FlipLine | othello_rules.py:139-142 | The walk sets exactly the cells strictly between target and origin to the side to move, and leaves every other cell alone |
| Rules.ApplyMove | othello_rules.py:123-144 | A pass leaves the grid alone and sets the skip flag; a capture clears it and leaves the grid as `Applied` says; side and perspective are unchanged |
| Rules.GameOverIffPass | othello_rules.py:186-193 | Game over iff the previous side passed and the side to move has only the pass move; so a single pass is never terminal |
| Rules.IsGameOverGrid | othello_rules.py:186-193 | False without a previous skip; otherwise true iff no disk of the side to move can claim |
| Rules.Winner | othello_rules.py:153-170 | 0 iff the counts are equal; for a perspective 1 or 2, 1 iff that side has more disks and -1 iff it has fewer; for any other perspective never 1 |
| Rules.WinnerSwap | othello_rules.py:159-170 | Swapping the perspective between 1 and 2 negates the result |
| Rules.RowDistinct | othello_rules.py:99-102 | A row scan lists no disk twice |
| Rules.BeforeDistinct | othello_rules.py:99-102 | A scan of the first rows lists no disk twice |
| Rules.SideDisksCount | othello_rules.py:154-158 | The number of listed disks is the side's disk count |
| Rules.GetWinningSide | othello_rules.py:153-170 | The counting loops and comparison give exactly `Winner` |
| Rules.DefaultFirstCapture | othello_rules.py:123-144 | From the default state the capture (4,3) from (2,3) is legal and flips only (3,3), leaving 1 disk for side 1 and 4 for side 2 |
| Rules.MoveProgress | othello_rules.py:186-193 | Every legal move from a game that is not over lowers the measure 2 * empty + (0 after a pass, else 1), so every game ends |
| Mcts.Q | othello_mcts.py:27-30 | Wins minus losses, bounded in absolute value by the visit count |
| Mcts.N | othello_mcts.py:32-33 | The visit count, which is the number of results counted |
| Mcts.Bump | othello_mcts.py:57-58 | One more visit and one more count of `result` in the tally; every other tally entry and every other field unchanged |
| Mcts.Weight | othello_mcts.py:68 | For a visited node whose tally matches its visits, the weight `q / n` times `n` is `q`, and it lies between -1 and 1 |
| Mcts.BumpCounted | othello_mcts.py:56-58 | Counting a result keeps visits equal to the tally total, adds 1 to n and the result to q |
| Mcts.PathFacts | othello_mcts.py:59-60 | The parent chain from a node reaches the root, only climbs, and is closed under parents |
| Mcts.RootValid | othello_mcts.py:8-25 | A tree holding only a fresh root satisfies every invariant |
| Mcts.NewNode | othello_mcts.py:8-25 | A new node has no children, no visits, the tally 0 wins and 0 losses, and the legal actions of its state untried |
| Mcts.ExpandedFacts | othello_mcts.py:35-41 | Expanding adds one node, whose parent is the expanded node, and one child to that node, and changes no other child list or visit count |
| Mcts.ExpandGrows | othello_mcts.py:35-41 | The new node's state is the old state moved by the popped action, and the parent loses its last untried action and gains the new child |
| Mcts.GrownRoot | othello_mcts.py:75-84 | Growing keeps the root's state and visits, never removes children, and leaves the new node the only unvisited one |
| Mcts.ExpandLinked | othello_mcts.py:38-40 | The new node's parent link and the new child link keep the tree linked |
| Mcts.ExpandLinkedAt | othello_mcts.py:38-40 | Each child link after the expansion points forward to a node whose parent is the linking node |
| Mcts.ExpandAllCounted | othello_mcts.py:35-41 | Every tally stays consistent after an expansion |
| Mcts.ExpandMonotone | othello_mcts.py:35-41 | No child has more visits than its parent after an expansion |
| Mcts.ExpandStates | othello_mcts.py:35-41 | Every node keeps `len(children) + len(untried)` equal to its number of legal actions, untried actions a prefix of them, and child `k` made by the `k`-th action popped |
| Mcts.ExpandArena | othello_mcts.py:35-41 | Expanding with a fresh state keeps all the arena invariants |
| Mcts.BumpArena | othello_mcts.py:56-60 | Counting at one node keeps the invariants and passes the one-visit lag to its parent |
| Mcts.BackpropagateStep | othello_mcts.py:59-60 | The path from a node is the node plus the path from its parent |
| Mcts.BumpPathStep | othello_mcts.py:56-60 | Counting along the path is counting at the node, then along its parent's path |
| Mcts.BumpPathMeaning | othello_mcts.py:56-60 | Backpropagation adds 1 visit and `result` to q at the node and each ancestor, the root included, and changes nothing else |
| Mcts.BumpPathVisited | othello_mcts.py:86-90 | After backpropagating from the new node, every non-root node has been visited |
| Mcts.Final | othello_mcts.py:49-53 | A playout keeps the perspective, and its positions stay valid |
| Mcts.PlayoutSnoc | othello_mcts.py:49-53 | A playout that is not over extends by any legal move |
| Mcts.PlayoutBounded | othello_mcts.py:49-53 | A playout is no longer than the termination measure of its start, so every rollout ends |
| Mcts.RolloutPolicy | othello_mcts.py:71-73 | The chosen move is one of the possible moves |
| Mcts.SearchTree.constructor | othello_mcts.py:8-25 | A root node for the state with no parent, no children, no visits, tally 0 / 0, and every legal action untried |
| Mcts.SearchTree.Expand | othello_mcts.py:35-41 | Pops the last untried action, plays it on a fresh copy, and appends the new node as the newest child; the invariants hold |
| Mcts.SearchTree.Attach | othello_mcts.py:36-40 | The expanded node loses its last untried action and gains the new node as its newest child, the new node is appended to the arena, and the invariants hold |
| Mcts.SearchTree.IsTerminalNode | othello_mcts.py:43-44 | True iff the node's state is game over |
| Mcts.SearchTree.IsFullyExpanded | othello_mcts.py:62-63 | True iff no untried action remains, and then the node has a child |
| Mcts.SearchTree.Rollout | othello_mcts.py:46-54 | Plays a legal playout from the node's state until the game is over, and returns the result for the master side |
| Mcts.RolloutFrom | othello_mcts.py:47-54 | The rollout loop from a given state |
| Mcts.SearchTree.Backpropagate | othello_mcts.py:56-60 | The tree becomes the old tree counted along the path from the node to the root; the states are unchanged |
| Mcts.ArgMaxWeight | othello_mcts.py:68-69 | The first child, in order, of largest q / n |
| Mcts.SearchTree.BestChild | othello_mcts.py:65-69 | Returns one of the children; with weight parameter 0, the first of largest q / n |
| Mcts.SearchTree.Descend | othello_mcts.py:77-83 | Stops at a terminal node, or at a non-terminal node with an untried action, that the loop reaches from the root (`Descended`): every node it passes is non-terminal and fully expanded, the next one is among its children, and with weight 0 it is the first child of largest q / n |
| Mcts.DescendedPath | othello_mcts.py:77-83 | The root-to-node ancestry of a node the descent reaches is a descent path |
| Mcts.DescentMeaning | othello_mcts.py:77-83 | A descent path is exactly a path from the root, over nodes of the tree, with a descent step between every two neighbours (both directions) |
| Mcts.DescentSnoc | othello_mcts.py:82-83 | A descent path followed by one more step is a descent path |
| Mcts.SearchTree.TreePolicy | othello_mcts.py:75-84 | The descent reaches `stop` (`Descended`). A terminal `stop` is returned with the tree unchanged. Otherwise `stop` is not terminal, it is expanded by its last untried action, and the new unvisited child is returned. The root keeps its state and visits |
| Mcts.SearchTree.Simulate | othello_mcts.py:87-90 | One iteration is the tree policy's selection of `v`, then a playout from `v` to the end of the game; the new tree is the grown tree counted along the path from `v` with that game's result for the master side. The root gains one visit, every non-root node stays visited, and an unfinished root has a child |
| Mcts.SearchTree.BestAction | othello_mcts.py:86-91 | The final tree is the old tree after `simulation_no` rounds (`Rounds`). Each round selects a node by the tree policy, plays a rollout from it to the end of the game, and counts that game's result from it up to the root. The root gains `simulation_no` visits, every child is visited, and the result is the first child of largest q / n |
| Mcts.RoundsSnoc | othello_mcts.py:87-90 | A sequence of rounds followed by one more round is a sequence of rounds |
| Mcts.Search | othello_mcts.py:94-97 | The tree is `simulation_no` rounds from a fresh root for the state. The root is visited `simulation_no` times, and the result is the child that best_action picks |

## Left out

- othello_alpha_zero.py is not part of this model. It is a neural network over float tensors and library calls, with no rules or search logic.
- `simulate_game` and the experiment loop at module level (othello_mcts.py:100-138) are left out. They are driver code with random play, printing and an unused plotting import.
- `State.__str__` and `__repr__` are left out: they are text formatting only.
- `explore_all_possible_games` is left out. It is an exhaustive recursion that returns nothing.
- The commented-out 8 x 8 debug grids are left out.
- Mcts.RolloutPolicy: the random pick with `np.random.randint` is modelled as a choice of any one legal move.
- Mcts.SearchTree.BestChild: the UCT exploration term `c * sqrt(2 ln n / n_c)` for a non-zero weight parameter is floating-point `sqrt`/`log`. Only "some child" is promised then. At weight 0, which best_action uses, the first maximum of q / n is promised in exact rationals.
- Mcts.SearchTree.BestChild: the source fails on a node with no children, or with an unvisited child (division by zero). These cases are preconditions.
- Mcts.Search: requires a state whose game is not over and `simulation_no > 0`. Otherwise the source's final best_child would take an argmax over no children.
- The visit counters and the tally are floats in the source (`+= 1.`). They are modelled as naturals.
- Children inherit `simulation_no` and `c_param` from their parent in the source. The model keeps them once, in the tree.
- Aliasing: node states are separate `State` objects, and grids are values. `deepcopy` in `State.move` is the copy of a value grid. Python's list sharing outside `move` is not modelled.
- Negative indices: the capture scan checks position_in_grid before every cell read except the source cell (othello_rules.py:84 and :174). Every caller takes the source from get_side_disks, so that cell is in the grid, and the scan's functions require it (`InGrid`). So in the scan, Python's wrap-around negative indexing is never reached. apply_move writes without any check; see the next line.
- Rules.ApplyMove: requires `Capture.Applicable`: the target and every origin are in the grid, and every origin is on a line through the target. The source checks none of this. It writes the target and the walked cells unchecked, and with an origin off every line its walk wraps through negative indices, overwriting cells, until it raises `IndexError`. The model does not describe those writes or that error. Every move get_side_moves produces satisfies `Capture.Applicable` (`Capture.GeneratedApplicable`).
- Rules.State.Move: the same precondition, for the same reason.
- The default arguments of the source are kept as Dafny default parameters. `MCTS`'s default `c_param` of 0.01 only reaches the exploration term, which is not modelled.
