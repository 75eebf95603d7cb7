/**
 * The Monte Carlo tree search of othello_mcts.py. The tree is an arena: node `i` of
 * `nodes` is one MonteCarloTreeSearchNode, node 0 is the root, and the parent and
 * children links are indices into the arena. Every node keeps the State object it was
 * created with; no operation of the search changes a State after creation.
 */
module Mcts {
  import opened Board
  import opened Moves
  import opened Capture
  import opened Rules

  /**
   * One search node: its state, the link to its parent and the action that led to it, its
   * children in expansion order, its visit count, its result tally and the legal actions
   * it has not tried yet.
   */
  datatype Node = Node(state: State, parent: Option<nat>, parentAction: Option<Action>,
                       children: seq<nat>, visits: nat, results: map<int, nat>, untried: seq<Action>)

  /** The result tally read as a dictionary with default 0. */
  function Get(m: map<int, nat>, k: int): nat {
    if k in m then m[k] else 0
  }

  /** The tally only holds the three game results, and the visit count is their total. */
  ghost predicate Counted(n: Node) {
    (forall k :: k in n.results ==> -1 <= k <= 1) &&
    n.visits == Get(n.results, 1) + Get(n.results, 0) + Get(n.results, -1)
  }

  /** q: wins minus losses, from the master side's perspective. */
  function Q(n: Node): (q: int)
    requires Counted(n)
    ensures -(n.visits as int) <= q <= n.visits
  {
    Get(n.results, 1) - Get(n.results, -1)
  }

  /** n: the visit count, which is the number of results counted. */
  function N(n: Node): (v: nat)
    requires Counted(n)
    ensures v == Get(n.results, 1) + Get(n.results, 0) + Get(n.results, -1)
  {
    n.visits
  }

  /** The exploitation weight `q / n` of a visited node. */
  function Weight(n: Node): (w: real)
    requires Counted(n) && n.visits > 0
    ensures w * (n.visits as real) == Q(n) as real
    ensures -1.0 <= w <= 1.0
  {
    QuotientBounds(Q(n) as real, n.visits as real);
    (Q(n) as real) / (n.visits as real)
  }

  /** A quotient by a positive number that bounds the dividend in absolute value lies in [-1, 1]. */
  lemma QuotientBounds(q: real, v: real)
    requires v > 0.0 && -v <= q <= v
    ensures (q / v) * v == q && -1.0 <= q / v <= 1.0
  {
  }

  /** The node after backpropagating `result` through it: one more visit and one more count of `result`. */
  function Bump(n: Node, result: int): (r: Node)
    ensures r.visits == n.visits + 1 && Get(r.results, result) == Get(n.results, result) + 1
    ensures forall k :: k != result ==> Get(r.results, k) == Get(n.results, k)
    ensures r == n.(visits := r.visits, results := r.results)
  {
    n.(visits := n.visits + 1, results := n.results[result := Get(n.results, result) + 1])
  }

  /** Counting a result keeps the tally consistent and moves q by that result. */
  lemma BumpCounted(n: Node, result: int)
    requires Counted(n) && -1 <= result <= 1
    ensures Counted(Bump(n, result))
    ensures Q(Bump(n, result)) == Q(n) + result
    ensures N(Bump(n, result)) == N(n) + 1
  {
    var m := Bump(n, result).results;
    assert Get(m, result) == Get(n.results, result) + 1;
    forall k | k != result ensures Get(m, k) == Get(n.results, k) {
    }
  }

  // ---------------------------------------------------------------- arena invariants

  /** Node 0 is the only node without a parent; every parent comes before its child; children point back. */
  ghost predicate Linked(ns: seq<Node>) {
    |ns| > 0 && ns[0].parent.None? && ns[0].parentAction.None? &&
    (forall i :: 0 < i < |ns| ==> ns[i].parent.Some? && ns[i].parent.value < i && ns[i].parentAction.Some?) &&
    (forall i, k :: 0 <= i < |ns| && 0 <= k < |ns[i].children| ==>
      i < ns[i].children[k] < |ns| && ns[ns[i].children[k]].parent == Some(i))
  }

  ghost predicate AllCounted(ns: seq<Node>) {
    forall i :: 0 <= i < |ns| ==> Counted(ns[i])
  }

  /**
   * A parent has at least as many visits as each child. `slack` names a node whose children
   * may be one visit ahead of it: the node backpropagation is about to reach.
   */
  ghost predicate Monotone(ns: seq<Node>, slack: int)
    requires Linked(ns)
  {
    forall i, k :: 0 <= i < |ns| && 0 <= k < |ns[i].children| ==>
      ns[i].visits + (if i == slack then 1 else 0) >= ns[ns[i].children[k]].visits
  }


  /** The nodes from `i` up to the root, following parent links. */
  ghost function PathOf(ns: seq<Node>, i: nat): set<nat>
    requires Linked(ns) && i < |ns|
    decreases i
  {
    {i} + if ns[i].parent.Some? then PathOf(ns, ns[i].parent.value) else {}
  }

  /** The root is on every path, a path only climbs, and it is closed under parents. */
  lemma {:induction false} PathFacts(ns: seq<Node>, i: nat)
    requires Linked(ns) && i < |ns|
    ensures 0 in PathOf(ns, i) && i in PathOf(ns, i)
    ensures forall j :: j in PathOf(ns, i) ==> 0 <= j <= i
    ensures forall j :: j in PathOf(ns, i) && 0 < j ==> ns[j].parent.value in PathOf(ns, i)
    decreases i
  {
    if ns[i].parent.Some? {
      PathFacts(ns, ns[i].parent.value);
    }
  }

  /** Paths only depend on the parent links. */
  lemma {:induction false} PathSameParents(a: seq<Node>, b: seq<Node>, i: nat)
    requires Linked(a) && Linked(b) && |a| == |b| && i < |a|
    requires forall j :: 0 <= j < |a| ==> a[j].parent == b[j].parent
    ensures PathOf(a, i) == PathOf(b, i)
    decreases i
  {
    if a[i].parent.Some? {
      PathSameParents(a, b, a[i].parent.value);
    }
  }

  // ---------------------------------------------------------------- the states of the nodes

  /** The value of a State object. */
  datatype View = View(grid: Grid, side: int, previousSkip: bool, masterSide: int)

  function ViewOf(s: State): View
    reads s
  {
    View(s.grid, s.side, s.previousSkip, s.masterSide)
  }

  predicate ViewValid(v: View) {
    WellFormed(v.grid) && 1 <= v.side <= 2
  }

  function LegalOf(v: View): seq<Action>
    requires ViewValid(v)
  {
    SideMoves(v.grid, v.side)
  }

  /** What State.move gives from a state with value `v`. */
  function After(v: View, a: Action): (w: View)
    requires ViewValid(v)
    ensures ViewValid(w) && w.masterSide == v.masterSide
  {
    View(Applied(v.grid, a, v.side), 3 - v.side, a.Pass?, v.masterSide)
  }

  ghost predicate ViewOver(v: View)
    requires ViewValid(v)
  {
    GameOver(v.grid, v.side, v.previousSkip)
  }

  /** The untried actions are what is left of the legal actions after popping one per child. */
  ghost predicate Expansion(n: Node, v: View)
    requires ViewValid(v)
  {
    |n.children| + |n.untried| == |LegalOf(v)| && n.untried == LegalOf(v)[..|n.untried|]
  }

  /** Child number `k` of a node with value `pv` was made by playing the `k`-th action popped. */
  ghost predicate ChildOk(pv: View, k: int, action: Option<Action>, cv: View)
    requires ViewValid(pv) && 0 <= k < |LegalOf(pv)|
  {
    var a := LegalOf(pv)[|LegalOf(pv)| - 1 - k];
    action == Some(a) && cv == After(pv, a)
  }

  ghost predicate NodeOk(n: Node, v: View, master: int) {
    ViewValid(v) && v.masterSide == master && Expansion(n, v)
  }

  /** Every node's state is valid, shares the root's perspective, and agrees with its expansion record. */
  ghost predicate NodesOk(ns: seq<Node>, vs: seq<View>) {
    |vs| == |ns| && |ns| > 0 && forall i :: 0 <= i < |ns| ==> NodeOk(ns[i], vs[i], vs[0].masterSide)
  }

  /** Every child's action and value are those of the action popped from its parent for it. */
  ghost predicate ChildrenOk(ns: seq<Node>, vs: seq<View>)
    requires Linked(ns) && NodesOk(ns, vs)
  {
    forall i, k :: 0 <= i < |ns| && 0 <= k < |ns[i].children| ==>
      ChildOk(vs[i], k, ns[ns[i].children[k]].parentAction, vs[ns[i].children[k]])
  }

  ghost predicate StatesOk(ns: seq<Node>, vs: seq<View>)
    requires Linked(ns)
  {
    NodesOk(ns, vs) && ChildrenOk(ns, vs)
  }

  /** `vs` holds the values of the nodes' State objects, all of them in `repr`. */
  ghost predicate Views(ns: seq<Node>, vs: seq<View>, repr: set<State>)
    reads repr
  {
    |vs| == |ns| && forall i :: 0 <= i < |ns| ==> ns[i].state in repr && ViewOf(ns[i].state) == vs[i]
  }

  /** An arena holding only a fresh root satisfies every invariant. */
  lemma RootValid(root: Node, v: View)
    requires ViewValid(v) && root == Node(root.state, None, None, [], 0, map[1 := 0, -1 := 0], LegalOf(v))
    ensures Linked([root]) && AllCounted([root]) && Monotone([root], -1) && StatesOk([root], [v])
  {
    assert Get(root.results, 0) == 0;
    assert Counted(root);
    assert Expansion(root, v);
  }

  // ---------------------------------------------------------------- expansion

  /** The arena after expanding node `i` into a new last node whose state is `next`, of value `nv`. */
  function Expanded(ns: seq<Node>, i: nat, next: State, nv: View): seq<Node>
    requires i < |ns| && |ns[i].untried| > 0 && ViewValid(nv)
  {
    var u := ns[i].untried;
    ns[i := ns[i].(untried := u[..|u| - 1], children := ns[i].children + [|ns|])] +
    [Node(next, Some(i), Some(u[|u| - 1]), [], 0, map[1 := 0, -1 := 0], LegalOf(nv))]
  }

  /** What expanding node `i` changes: one more child for `i`, one new last node, and nothing else. */
  lemma ExpandedFacts(ns: seq<Node>, i: nat, next: State, nv: View)
    requires i < |ns| && |ns[i].untried| > 0 && ViewValid(nv)
    ensures |Expanded(ns, i, next, nv)| == |ns| + 1
    ensures Expanded(ns, i, next, nv)[|ns|].parent == Some(i) && Expanded(ns, i, next, nv)[|ns|].state == next
    ensures forall j :: 0 <= j < |ns| ==> Expanded(ns, i, next, nv)[j].visits == ns[j].visits
    ensures forall j :: 0 <= j < |ns| ==>
      Expanded(ns, i, next, nv)[j].children == (if j == i then ns[i].children + [|ns|] else ns[j].children)
  {
  }

  /** `ns2`, `vs2` is `ns`, `vs` with node `v` made by expanding its parent. */
  ghost predicate GrownBy(ns: seq<Node>, vs: seq<View>, ns2: seq<Node>, vs2: seq<View>, v: nat) {
    v == |ns| == |vs| && |ns2| == v + 1 && |vs2| == v + 1 && ns2[v].parent.Some? &&
    var p := ns2[v].parent.value;
    p < v && |ns[p].untried| > 0 && ViewValid(vs[p]) &&
    vs2 == vs + [After(vs[p], ns[p].untried[|ns[p].untried| - 1])] &&
    (forall j :: 0 <= j < v && j != p ==> ns2[j] == ns[j]) &&
    ns2[p] == ns[p].(untried := ns[p].untried[..|ns[p].untried| - 1], children := ns[p].children + [v]) &&
    ns2[v] == Node(ns2[v].state, Some(p), Some(ns[p].untried[|ns[p].untried| - 1]), [], 0, map[1 := 0, -1 := 0], LegalOf(vs2[v]))
  }

  lemma ExpandGrows(ns: seq<Node>, vs: seq<View>, i: nat, next: State, nv: View)
    requires i < |ns| == |vs| && |ns[i].untried| > 0 && ViewValid(vs[i])
    requires nv == After(vs[i], ns[i].untried[|ns[i].untried| - 1])
    ensures GrownBy(ns, vs, Expanded(ns, i, next, nv), vs + [nv], |ns|)
    ensures Expanded(ns, i, next, nv)[|ns|].parent == Some(i)
  {
  }

  /** Growing keeps the root's state and visits, only adds children, and the new node is the only unvisited one. */
  lemma GrownRoot(ns: seq<Node>, vs: seq<View>, ns2: seq<Node>, vs2: seq<View>, v: nat)
    requires GrownBy(ns, vs, ns2, vs2, v) && |ns| > 0 && AllVisited(ns, 0)
    ensures vs2[0] == vs[0] && ns2[0].state == ns[0].state && ns2[0].visits == ns[0].visits
    ensures |ns2[0].children| >= |ns[0].children| && |ns2[ns2[v].parent.value].children| > 0
    ensures AllVisited(ns2, v)
  {
    var p := ns2[v].parent.value;
    assert ns2[p].children == ns[p].children + [v];
    forall j | 0 < j < |ns2| && j != v ensures ns2[j].visits > 0 {
      assert ns2[j].visits == ns[j].visits;
    }
  }

  lemma ExpandLinked(ns: seq<Node>, i: nat, next: State, nv: View)
    requires Linked(ns) && i < |ns| && |ns[i].untried| > 0 && ViewValid(nv)
    ensures Linked(Expanded(ns, i, next, nv))
  {
    var ns' := Expanded(ns, i, next, nv);
    forall j | 0 < j < |ns'| ensures ns'[j].parent.Some? && ns'[j].parent.value < j && ns'[j].parentAction.Some? {
      if j < |ns| {
        assert ns'[j].parent == ns[j].parent && ns'[j].parentAction == ns[j].parentAction;
      }
    }
    forall j, k | 0 <= j < |ns'| && 0 <= k < |ns'[j].children|
      ensures j < ns'[j].children[k] < |ns'| && ns'[ns'[j].children[k]].parent == Some(j)
    {
      ExpandLinkedAt(ns, i, next, nv, j, k);
    }
  }

  /** One child link of the expanded arena: the new link from `i`, or an old one kept. */
  lemma ExpandLinkedAt(ns: seq<Node>, i: nat, next: State, nv: View, j: nat, k: nat)
    requires Linked(ns) && i < |ns| && |ns[i].untried| > 0 && ViewValid(nv)
    requires j < |ns| && k < |Expanded(ns, i, next, nv)[j].children|
    ensures j < Expanded(ns, i, next, nv)[j].children[k] < |ns| + 1
    ensures Expanded(ns, i, next, nv)[Expanded(ns, i, next, nv)[j].children[k]].parent == Some(j)
  {
    var ns' := Expanded(ns, i, next, nv);
    if j == i && k == |ns[i].children| {
      assert ns'[j].children[k] == |ns|;
    } else {
      var c := ns[j].children[k];
      assert ns'[j].children[k] == c;
      assert c < |ns| && ns'[c].parent == ns[c].parent;
    }
  }

  /** The new node starts with no visits and a consistent tally, and no other tally changes. */
  lemma ExpandAllCounted(ns: seq<Node>, i: nat, next: State, nv: View)
    requires AllCounted(ns) && i < |ns| && |ns[i].untried| > 0 && ViewValid(nv)
    ensures AllCounted(Expanded(ns, i, next, nv))
  {
    var ns' := Expanded(ns, i, next, nv);
    forall j | 0 <= j < |ns'| ensures Counted(ns'[j]) {
      if j == |ns| {
        assert Get(ns'[j].results, 0) == 0;
      } else {
        assert ns'[j].results == ns[j].results && ns'[j].visits == ns[j].visits;
      }
    }
  }

  /** The new node has no visits, so it is behind its parent like every other child. */
  lemma ExpandMonotone(ns: seq<Node>, i: nat, next: State, nv: View)
    requires Linked(ns) && Monotone(ns, -1) && i < |ns| && |ns[i].untried| > 0 && ViewValid(nv)
    requires Linked(Expanded(ns, i, next, nv))
    ensures Monotone(Expanded(ns, i, next, nv), -1)
  {
    var ns' := Expanded(ns, i, next, nv);
    forall j, k | 0 <= j < |ns'| && 0 <= k < |ns'[j].children|
      ensures ns'[j].visits >= ns'[ns'[j].children[k]].visits
    {
      if j == i && k == |ns[i].children| {
        assert ns'[j].children[k] == |ns|;
      } else {
        var c := ns[j].children[k];
        assert ns'[j].children[k] == c && c < |ns|;
        assert ns'[c].visits == ns[c].visits && ns'[j].visits == ns[j].visits;
      }
    }
  }

  lemma ExpandCounted(ns: seq<Node>, i: nat, next: State, nv: View)
    requires Linked(ns) && AllCounted(ns) && Monotone(ns, -1) && i < |ns| && |ns[i].untried| > 0 && ViewValid(nv)
    ensures Linked(Expanded(ns, i, next, nv))
    ensures AllCounted(Expanded(ns, i, next, nv)) && Monotone(Expanded(ns, i, next, nv), -1)
  {
    ExpandLinked(ns, i, next, nv);
    ExpandAllCounted(ns, i, next, nv);
    ExpandMonotone(ns, i, next, nv);
  }

  lemma ExpandNodes(ns: seq<Node>, vs: seq<View>, i: nat, next: State)
    requires Linked(ns) && StatesOk(ns, vs) && i < |ns| && |ns[i].untried| > 0
    ensures var nv := After(vs[i], ns[i].untried[|ns[i].untried| - 1]);
      forall j :: 0 <= j < |ns| + 1 ==> NodeOk(Expanded(ns, i, next, nv)[j], (vs + [nv])[j], vs[0].masterSide)
  {
    var u := ns[i].untried;
    var nv := After(vs[i], u[|u| - 1]);
    forall j | 0 <= j < |ns| + 1 ensures NodeOk(Expanded(ns, i, next, nv)[j], (vs + [nv])[j], vs[0].masterSide) {
      ExpandNodeAt(ns, vs, i, next, j);
    }
  }

  /** Node `j` of the expanded tree is consistent with its value. */
  lemma ExpandNodeAt(ns: seq<Node>, vs: seq<View>, i: nat, next: State, j: nat)
    requires Linked(ns) && StatesOk(ns, vs) && i < |ns| && |ns[i].untried| > 0 && j <= |ns|
    ensures var nv := After(vs[i], ns[i].untried[|ns[i].untried| - 1]);
      NodeOk(Expanded(ns, i, next, nv)[j], (vs + [nv])[j], vs[0].masterSide)
  {
    var u := ns[i].untried;
    var nv := After(vs[i], u[|u| - 1]);
    var ns' := Expanded(ns, i, next, nv);
    var vs' := vs + [nv];
    var master := vs[0].masterSide;
    if j == |ns| {
      assert NodeOk(ns[i], vs[i], master);
    } else if j == i {
      assert NodeOk(ns[i], vs[i], master);
      assert ns'[i].untried == LegalOf(vs[i])[..|u| - 1];
    } else {
      assert ns'[j] == ns[j] && vs'[j] == vs[j];
      assert NodeOk(ns[j], vs[j], master);
    }
  }

  lemma OldChildOk(ns: seq<Node>, vs: seq<View>, i: nat, next: State, nv: View, j: nat, k: nat)
    requires Linked(ns) && StatesOk(ns, vs) && i < |ns| && |ns[i].untried| > 0 && ViewValid(nv)
    requires j < |ns| && k < |ns[j].children|
    ensures k < |Expanded(ns, i, next, nv)[j].children| && Expanded(ns, i, next, nv)[j].children[k] == ns[j].children[k]
    ensures Expanded(ns, i, next, nv)[ns[j].children[k]].parentAction == ns[ns[j].children[k]].parentAction
    ensures (vs + [nv])[j] == vs[j] && (vs + [nv])[ns[j].children[k]] == vs[ns[j].children[k]]
    ensures ChildOk(vs[j], k, ns[ns[j].children[k]].parentAction, vs[ns[j].children[k]])
  {
    var ns' := Expanded(ns, i, next, nv);
    var c := ns[j].children[k];
    assert c < |ns| && NodeOk(ns[j], vs[j], vs[0].masterSide);
    assert ns'[j].children == if j == i then ns[i].children + [|ns|] else ns[j].children;
    assert ns'[c].parentAction == ns[c].parentAction;
    assert ChildOk(vs[j], k, ns[c].parentAction, vs[c]);
  }

  lemma NewChildOk(ns: seq<Node>, vs: seq<View>, i: nat)
    requires Linked(ns) && StatesOk(ns, vs) && i < |ns| && |ns[i].untried| > 0
    ensures |ns[i].children| < |LegalOf(vs[i])|
    ensures var a := ns[i].untried[|ns[i].untried| - 1];
      ChildOk(vs[i], |ns[i].children|, Some(a), After(vs[i], a))
  {
    var u := ns[i].untried;
    assert NodeOk(ns[i], vs[i], vs[0].masterSide);
    assert u[|u| - 1] == LegalOf(vs[i])[|u| - 1];
  }

  /** Child `k` of node `j` after the expansion: either the new child of `i` or a child that was already there. */
  lemma ExpandChildAt(ns: seq<Node>, vs: seq<View>, i: nat, next: State, nv: View, ns': seq<Node>, vs': seq<View>, j: nat, k: nat)
    requires Linked(ns) && StatesOk(ns, vs) && i < |ns| && |ns[i].untried| > 0
    requires nv == After(vs[i], ns[i].untried[|ns[i].untried| - 1])
    requires ns' == Expanded(ns, i, next, nv) && Linked(ns') && vs' == vs + [nv] && NodesOk(ns', vs')
    requires j < |ns'| && k < |ns'[j].children|
    ensures ChildOk(vs'[j], k, ns'[ns'[j].children[k]].parentAction, vs'[ns'[j].children[k]])
  {
    if j == i && k == |ns[i].children| {
      assert ns'[j].children[k] == |ns| && vs'[j] == vs[i];
      NewChildOk(ns, vs, i);
    } else {
      assert j < |ns|;
      OldChildOk(ns, vs, i, next, nv, j, k);
    }
  }

  lemma ExpandChildren(ns: seq<Node>, vs: seq<View>, i: nat, next: State, nv: View)
    requires Linked(ns) && StatesOk(ns, vs) && i < |ns| && |ns[i].untried| > 0
    requires nv == After(vs[i], ns[i].untried[|ns[i].untried| - 1])
    requires Linked(Expanded(ns, i, next, nv)) && NodesOk(Expanded(ns, i, next, nv), vs + [nv])
    ensures ChildrenOk(Expanded(ns, i, next, nv), vs + [nv])
  {
    var ns' := Expanded(ns, i, next, nv);
    var vs' := vs + [nv];
    forall j, k | 0 <= j < |ns'| && 0 <= k < |ns'[j].children|
      ensures ChildOk(vs'[j], k, ns'[ns'[j].children[k]].parentAction, vs'[ns'[j].children[k]])
    {
      ExpandChildAt(ns, vs, i, next, nv, ns', vs', j, k);
    }
  }

  /** Expanding a node keeps the state invariants, with the new node's value appended. */
  lemma ExpandStates(ns: seq<Node>, vs: seq<View>, i: nat, next: State)
    requires Linked(ns) && StatesOk(ns, vs) && i < |ns| && |ns[i].untried| > 0
    ensures var nv := After(vs[i], ns[i].untried[|ns[i].untried| - 1]);
      Linked(Expanded(ns, i, next, nv)) && StatesOk(Expanded(ns, i, next, nv), vs + [nv])
  {
    var u := ns[i].untried;
    var nv := After(vs[i], u[|u| - 1]);
    ExpandLinked(ns, i, next, nv);
    ExpandNodes(ns, vs, i, next);
    ExpandChildren(ns, vs, i, next, nv);
  }

  // ---------------------------------------------------------------- counters

  /** `b` differs from `a` at most in visit counts and tallies. */
  ghost predicate SameShape(a: seq<Node>, b: seq<Node>) {
    |a| == |b| &&
    forall j :: 0 <= j < |a| ==>
      b[j].state == a[j].state && b[j].parent == a[j].parent && b[j].parentAction == a[j].parentAction &&
      b[j].children == a[j].children && b[j].untried == a[j].untried
  }

  lemma ShapeKeeps(a: seq<Node>, b: seq<Node>, vs: seq<View>, repr: set<State>)
    requires SameShape(a, b) && Linked(a) && StatesOk(a, vs) && Views(a, vs, repr)
    ensures Linked(b) && StatesOk(b, vs) && Views(b, vs, repr)
  {
    forall i | 0 <= i < |b| ensures NodeOk(b[i], vs[i], vs[0].masterSide) {
      assert NodeOk(a[i], vs[i], vs[0].masterSide);
    }
  }

  /** Backpropagating through node `i` moves the slack from `i` to its parent. */
  lemma BumpMonotone(ns: seq<Node>, i: nat, result: int)
    requires Linked(ns) && Monotone(ns, i) && i < |ns|
    ensures Linked(ns[i := Bump(ns[i], result)])
    ensures Monotone(ns[i := Bump(ns[i], result)], if ns[i].parent.Some? then ns[i].parent.value else -1)
  {
    var ns' := ns[i := Bump(ns[i], result)];
    assert SameShape(ns, ns');
  }

  // ---------------------------------------------------------------- the whole arena

  /** The invariants on the node records and their values alone, with node `slack` allowed to lag one visit. */
  ghost predicate Shape(ns: seq<Node>, vs: seq<View>, slack: int) {
    Linked(ns) && AllCounted(ns) && Monotone(ns, slack) && StatesOk(ns, vs)
  }

  /** All the arena invariants: the records' shape, and the values held by the State objects. */
  ghost predicate Arena(ns: seq<Node>, vs: seq<View>, repr: set<State>, slack: int)
    reads repr
  {
    Shape(ns, vs, slack) && Views(ns, vs, repr)
  }

  /** What the invariants say about one node. */
  lemma ArenaAt(ns: seq<Node>, vs: seq<View>, repr: set<State>, slack: int, i: nat)
    requires Arena(ns, vs, repr, slack) && i < |ns|
    ensures |vs| == |ns| && ns[i].state in repr && ViewOf(ns[i].state) == vs[i] && Counted(ns[i])
    ensures NodeOk(ns[i], vs[i], vs[0].masterSide) && ViewValid(vs[i])
    ensures forall k :: 0 <= k < |ns[i].children| ==> i < ns[i].children[k] < |ns| && Counted(ns[ns[i].children[k]])
  {
  }

  /** The invariants with no lagging node imply them with any slack. */
  lemma ArenaSlack(ns: seq<Node>, vs: seq<View>, repr: set<State>, slack: int)
    requires Arena(ns, vs, repr, -1)
    ensures Arena(ns, vs, repr, slack)
  {
  }

  /** Expanding node `i` into the fresh state `next`, whose value is what the popped action gives, keeps the invariants. */
  lemma ExpandArena(ns: seq<Node>, vs: seq<View>, repr: set<State>, i: nat, next: State)
    requires Arena(ns, vs, repr, -1) && i < |ns| && |ns[i].untried| > 0 && next !in repr
    requires ViewOf(next) == After(vs[i], ns[i].untried[|ns[i].untried| - 1])
    ensures Arena(Expanded(ns, i, next, ViewOf(next)), vs + [ViewOf(next)], repr + {next}, -1)
  {
    var nv := ViewOf(next);
    ExpandCounted(ns, i, next, nv);
    ExpandStates(ns, vs, i, next);
    var ns' := Expanded(ns, i, next, nv);
    var vs' := vs + [nv];
    forall j | 0 <= j < |ns'| ensures ns'[j].state in repr + {next} && ViewOf(ns'[j].state) == vs'[j] {
      if j < |ns| {
        assert ns'[j].state == ns[j].state;
      }
    }
  }

  /** Counting `result` at node `i` keeps the invariants and hands the slack to `i`'s parent. */
  lemma BumpArena(ns: seq<Node>, vs: seq<View>, repr: set<State>, i: nat, result: int)
    requires Arena(ns, vs, repr, i) && i < |ns| && -1 <= result <= 1
    ensures Arena(ns[i := Bump(ns[i], result)], vs, repr, if ns[i].parent.Some? then ns[i].parent.value else -1)
    ensures Linked(ns[i := Bump(ns[i], result)]) && PathOf(ns[i := Bump(ns[i], result)], i) == PathOf(ns, i)
  {
    var ns' := ns[i := Bump(ns[i], result)];
    BumpMonotone(ns, i, result);
    BumpCounted(ns[i], result);
    assert SameShape(ns, ns');
    ShapeKeeps(ns, ns', vs, repr);
    PathSameParents(ns', ns, i);
  }

  /** The path from `i` is `i` and the path from its parent, before and after counting at `i`. */
  lemma BackpropagateStep(ns: seq<Node>, ns': seq<Node>, i: nat, p: nat, result: int)
    requires Linked(ns) && i < |ns| && ns' == ns[i := Bump(ns[i], result)] && ns[i].parent == Some(p)
    ensures Linked(ns') && PathOf(ns, i) == {i} + PathOf(ns', p) && i !in PathOf(ns', p)
  {
    assert SameShape(ns, ns');
    PathSameParents(ns', ns, p);
    PathFacts(ns, p);
  }

  /** The arena after counting `result` at every node of the path from `i` to the root. */
  ghost function BumpPath(ns: seq<Node>, i: nat, result: int): seq<Node>
    requires Linked(ns) && i < |ns|
  {
    seq(|ns|, j requires 0 <= j < |ns| => if j in PathOf(ns, i) then Bump(ns[j], result) else ns[j])
  }

  /** Counting along the path from `i` is counting at `i` and then along the path from its parent. */
  lemma BumpPathStep(ns: seq<Node>, i: nat, result: int)
    requires Linked(ns) && i < |ns|
    ensures Linked(ns[i := Bump(ns[i], result)])
    ensures BumpPath(ns, i, result) == if ns[i].parent.Some?
      then BumpPath(ns[i := Bump(ns[i], result)], ns[i].parent.value, result)
      else ns[i := Bump(ns[i], result)]
  {
    var ns' := ns[i := Bump(ns[i], result)];
    assert SameShape(ns, ns');
    if ns[i].parent.Some? {
      var p := ns[i].parent.value;
      BackpropagateStep(ns, ns', i, p, result);
      assert BumpPath(ns, i, result) == BumpPath(ns', p, result);
    } else {
      assert PathOf(ns, i) == {i};
      assert BumpPath(ns, i, result) == ns';
    }
  }

  /** Every node but the root and node `except` has been visited. */
  ghost predicate AllVisited(ns: seq<Node>, except: nat) {
    forall j :: 0 < j < |ns| && j != except ==> ns[j].visits > 0
  }

  /**
   * Backpropagation from `i` adds one visit to `i` and to each of its ancestors, the root
   * included, counts `result` in their tallies, and changes nothing else.
   */
  lemma BumpPathMeaning(ns: seq<Node>, i: nat, result: int)
    requires Linked(ns) && AllCounted(ns) && i < |ns| && -1 <= result <= 1
    ensures 0 in PathOf(ns, i) && i in PathOf(ns, i)
    ensures SameShape(ns, BumpPath(ns, i, result)) && AllCounted(BumpPath(ns, i, result))
    ensures forall j :: 0 <= j < |ns| ==>
      BumpPath(ns, i, result)[j].visits == ns[j].visits + (if j in PathOf(ns, i) then 1 else 0) &&
      Q(BumpPath(ns, i, result)[j]) == Q(ns[j]) + (if j in PathOf(ns, i) then result else 0)
  {
    PathFacts(ns, i);
    var b := BumpPath(ns, i, result);
    forall j | 0 <= j < |ns|
      ensures Counted(b[j]) && b[j].visits == ns[j].visits + (if j in PathOf(ns, i) then 1 else 0)
      ensures Q(b[j]) == Q(ns[j]) + (if j in PathOf(ns, i) then result else 0)
    {
      if j in PathOf(ns, i) {
        BumpCounted(ns[j], result);
      }
    }
  }

  /** A node that has just been backpropagated from is visited, and so are the ones that were. */
  lemma BumpPathVisited(ns: seq<Node>, i: nat, result: int)
    requires Linked(ns) && AllCounted(ns) && i < |ns| && -1 <= result <= 1 && AllVisited(ns, i)
    ensures AllVisited(BumpPath(ns, i, result), 0)
  {
    BumpPathMeaning(ns, i, result);
  }

  // ---------------------------------------------------------------- playouts

  /** `moves` is a sequence of legal moves from `v`, each played while the game was not over. */
  ghost predicate Playout(v: View, moves: seq<Action>)
    requires ViewValid(v)
    decreases |moves|
  {
    |moves| == 0 ||
    (var before := moves[..|moves| - 1];
     var w := Final(v, before);
     Playout(v, before) && !ViewOver(w) && moves[|moves| - 1] in LegalOf(w))
  }

  /** The position reached by playing `moves` from `v`. */
  function Final(v: View, moves: seq<Action>): (w: View)
    requires ViewValid(v)
    ensures ViewValid(w) && w.masterSide == v.masterSide
    decreases |moves|
  {
    if |moves| == 0 then v else After(Final(v, moves[..|moves| - 1]), moves[|moves| - 1])
  }

  /** A playout that has not ended can go on with any legal move. */
  lemma PlayoutSnoc(v: View, moves: seq<Action>, a: Action)
    requires ViewValid(v) && Playout(v, moves)
    requires !ViewOver(Final(v, moves)) && a in LegalOf(Final(v, moves))
    ensures Playout(v, moves + [a]) && Final(v, moves + [a]) == After(Final(v, moves), a)
  {
    assert (moves + [a])[..|moves|] == moves;
  }

  /**
   * Every move of a playout lowers the termination measure of the rules, so a playout is no
   * longer than the measure of its start: every rollout ends.
   */
  lemma {:induction false} PlayoutBounded(v: View, moves: seq<Action>)
    requires ViewValid(v) && Playout(v, moves)
    ensures |moves| + Measure(Final(v, moves).grid, Final(v, moves).previousSkip) <= Measure(v.grid, v.previousSkip)
    decreases |moves|
  {
    if |moves| > 0 {
      var before := moves[..|moves| - 1];
      var w := Final(v, before);
      PlayoutBounded(v, before);
      MoveProgress(w.grid, w.side, w.previousSkip, moves[|moves| - 1]);
    }
  }

  /** rollout_policy: any one of the legal moves (the source picks one at random). */
  method RolloutPolicy(possibleMoves: seq<Action>) returns (action: Action)
    requires |possibleMoves| > 0
    ensures action in possibleMoves
  {
    var k :| 0 <= k < |possibleMoves|;
    action := possibleMoves[k];
  }

  /**
   * `best` is the first of `cs`, in order, whose weight is the largest: the choice of argmax
   * over the weights of the children.
   */
  ghost predicate FirstMax(ns: seq<Node>, cs: seq<nat>, best: nat)
    requires Scored(ns, cs)
  {
    exists k :: 0 <= k < |cs| && cs[k] == best &&
      (forall j :: 0 <= j < |cs| ==> Weight(ns[cs[j]]) <= Weight(ns[best])) &&
      (forall j :: 0 <= j < k ==> Weight(ns[cs[j]]) < Weight(ns[best]))
  }

  /** Every node of `cs` is in the arena, has a consistent tally and has been visited: `q / n` is defined. */
  ghost predicate Scored(ns: seq<Node>, cs: seq<nat>) {
    forall k :: 0 <= k < |cs| ==> cs[k] < |ns| && Counted(ns[cs[k]]) && ns[cs[k]].visits > 0
  }

  // ---------------------------------------------------------------- the tree policy

  /**
   * One step of the descent of _tree_policy with weight parameter `c`: node `p` is not terminal
   * and fully expanded, `q` is one of its children, and with weight 0 it is the best child.
   */
  ghost predicate Step(ns: seq<Node>, vs: seq<View>, c: real, p: nat, q: nat)
    requires p < |ns| && p < |vs| && ViewValid(vs[p])
  {
    !ViewOver(vs[p]) && |ns[p].untried| == 0 && q in ns[p].children &&
    (c == 0.0 ==> Scored(ns, ns[p].children) && FirstMax(ns, ns[p].children, q))
  }

  /** Node `p` of the tree exists and its value is valid. */
  ghost predicate Held(ns: seq<Node>, vs: seq<View>, p: nat) {
    p < |ns| && p < |vs| && ViewValid(vs[p])
  }

  /**
   * `path` is a descent of _tree_policy: it starts at the root, and each node after the first
   * follows from the one before by `Step`. Defined by its last step; DescentMeaning states it node by node.
   */
  ghost predicate Descent(ns: seq<Node>, vs: seq<View>, c: real, path: seq<nat>)
    decreases |path|
  {
    |path| > 0 && Held(ns, vs, path[|path| - 1]) &&
    if |path| == 1 then path[0] == 0
    else Descent(ns, vs, c, path[..|path| - 1]) && Step(ns, vs, c, path[|path| - 2], path[|path| - 1])
  }

  /**
   * Node `i` is where a descent of _tree_policy can arrive: it is the root, or its parent is
   * such a node and `i` follows from it by `Step`.
   */
  ghost predicate Descended(ns: seq<Node>, vs: seq<View>, c: real, i: nat)
    decreases i
  {
    Held(ns, vs, i) &&
    (i == 0 ||
     (ns[i].parent.Some? && ns[i].parent.value < i &&
      Descended(ns, vs, c, ns[i].parent.value) && Step(ns, vs, c, ns[i].parent.value, i)))
  }

  /** The nodes from the root down to `i`, following parent links. */
  ghost function Ancestry(ns: seq<Node>, i: nat): (path: seq<nat>)
    requires Linked(ns) && i < |ns|
    ensures |path| > 0 && path[|path| - 1] == i
    decreases i
  {
    if i == 0 then [0] else Ancestry(ns, ns[i].parent.value) + [i]
  }

  /** The ancestry of a node a descent can arrive at is that descent. */
  lemma {:induction false} DescendedPath(ns: seq<Node>, vs: seq<View>, c: real, i: nat)
    requires Linked(ns) && Descended(ns, vs, c, i)
    ensures Descent(ns, vs, c, Ancestry(ns, i))
    decreases i
  {
    if i > 0 {
      var p := ns[i].parent.value;
      DescendedPath(ns, vs, c, p);
      DescentSnoc(ns, vs, c, Ancestry(ns, p), i);
    }
  }

  /** A descent extended by one more step is a descent. */
  lemma DescentSnoc(ns: seq<Node>, vs: seq<View>, c: real, path: seq<nat>, q: nat)
    requires Descent(ns, vs, c, path) && Held(ns, vs, q)
    requires Step(ns, vs, c, path[|path| - 1], q)
    ensures Descent(ns, vs, c, path + [q])
  {
    assert (path + [q])[..|path|] == path;
  }

  /** Node by node: a descent starts at the root, holds only nodes of the tree, and takes a `Step` between neighbours. */
  lemma {:induction false} DescentMeaning(ns: seq<Node>, vs: seq<View>, c: real, path: seq<nat>)
    decreases |path|
    ensures Descent(ns, vs, c, path) <==>
      |path| > 0 && path[0] == 0 && (forall j :: 0 <= j < |path| ==> Held(ns, vs, path[j])) &&
      forall j :: 0 <= j < |path| - 1 ==> Step(ns, vs, c, path[j], path[j + 1])
  {
    if |path| > 1 {
      var init := path[..|path| - 1];
      DescentMeaning(ns, vs, c, init);
      assert forall j :: 0 <= j < |init| ==> init[j] == path[j];
    }
  }

  /**
   * What _tree_policy does to the tree `ns`, `vs`: its descent arrives at node `stop` (the descent
   * is `Ancestry(ns, stop)`, by DescendedPath); a terminal `stop` is returned with the tree as it
   * was, and a `stop` that is not terminal is expanded and its new child `v` returned.
   */
  ghost predicate Selected(ns: seq<Node>, vs: seq<View>, c: real, stop: nat, v: nat, ns2: seq<Node>, vs2: seq<View>) {
    Descended(ns, vs, c, stop) &&
    ((v == stop && ns2 == ns && vs2 == vs && ViewOver(vs[stop])) ||
     (!ViewOver(vs[stop]) && GrownBy(ns, vs, ns2, vs2, v) && ns2[v].parent == Some(stop)))
  }

  /**
   * What one round of best_action did: the tree policy selected `v` after a descent to `stop`,
   * growing the tree to `grown`, and the rollout from `v` played `moves`.
   */
  datatype Trace = Trace(v: nat, stop: nat, grown: seq<Node>, moves: seq<Action>)

  /**
   * Round `r` of best_action takes the tree `ns`, `vs` to `ns2`, `vs2`: the tree policy selects
   * `r.v`, a rollout from it plays `r.moves` to the end of the game, and the result of that game
   * for the master side is counted from `r.v` up to the root.
   */
  ghost predicate Round(ns: seq<Node>, vs: seq<View>, c: real, r: Trace, ns2: seq<Node>, vs2: seq<View>) {
    Selected(ns, vs, c, r.stop, r.v, r.grown, vs2) && r.v < |r.grown| == |vs2| && Linked(r.grown) &&
    ViewValid(vs2[r.v]) && Playout(vs2[r.v], r.moves) && ViewOver(Final(vs2[r.v], r.moves)) &&
    ns2 == BumpPath(r.grown, r.v, Winner(Final(vs2[r.v], r.moves).grid, vs2[r.v].masterSide))
  }

  /** The trees `ts`, `ws` are successive rounds of best_action, round `k` being `rs[k]`. */
  ghost predicate Rounds(ts: seq<seq<Node>>, ws: seq<seq<View>>, rs: seq<Trace>, c: real) {
    |ts| == |ws| == |rs| + 1 && forall k :: 0 <= k < |rs| ==> Round(ts[k], ws[k], c, rs[k], ts[k + 1], ws[k + 1])
  }

  /** Rounds followed by one more round are rounds. */
  lemma RoundsSnoc(ts: seq<seq<Node>>, ws: seq<seq<View>>, rs: seq<Trace>, c: real, r: Trace, ns2: seq<Node>, vs2: seq<View>)
    requires Rounds(ts, ws, rs, c) && Round(ts[|rs|], ws[|rs|], c, r, ns2, vs2)
    ensures Rounds(ts + [ns2], ws + [vs2], rs + [r], c)
  {
    var ts', ws', rs' := ts + [ns2], ws + [vs2], rs + [r];
    forall k | 0 <= k < |rs'| ensures Round(ts'[k], ws'[k], c, rs'[k], ts'[k + 1], ws'[k + 1]) {
      if k < |rs| {
        assert ts'[k] == ts[k] && ts'[k + 1] == ts[k + 1] && ws'[k] == ws[k] && ws'[k + 1] == ws[k + 1] && rs'[k] == rs[k];
      }
    }
  }

  class SearchTree {
    var nodes: seq<Node>
    ghost var views: seq<View>
    ghost var Repr: set<State>
    const simulationNo: nat
    const cParam: real

    /** The arena invariants of the tree. */
    ghost predicate Inv(slack: int)
      reads this, Repr
    {
      Arena(nodes, views, Repr, slack)
    }

    ghost predicate Valid()
      reads this, Repr
    {
      Inv(-1)
    }

    /** Every node but the root has been visited: what holds between two iterations of the search. */
    ghost predicate Visited()
      reads this
    {
      AllVisited(nodes, 0)
    }

    /** The game is over at node `i`. */
    ghost predicate Terminal(i: nat)
      reads this
      requires i < |views| && ViewValid(views[i])
    {
      ViewOver(views[i])
    }

    /**
     * A root node for `state`: no parent, no children, no visits, the tally holding 0 wins and
     * 0 losses, and every legal action untried.
     */
    constructor (state: State, simulationNo: nat := 100, cParam: real := 0.1)
      requires state.Valid()
      ensures Valid() && Visited() && |nodes| == 1 && views == [ViewOf(state)] && Repr == {state}
      ensures nodes[0] == Node(state, None, None, [], 0, map[1 := 0, -1 := 0], SideMoves(state.grid, state.side))
      ensures this.simulationNo == simulationNo && this.cParam == cParam
    {
      var root := NewNode(state, None, None);
      nodes := [root];
      views := [ViewOf(state)];
      Repr := {state};
      this.simulationNo := simulationNo;
      this.cParam := cParam;
      new;
      RootValid(root, ViewOf(state));
    }

    /**
     * expand: pop the last untried action, play it on a copy of the state and append the
     * resulting node as the newest child.
     */
    method Expand(i: nat) returns (child: nat)
      modifies this
      requires Valid() && i < |nodes| && |nodes[i].untried| > 0
      ensures child == old(|nodes|) && |nodes| == child + 1 && fresh(nodes[child].state) && Valid()
      ensures Repr == old(Repr) + {nodes[child].state}
      ensures var a := old(nodes[i].untried)[|old(nodes[i].untried)| - 1];
        views == old(views) + [After(old(views)[i], a)] &&
        nodes == Expanded(old(nodes), i, nodes[child].state, After(old(views)[i], a))
    {
      ghost var ns, vs, repr := nodes, views, Repr;
      ArenaAt(ns, vs, repr, -1, i);
      var node := nodes[i];
      var untried := node.untried;
      var action := untried[|untried| - 1];
      assert action in LegalOf(vs[i]);
      GeneratedApplicable(node.state.grid, node.state.side, action);
      var nextState := node.state.Move(action);
      var childNode := NewNode(nextState, Some(i), Some(action));
      child := Attach(i, nextState, childNode);
    }

    /** The bookkeeping of expand: pop the last untried action of node `i` and append `childNode` as its child. */
    method Attach(i: nat, nextState: State, childNode: Node) returns (child: nat)
      modifies this
      requires Valid() && i < |nodes| && |nodes[i].untried| > 0 && nextState !in Repr
      requires ViewOf(nextState) == After(views[i], nodes[i].untried[|nodes[i].untried| - 1])
      requires childNode == Node(nextState, Some(i), Some(nodes[i].untried[|nodes[i].untried| - 1]), [], 0,
                                 map[1 := 0, -1 := 0], SideMoves(nextState.grid, nextState.side))
      ensures child == old(|nodes|) && Valid() && Repr == old(Repr) + {nextState}
      ensures views == old(views) + [ViewOf(nextState)]
      ensures nodes == Expanded(old(nodes), i, nextState, ViewOf(nextState))
    {
      var node := nodes[i];
      var untried := node.untried;
      child := |nodes|;
      ExpandArena(nodes, views, Repr, i, nextState);
      nodes, views, Repr :=
        nodes[i := node.(untried := untried[..|untried| - 1], children := node.children + [child])] + [childNode],
        views + [ViewOf(nextState)], Repr + {nextState};
    }

    /** is_terminal_node */
    method IsTerminalNode(i: nat) returns (terminal: bool)
      requires Valid() && i < |nodes|
      ensures ViewValid(views[i]) && terminal == Terminal(i)
    {
      ArenaAt(nodes, views, Repr, -1, i);
      terminal := nodes[i].state.IsGameOver();
    }

    /** is_fully_expanded: no untried action is left, and then the node has a child. */
    method IsFullyExpanded(i: nat) returns (full: bool)
      requires Valid() && i < |nodes|
      ensures full <==> |nodes[i].untried| == 0
      ensures full ==> |nodes[i].children| > 0
      ensures forall k :: 0 <= k < |nodes[i].children| ==> i < nodes[i].children[k] < |nodes|
    {
      full := |nodes[i].untried| == 0;
      ArenaAt(nodes, views, Repr, -1, i);
      SideMovesShape(views[i].grid, views[i].side);
    }

    /**
     * rollout: play legal moves from the node's state until the game is over and return the
     * result for the master side. `moves` is the game that was played.
     */
    method Rollout(v: nat) returns (result: int, ghost moves: seq<Action>)
      requires Valid() && v < |nodes|
      ensures ViewValid(views[v]) && Playout(views[v], moves) && ViewOver(Final(views[v], moves))
      ensures result == Winner(Final(views[v], moves).grid, views[v].masterSide)
    {
      ArenaAt(nodes, views, Repr, -1, v);
      ghost var start := views[v];
      result, moves := RolloutFrom(nodes[v].state, start);
    }

    /**
     * backpropagate: count `result` at node `i` and at every node above it. Called with
     * node `i` lagging one visit behind the child it came from.
     */
    method Backpropagate(i: nat, result: int)
      modifies this
      requires Inv(i) && i < |nodes| && -1 <= result <= 1
      ensures Valid() && views == old(views) && Repr == old(Repr) && Linked(old(nodes))
      ensures nodes == BumpPath(old(nodes), i, result)
      decreases i
    {
      ghost var ns := nodes;
      var node := nodes[i];
      node := node.(visits := node.visits + 1);
      node := node.(results := node.results[result := Get(node.results, result) + 1]);
      assert node == Bump(ns[i], result);
      nodes := nodes[i := node];
      BumpArena(ns, views, Repr, i, result);
      BumpPathStep(ns, i, result);
      if node.parent.Some? {
        Backpropagate(node.parent.value, result);
      }
    }

    /**
     * best_child: with weight parameter 0 (the one best_action passes), the first child of
     * largest `q / n`; with any other weight, some child (the exploration term is not modelled).
     */
    method BestChild(i: nat, cParamArg: Option<real>) returns (best: nat)
      requires Valid() && i < |nodes| && |nodes[i].children| > 0
      requires forall k :: 0 <= k < |nodes[i].children| ==> nodes[nodes[i].children[k]].visits > 0
      ensures best in nodes[i].children && Scored(nodes, nodes[i].children)
      ensures (if cParamArg.Some? then cParamArg.value else cParam) == 0.0 ==> FirstMax(nodes, nodes[i].children, best)
      ensures i < best < |nodes| && ViewValid(views[best]) && nodes[best].parent == Some(i)
    {
      var c := if cParamArg.Some? then cParamArg.value else cParam;
      ArenaAt(nodes, views, Repr, -1, i);
      if c == 0.0 {
        best := ArgMaxWeight(nodes, nodes[i].children);
      } else {
        assert nodes[i].children[0] in nodes[i].children;
        best :| best in nodes[i].children;
      }
      ArenaAt(nodes, views, Repr, -1, best);
    }

    /**
     * _tree_policy: descend from the root through best children until a terminal node, which
     * is returned, or a node with an untried action, which is expanded and its new child
     * returned. `stop` is where the descent ends.
     */
    method TreePolicy() returns (v: nat, ghost stop: nat)
      modifies this
      requires Valid() && Visited()
      ensures Valid() && v < |nodes| && AllVisited(nodes, v) && views[0] == old(views[0])
      ensures ViewValid(views[0]) && (!ViewOver(views[0]) ==> |nodes[0].children| > 0)
      ensures |nodes[0].children| >= old(|nodes[0].children|)
      ensures nodes[0].state == old(nodes[0].state) && nodes[0].visits == old(nodes[0].visits)
      ensures Repr >= old(Repr)
      ensures Selected(old(nodes), old(views), cParam, stop, v, nodes, views)
    {
      var current, terminal := Descend();
      stop := current;
      if terminal {
        return current, stop;
      }
      ghost var ns := nodes;
      ghost var vs := views;
      v := Expand(current);
      ExpandGrows(ns, vs, current, nodes[v].state, views[v]);
      GrownRoot(ns, vs, nodes, views, v);
    }

    /**
     * The loop of _tree_policy: from the root, follow best children while the node is not
     * terminal and fully expanded.
     */
    method Descend() returns (current: nat, terminal: bool)
      requires Valid() && Visited()
      ensures current < |nodes| && ViewValid(views[current]) && terminal == ViewOver(views[current])
      ensures !terminal ==> |nodes[current].untried| > 0
      ensures current > 0 ==> |nodes[0].children| > 0
      ensures Descended(nodes, views, cParam, current)
    {
      current := 0;
      ArenaAt(nodes, views, Repr, -1, 0);
      terminal := IsTerminalNode(current);
      var full := IsFullyExpanded(current);
      while !terminal && full
        invariant current < |nodes| && (current > 0 ==> |nodes[0].children| > 0)
        invariant ViewValid(views[current]) && terminal == ViewOver(views[current])
        invariant full <==> |nodes[current].untried| == 0
        invariant full ==> |nodes[current].children| > 0
        invariant forall k :: 0 <= k < |nodes[current].children| ==> current < nodes[current].children[k] < |nodes|
        invariant Descended(nodes, views, cParam, current)
        decreases |nodes| - current
      {
        var best := BestChild(current, None);
        current := best;
        terminal := IsTerminalNode(current);
        full := IsFullyExpanded(current);
      }
    }

    /**
     * One round of the loop of best_action: the tree policy selects `v` after a descent to `stop`, growing
     * the tree to `grown`; a rollout from `v` plays `moves`; its result is counted from `v` up.
     */
    method Simulate() returns (ghost v: nat, ghost stop: nat, ghost grown: seq<Node>, ghost moves: seq<Action>)
      modifies this
      requires Valid() && Visited()
      ensures Valid() && Visited() && views[0] == old(views[0]) && nodes[0].state == old(nodes[0].state)
      ensures nodes[0].visits == old(nodes[0].visits) + 1
      ensures |nodes[0].children| >= old(|nodes[0].children|)
      ensures !ViewOver(views[0]) ==> |nodes[0].children| > 0
      ensures Selected(old(nodes), old(views), cParam, stop, v, grown, views)
      ensures v < |grown| == |views| && Linked(grown) && ViewValid(views[v])
      ensures Playout(views[v], moves) && ViewOver(Final(views[v], moves))
      ensures nodes == BumpPath(grown, v, Winner(Final(views[v], moves).grid, views[v].masterSide))
    {
      var selected;
      selected, stop := TreePolicy();
      v, grown := selected, nodes;
      var reward;
      reward, moves := Rollout(selected);
      ArenaSlack(nodes, views, Repr, selected);
      ArenaAt(nodes, views, Repr, -1, 0);
      ArenaAt(nodes, views, Repr, -1, selected);
      Backpropagate(selected, reward);
      BumpPathMeaning(grown, v, reward);
      BumpPathVisited(grown, v, reward);
    }

    /**
     * best_action: run `simulationNo` rounds of tree policy, rollout and backpropagation,
     * then pick the root's child of best `q / n`. `trees[k]`, `treeViews[k]` is the tree after
     * `k` rounds, and `rounds[k]` records what round `k` selected and played.
     */
    method BestAction() returns (best: nat, ghost trees: seq<seq<Node>>, ghost treeViews: seq<seq<View>>, ghost rounds: seq<Trace>)
      modifies this
      requires Valid() && Visited()
      requires (simulationNo > 0 && !ViewOver(views[0])) || |nodes[0].children| > 0
      ensures |rounds| == simulationNo && Rounds(trees, treeViews, rounds, cParam)
      ensures trees[0] == old(nodes) && treeViews[0] == old(views)
      ensures trees[simulationNo] == nodes && treeViews[simulationNo] == views
      ensures Valid() && Visited() && nodes[0].state == old(nodes[0].state)
      ensures nodes[0].visits == old(nodes[0].visits) + simulationNo
      ensures forall k :: 0 <= k < |nodes[0].children| ==>
        nodes[0].children[k] < |nodes| && Counted(nodes[nodes[0].children[k]]) && nodes[nodes[0].children[k]].visits > 0
      ensures best in nodes[0].children && FirstMax(nodes, nodes[0].children, best)
    {
      ArenaAt(nodes, views, Repr, -1, 0);
      trees, treeViews, rounds := [nodes], [views], [];
      for k := 0 to simulationNo
        invariant Valid() && Visited() && views[0] == old(views[0]) && nodes[0].state == old(nodes[0].state)
        invariant nodes[0].visits == old(nodes[0].visits) + k
        invariant |nodes[0].children| >= old(|nodes[0].children|)
        invariant k > 0 && !ViewOver(views[0]) ==> |nodes[0].children| > 0
        invariant |rounds| == k && Rounds(trees, treeViews, rounds, cParam)
        invariant trees[0] == old(nodes) && treeViews[0] == old(views)
        invariant trees[k] == nodes && treeViews[k] == views
      {
        ghost var ns, vs := nodes, views;
        ghost var v, stop, grown, moves;
        v, stop, grown, moves := Simulate();
        ghost var r := Trace(v, stop, grown, moves);
        assert Round(ns, vs, cParam, r, nodes, views);
        RoundsSnoc(trees, treeViews, rounds, cParam, r, nodes, views);
        trees, treeViews, rounds := trees + [nodes], treeViews + [views], rounds + [r];
      }
      ArenaAt(nodes, views, Repr, -1, 0);
      assert Visited();
      best := BestChild(0, Some(0.0));
    }
  }

  /** The loop of best_child with weight 0: the first child whose `q / n` is the largest. */
  method ArgMaxWeight(ns: seq<Node>, children: seq<nat>) returns (best: nat)
    requires |children| > 0
    requires forall k :: 0 <= k < |children| ==> children[k] < |ns| && Counted(ns[children[k]]) && ns[children[k]].visits > 0
    ensures best in children && FirstMax(ns, children, best)
  {
    var bestIndex := 0;
    var bestWeight := Weight(ns[children[0]]);
    for k := 1 to |children|
      invariant 0 <= bestIndex < k && bestWeight == Weight(ns[children[bestIndex]])
      invariant forall j :: 0 <= j < k ==> Weight(ns[children[j]]) <= bestWeight
      invariant forall j :: 0 <= j < bestIndex ==> Weight(ns[children[j]]) < bestWeight
    {
      var w := Weight(ns[children[k]]);
      if w > bestWeight {
        bestIndex, bestWeight := k, w;
      }
    }
    best := children[bestIndex];
  }

  /** The loop of rollout, from a state whose value is `start`. */
  method RolloutFrom(state: State, ghost start: View) returns (result: int, ghost moves: seq<Action>)
    requires state.Valid() && ViewOf(state) == start
    ensures ViewValid(start) && Playout(start, moves) && ViewOver(Final(start, moves))
    ensures result == Winner(Final(start, moves).grid, start.masterSide)
  {
    var current := state;
    moves := [];
    var over := current.IsGameOver();
    while !over
      invariant current.Valid() && over == GameOver(current.grid, current.side, current.previousSkip)
      invariant Playout(start, moves) && Final(start, moves) == ViewOf(current)
      decreases Measure(current.grid, current.previousSkip)
    {
      var possibleMoves := current.GetLegalActions();
      SideMovesShape(current.grid, current.side);
      var action := RolloutPolicy(possibleMoves);
      GeneratedApplicable(current.grid, current.side, action);
      MoveProgress(current.grid, current.side, current.previousSkip, action);
      PlayoutSnoc(start, moves, action);
      current := current.Move(action);
      moves := moves + [action];
      over := current.IsGameOver();
    }
    result := current.GameResult();
  }

  /**
   * __init__ of a node together with untried_actions: the new node's untried actions are the
   * legal actions of its state.
   */
  method NewNode(state: State, parent: Option<nat>, parentAction: Option<Action>) returns (n: Node)
    requires state.Valid()
    ensures n == Node(state, parent, parentAction, [], 0, map[1 := 0, -1 := 0], SideMoves(state.grid, state.side))
  {
    var untried := state.GetLegalActions();
    n := Node(state, parent, parentAction, [], 0, map[1 := 0, -1 := 0], untried);
  }

  /** MCTS: build a root for `initialState` and return the tree with the child that best_action picks. */
  method Search(initialState: State, simulationNo: nat := 100, cParam: real := 0.01)
    returns (tree: SearchTree, best: nat, ghost trees: seq<seq<Node>>, ghost treeViews: seq<seq<View>>, ghost rounds: seq<Trace>)
    requires initialState.Valid() && simulationNo > 0
    requires !GameOver(initialState.grid, initialState.side, initialState.previousSkip)
    ensures |rounds| == simulationNo && Rounds(trees, treeViews, rounds, cParam)
    ensures trees[0] == [Node(initialState, None, None, [], 0, map[1 := 0, -1 := 0], SideMoves(initialState.grid, initialState.side))]
    ensures treeViews[0] == [ViewOf(initialState)]
    ensures trees[simulationNo] == tree.nodes && treeViews[simulationNo] == tree.views
    ensures fresh(tree) && tree.Valid() && tree.nodes[0].state == initialState && tree.nodes[0].visits == simulationNo
    ensures forall k :: 0 <= k < |tree.nodes[0].children| ==>
      tree.nodes[0].children[k] < |tree.nodes| && Counted(tree.nodes[tree.nodes[0].children[k]]) &&
      tree.nodes[tree.nodes[0].children[k]].visits > 0
    ensures best in tree.nodes[0].children && FirstMax(tree.nodes, tree.nodes[0].children, best)
  {
    tree := new SearchTree(initialState, simulationNo, cParam);
    best, trees, treeViews, rounds := tree.BestAction();
  }
}
