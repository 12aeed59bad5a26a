/** Paths in a cost matrix, and what the labels of a shortest-path run mean.

    Every entry of the matrix is an edge here, the value `inf` included: the program adds such
    entries like any other number (dijkstra/dijkstra.c:94). `OnlyFiniteEdges` picks out the
    paths a reader has in mind, those that never use an `inf` entry. */
module ShortestPath {

  type Matrix = seq<seq<int>>

  ghost predicate Square(cost: Matrix, n: nat) {
    |cost| == n && forall i :: 0 <= i < n ==> |cost[i]| == n
  }

  ghost predicate EntriesIn(cost: Matrix, n: nat, inf: int)
    requires Square(cost, n)
  {
    forall i, j :: 0 <= i < n && 0 <= j < n ==> 0 <= cost[i][j] <= inf
  }

  ghost predicate Path(n: nat, path: seq<int>, a: int, b: int) {
    && |path| > 0 && path[0] == a && path[|path| - 1] == b
    && forall i :: 0 <= i < |path| ==> 0 <= path[i] < n
  }

  ghost predicate OnlyFiniteEdges(cost: Matrix, n: nat, inf: int, path: seq<int>)
    requires Square(cost, n)
    requires forall i :: 0 <= i < |path| ==> 0 <= path[i] < n
  {
    forall i :: 0 < i < |path| ==> cost[path[i - 1]][path[i]] < inf
  }

  /** The sum of the edge costs along a path. */
  ghost function Cost(cost: Matrix, n: nat, path: seq<int>): int
    requires Square(cost, n)
    requires forall i :: 0 <= i < |path| ==> 0 <= path[i] < n
  {
    if |path| <= 1 then 0
    else Cost(cost, n, path[..|path| - 1]) + cost[path[|path| - 2]][path[|path| - 1]]
  }

  /** `d` is the least total cost of any walk from `root` to `v` that avoids `inf` entries. */
  ghost predicate IsDistance(cost: Matrix, n: nat, inf: int, root: int, v: int, d: int)
    requires Square(cost, n)
  {
    && (exists path :: Path(n, path, root, v) && OnlyFiniteEdges(cost, n, inf, path) && Cost(cost, n, path) == d)
    && (forall path :: Path(n, path, root, v) && OnlyFiniteEdges(cost, n, inf, path) ==> d <= Cost(cost, n, path))
  }

  /** Some walk from `root` to `v` that avoids `inf` entries costs less than `inf`. */
  ghost predicate Reachable(cost: Matrix, n: nat, inf: int, root: int, v: int)
    requires Square(cost, n)
  {
    exists path :: Path(n, path, root, v) && OnlyFiniteEdges(cost, n, inf, path) && Cost(cost, n, path) < inf
  }

  ghost predicate LowerBound(cost: Matrix, n: nat, root: int, v: int, d: int)
    requires Square(cost, n)
  {
    forall path :: Path(n, path, root, v) ==> d <= Cost(cost, n, path)
  }

  // ---------------------------------------------------------------- labels

  /** The label of a node as seen by its neighbours: the root counts as distance 0. */
  ghost function Base(D: seq<int>, root: int, v: int): int
    requires 0 <= v < |D|
  {
    if v == root then 0 else D[v]
  }

  ghost predicate Order(n: nat, root: int, order: seq<int>) {
    && 0 < |order| && order[0] == root
    && (forall i :: 0 <= i < |order| ==> 0 <= order[i] < n)
    && (forall i, j :: 0 <= i < j < |order| ==> order[i] != order[j])
  }

  /** The predecessor links form a tree over the settled nodes, and every label is the label of
      its predecessor plus one edge. */
  ghost predicate TreeLabels(cost: Matrix, n: nat, root: int, order: seq<int>, D: seq<int>, p: seq<int>)
    requires Square(cost, n) && Order(n, root, order)
  {
    && |D| == n && |p| == n && p[root] == root
    && (forall v {:trigger p[v]} :: 0 <= v < n ==> p[v] in order && D[v] == Base(D, root, p[v]) + cost[p[v]][v])
    && (forall j {:trigger p[order[j]]} :: 1 <= j < |order| ==> p[order[j]] in order[..j])
  }

  /** Labels settle in non-decreasing order; unsettled labels are the best one-edge extension. */
  ghost predicate Frontier(cost: Matrix, n: nat, root: int, order: seq<int>, D: seq<int>)
    requires Square(cost, n) && Order(n, root, order) && |D| == n
  {
    && (forall i, j :: 0 <= i <= j < |order| ==> Base(D, root, order[i]) <= Base(D, root, order[j]))
    && (forall u, v :: u in order && 0 <= v < n && v !in order ==>
          Base(D, root, u) <= D[v] <= Base(D, root, u) + cost[u][v])
  }

  ghost predicate Settled(cost: Matrix, n: nat, inf: int, root: int, order: seq<int>, D: seq<int>, p: seq<int>)
    requires Square(cost, n)
  {
    && Order(n, root, order)
    && TreeLabels(cost, n, root, order, D, p)
    && Frontier(cost, n, root, order, D)
    && (forall v :: v in order ==> LowerBound(cost, n, root, v, Base(D, root, v)))
    && (forall v :: v in order && v != root ==> D[v] < inf)
  }

  // ---------------------------------------------------------------- lemmas

  lemma {:induction false} CostNonNegative(cost: Matrix, n: nat, inf: int, path: seq<int>)
    requires Square(cost, n) && EntriesIn(cost, n, inf)
    requires forall i :: 0 <= i < |path| ==> 0 <= path[i] < n
    ensures 0 <= Cost(cost, n, path)
    decreases |path|
  {
    if |path| <= 1 {
    } else {
      CostNonNegative(cost, n, inf, path[..|path| - 1]);
    }
  }

  /** A path costing less than `inf` uses no `inf` entry: adding `inf` as a number is harmless. */
  lemma {:induction false} CheapPathIsFinite(cost: Matrix, n: nat, inf: int, path: seq<int>)
    requires Square(cost, n) && EntriesIn(cost, n, inf)
    requires forall i :: 0 <= i < |path| ==> 0 <= path[i] < n
    requires Cost(cost, n, path) < inf
    ensures OnlyFiniteEdges(cost, n, inf, path)
    decreases |path|
  {
    if |path| <= 1 {
    } else {
      var init := path[..|path| - 1];
      CostNonNegative(cost, n, inf, init);
      CheapPathIsFinite(cost, n, inf, init);
      forall i | 0 < i < |path| ensures cost[path[i - 1]][path[i]] < inf {
        if i < |init| { assert init[i - 1] == path[i - 1] && init[i] == path[i]; }
      }
    }
  }

  /** A walk that ends outside the settled set crosses the frontier, so it costs at least `m`,
      whenever no unsettled label is below `m`. */
  lemma {:induction false} Crossing(cost: Matrix, n: nat, inf: int, root: int, order: seq<int>,
                                    D: seq<int>, p: seq<int>, m: int, path: seq<int>, v: int)
    requires Square(cost, n) && EntriesIn(cost, n, inf)
    requires Settled(cost, n, inf, root, order, D, p)
    requires forall u :: 0 <= u < n && u !in order ==> m <= D[u]
    requires Path(n, path, root, v) && v !in order
    ensures m <= Cost(cost, n, path)
    decreases |path|
  {
    assert order[0] in order;
    var init := path[..|path| - 1];
    var x := init[|init| - 1];
    assert Path(n, init, root, x);
    if x in order {
      assert Base(D, root, x) <= Cost(cost, n, init);
    } else {
      Crossing(cost, n, inf, root, order, D, p, m, init, x);
    }
  }

  /** The labels after the first row is copied: only the root is settled. */
  lemma InitialSettled(cost: Matrix, n: nat, inf: int, root: int, D: seq<int>, p: seq<int>)
    requires Square(cost, n) && EntriesIn(cost, n, inf) && 0 <= root < n
    requires D == cost[root] && |p| == n && forall i :: 0 <= i < n ==> p[i] == root
    ensures Settled(cost, n, inf, root, [root], D, p)
  {
    assert root in [root];
    forall path | Path(n, path, root, root) ensures 0 <= Cost(cost, n, path) {
      CostNonNegative(cost, n, inf, path);
    }
  }

  /** What relaxing every unsettled node through `v` does to the labels. */
  ghost predicate Relaxed(cost: Matrix, n: nat, order: seq<int>, v: int,
                          D: seq<int>, p: seq<int>, D': seq<int>, p': seq<int>)
    requires Square(cost, n) && 0 <= v < n && |D| == n && |p| == n
  {
    && |D'| == n && |p'| == n
    && (forall i {:trigger D'[i]} :: 0 <= i < n ==>
          D'[i] == if Shortens(cost, n, order, v, D, i) then D[v] + cost[v][i] else D[i])
    && (forall i {:trigger p'[i]} :: 0 <= i < n ==>
          p'[i] == if Shortens(cost, n, order, v, D, i) then v else p[i])
  }

  ghost predicate Shortens(cost: Matrix, n: nat, order: seq<int>, v: int, D: seq<int>, i: int)
    requires Square(cost, n) && 0 <= v < n && |D| == n && 0 <= i < n
  {
    i !in order && i != v && D[i] > D[v] + cost[v][i]
  }

  lemma NextOrder(n: nat, root: int, order: seq<int>, v: int)
    requires Order(n, root, order) && 0 <= v < n && v !in order
    ensures Order(n, root, order + [v])
    ensures forall u :: u in order + [v] <==> u in order || u == v
  {
  }

  lemma NextTree(cost: Matrix, n: nat, root: int, order: seq<int>, v: int,
                 D: seq<int>, p: seq<int>, D': seq<int>, p': seq<int>)
    requires Square(cost, n) && Order(n, root, order) && TreeLabels(cost, n, root, order, D, p)
    requires 0 <= v < n && v !in order
    requires Relaxed(cost, n, order, v, D, p, D', p')
    requires Order(n, root, order + [v])
    ensures TreeLabels(cost, n, root, order + [v], D', p')
  {
  }

  lemma NextFrontier(cost: Matrix, n: nat, inf: int, root: int, order: seq<int>, v: int,
                     D: seq<int>, p: seq<int>, D': seq<int>, p': seq<int>)
    requires Square(cost, n) && EntriesIn(cost, n, inf)
    requires Order(n, root, order) && |D| == n && |p| == n && Frontier(cost, n, root, order, D)
    requires 0 <= v < n && v !in order
    requires forall u :: 0 <= u < n && u !in order ==> D[v] <= D[u]
    requires Relaxed(cost, n, order, v, D, p, D', p')
    requires Order(n, root, order + [v])
    ensures Frontier(cost, n, root, order + [v], D')
  {
    var order' := order + [v];
    assert order[0] in order;
    forall i, j | 0 <= i <= j < |order'|
      ensures Base(D', root, order'[i]) <= Base(D', root, order'[j])
    {
      assert i < |order| ==> order[i] in order;
      assert j < |order| ==> order[j] in order;
    }
    forall u, w | u in order' && 0 <= w < n && w !in order'
      ensures Base(D', root, u) <= D'[w] <= Base(D', root, u) + cost[u][w]
    {
      assert v in order';
      assert w in order ==> w in order';
    }
  }

  lemma NextBound(cost: Matrix, n: nat, inf: int, root: int, order: seq<int>, v: int, D: seq<int>, p: seq<int>)
    requires Square(cost, n) && EntriesIn(cost, n, inf)
    requires Settled(cost, n, inf, root, order, D, p)
    requires 0 <= v < n && v !in order
    requires forall u :: 0 <= u < n && u !in order ==> D[v] <= D[u]
    ensures LowerBound(cost, n, root, v, D[v]) && v != root
  {
    assert order[0] in order;
    forall path | Path(n, path, root, v) ensures D[v] <= Cost(cost, n, path) {
      Crossing(cost, n, inf, root, order, D, p, D[v], path, v);
    }
  }

  /** One round of the loop: settling a least unsettled node and relaxing through it. */
  lemma SettleNext(cost: Matrix, n: nat, inf: int, root: int, order: seq<int>, v: int,
                   D: seq<int>, p: seq<int>, D': seq<int>, p': seq<int>)
    requires Square(cost, n) && EntriesIn(cost, n, inf)
    requires Settled(cost, n, inf, root, order, D, p)
    requires 0 <= v < n && v !in order && D[v] < inf
    requires forall u :: 0 <= u < n && u !in order ==> D[v] <= D[u]
    requires Relaxed(cost, n, order, v, D, p, D', p')
    ensures Settled(cost, n, inf, root, order + [v], D', p')
  {
    NextBound(cost, n, inf, root, order, v, D, p);
    NextOrder(n, root, order, v);
    NextTree(cost, n, root, order, v, D, p, D', p');
    NextFrontier(cost, n, inf, root, order, v, D, p, D', p');
    forall u | u in order + [v]
      ensures LowerBound(cost, n, root, u, Base(D', root, u)) && (u != root ==> D'[u] < inf)
    {
      assert u in order || u == v;
    }
  }

  /** The walk obtained by following predecessors from `v` for at most `k` steps. */
  ghost function Follow(p: seq<int>, root: int, v: int, k: nat): seq<int>
    requires forall i :: 0 <= i < |p| ==> 0 <= p[i] < |p|
    requires 0 <= v < |p|
    decreases k
  {
    if k == 0 || v == root then [v] else Follow(p, root, p[v], k - 1) + [v]
  }

  lemma PredecessorsAreNodes(cost: Matrix, n: nat, root: int, order: seq<int>, D: seq<int>, p: seq<int>)
    requires Square(cost, n) && Order(n, root, order) && TreeLabels(cost, n, root, order, D, p)
    ensures forall i :: 0 <= i < |p| ==> 0 <= p[i] < |p|
  {
  }

  /** Following `p` from the j-th settled node reaches the root within j steps, and the edges on
      the way add up to the node's label. */
  lemma {:induction false} FollowTree(cost: Matrix, n: nat, root: int, order: seq<int>, D: seq<int>, p: seq<int>,
                                      j: nat, k: nat)
    requires Square(cost, n) && Order(n, root, order) && TreeLabels(cost, n, root, order, D, p)
    requires forall i :: 0 <= i < |p| ==> 0 <= p[i] < |p|
    requires j <= k && j < |order|
    ensures var path := Follow(p, root, order[j], k);
            && Path(n, path, root, order[j]) && |path| <= j + 1
            && Cost(cost, n, path) == Base(D, root, order[j])
    decreases j
  {
    if j == 0 {
    } else {
      var v := order[j];
      var i := TreeEdge(cost, n, root, order, D, p, j);
      FollowTree(cost, n, root, order, D, p, i, k - 1);
      ExtendPath(cost, n, Follow(p, root, p[v], k - 1), root, p[v], v);
    }
  }

  lemma TreeEdge(cost: Matrix, n: nat, root: int, order: seq<int>, D: seq<int>, p: seq<int>, j: nat) returns (i: nat)
    requires Square(cost, n) && Order(n, root, order) && TreeLabels(cost, n, root, order, D, p)
    requires 1 <= j < |order|
    ensures i < j && order[i] == p[order[j]] && order[j] != root
    ensures D[order[j]] == Base(D, root, order[i]) + cost[order[i]][order[j]]
  {
    assert p[order[j]] in order[..j];
    i :| 0 <= i < j && order[..j][i] == p[order[j]];
  }

  lemma ExtendPath(cost: Matrix, n: nat, path: seq<int>, a: int, x: int, v: int)
    requires Square(cost, n) && Path(n, path, a, x) && 0 <= v < n
    ensures Path(n, path + [v], a, v)
    ensures Cost(cost, n, path + [v]) == Cost(cost, n, path) + cost[x][v]
  {
  }

  ghost function Nodes(n: nat): (nodes: set<int>)
    ensures |nodes| == n && forall v :: v in nodes <==> 0 <= v < n
  {
    if n == 0 then {} else Nodes(n - 1) + {n - 1}
  }

  /** A duplicate-free list of nodes holds all of them exactly when it is full. */
  lemma FullOrder(n: nat, order: seq<int>)
    requires forall i :: 0 <= i < |order| ==> 0 <= order[i] < n
    requires forall i, j :: 0 <= i < j < |order| ==> order[i] != order[j]
    ensures |order| <= n
    ensures |order| == n <==> forall v :: 0 <= v < n ==> v in order
  {
    var members := set v | v in order;
    DistinctSize(order, members);
    SubsetSize(members, Nodes(n));
    if forall v :: 0 <= v < n ==> v in order {
      assert members == Nodes(n);
    }
    forall v | members == Nodes(n) && 0 <= v < n ensures v in order {
      assert v in members;
    }
  }

  lemma {:induction false} DistinctSize(order: seq<int>, members: set<int>)
    requires forall i, j :: 0 <= i < j < |order| ==> order[i] != order[j]
    requires members == set v | v in order
    ensures |members| == |order|
  {
    if |order| == 0 {
    } else {
      var init := order[..|order| - 1];
      var last := order[|order| - 1];
      var rest := set v | v in init;
      DistinctSize(init, rest);
      assert order == init + [last];
      assert members == rest + {last};
    }
  }

  lemma SubsetSize(a: set<int>, b: set<int>)
    requires a <= b
    ensures |a| <= |b| && (|a| == |b| <==> a == b)
  {
    assert b == a + (b - a);
  }

  // ---------------------------------------------------------------- results

  ghost predicate AllReachable(cost: Matrix, n: nat, inf: int, root: int)
    requires Square(cost, n)
  {
    forall v :: 0 <= v < n && v != root ==> Reachable(cost, n, inf, root, v)
  }

  /** Every label is the distance from the root; the root keeps its own diagonal entry. */
  ghost predicate Distances(cost: Matrix, n: nat, inf: int, root: int, D: seq<int>)
    requires Square(cost, n) && 0 <= root < n
  {
    && |D| == n && D[root] == cost[root][root]
    && forall v :: 0 <= v < n && v != root ==> IsDistance(cost, n, inf, root, v, D[v])
  }

  /** `order` lists every node once, the root first, the others by non-decreasing distance. */
  ghost predicate SettleOrder(n: nat, root: int, order: seq<int>, D: seq<int>)
    requires |D| == n
  {
    && Order(n, root, order) && |order| == n
    && (forall v :: 0 <= v < n ==> v in order)
    && forall i, j :: 1 <= i <= j < n ==> D[order[i]] <= D[order[j]]
  }

  /** From any node, following `p` reaches the root in fewer than `n` steps along edges that add
      up to the node's distance. */
  ghost predicate PredecessorTree(cost: Matrix, n: nat, root: int, D: seq<int>, p: seq<int>)
    requires Square(cost, n) && |D| == n
  {
    && |p| == n && (forall v :: 0 <= v < n ==> 0 <= p[v] < n)
    && forall v :: 0 <= v < n ==> LeadsToRoot(cost, n, root, D, p, v)
  }

  ghost predicate LeadsToRoot(cost: Matrix, n: nat, root: int, D: seq<int>, p: seq<int>, v: int)
    requires Square(cost, n) && |D| == |p| == n && 0 <= v < n
    requires forall i :: 0 <= i < n ==> 0 <= p[i] < n
  {
    var path := Follow(p, root, v, n - 1);
    Path(n, path, root, v) && |path| <= n && Cost(cost, n, path) == Base(D, root, v)
  }

  lemma SettledIsOptimal(cost: Matrix, n: nat, inf: int, root: int, order: seq<int>, D: seq<int>, p: seq<int>, v: int)
    requires Square(cost, n) && EntriesIn(cost, n, inf)
    requires Settled(cost, n, inf, root, order, D, p)
    requires v in order && v != root
    ensures IsDistance(cost, n, inf, root, v, D[v])
    ensures Reachable(cost, n, inf, root, v)
  {
    var j :| 0 <= j < |order| && order[j] == v;
    PredecessorsAreNodes(cost, n, root, order, D, p);
    FollowTree(cost, n, root, order, D, p, j, j);
    var path := Follow(p, root, v, j);
    CheapPathIsFinite(cost, n, inf, path);
    assert LowerBound(cost, n, root, v, D[v]);
  }

  /** When every node is settled the labels are the distances and `p` is a shortest-path tree. */
  lemma AllSettled(cost: Matrix, n: nat, inf: int, root: int, order: seq<int>, D: seq<int>, p: seq<int>)
    requires Square(cost, n) && EntriesIn(cost, n, inf) && 0 <= root < n
    requires Settled(cost, n, inf, root, order, D, p)
    requires D[root] == cost[root][root]
    requires |order| == n && forall v :: 0 <= v < n ==> v in order
    ensures AllReachable(cost, n, inf, root) && Distances(cost, n, inf, root, D)
    ensures SettleOrder(n, root, order, D) && PredecessorTree(cost, n, root, D, p)
  {
    forall v | 0 <= v < n && v != root
      ensures Reachable(cost, n, inf, root, v) && IsDistance(cost, n, inf, root, v, D[v])
    {
      SettledIsOptimal(cost, n, inf, root, order, D, p, v);
    }
    AllFollowed(cost, n, root, order, D, p);
  }

  lemma AllFollowed(cost: Matrix, n: nat, root: int, order: seq<int>, D: seq<int>, p: seq<int>)
    requires Square(cost, n) && Order(n, root, order) && TreeLabels(cost, n, root, order, D, p)
    requires |order| == n && forall v :: 0 <= v < n ==> v in order
    ensures PredecessorTree(cost, n, root, D, p)
  {
    PredecessorsAreNodes(cost, n, root, order, D, p);
    forall v | 0 <= v < n
      ensures LeadsToRoot(cost, n, root, D, p, v)
    {
      assert v in order;
      var j :| 0 <= j < |order| && order[j] == v;
      FollowTree(cost, n, root, order, D, p, j, n - 1);
    }
  }

  /** Every label, the root's included, is a distance, and `order` lists all nodes by distance. */
  ghost predicate FullDistances(cost: Matrix, n: nat, inf: int, root: int, order: seq<int>, D: seq<int>)
    requires Square(cost, n) && |D| == n && (forall i :: 0 <= i < |order| ==> 0 <= order[i] < n)
  {
    && (forall v :: 0 <= v < n ==> IsDistance(cost, n, inf, root, v, D[v]))
    && forall i, j :: 0 <= i <= j < |order| ==> D[order[i]] <= D[order[j]]
  }

  /** With a zero diagonal the root is no exception. */
  lemma ZeroDiagonal(cost: Matrix, n: nat, inf: int, root: int, order: seq<int>, D: seq<int>)
    requires Square(cost, n) && EntriesIn(cost, n, inf) && 0 <= root < n && cost[root][root] == 0
    requires Distances(cost, n, inf, root, D) && SettleOrder(n, root, order, D)
    ensures D[root] == 0 && FullDistances(cost, n, inf, root, order, D)
  {
    forall path | Path(n, path, root, root) ensures 0 <= Cost(cost, n, path) {
      CostNonNegative(cost, n, inf, path);
    }
    assert Path(n, [root], root, root) && OnlyFiniteEdges(cost, n, inf, [root]) && Cost(cost, n, [root]) == 0;
    forall j | 0 <= j < n ensures 0 <= D[order[j]] {
      if order[j] != root {
        var v := order[j];
        assert IsDistance(cost, n, inf, root, v, D[v]);
        var path :| Path(n, path, root, v) && OnlyFiniteEdges(cost, n, inf, path) && Cost(cost, n, path) == D[v];
        CostNonNegative(cost, n, inf, path);
      }
    }
  }

  /** When no unsettled label is below `inf`, no unsettled node is reachable. */
  lemma StuckIsUnreachable(cost: Matrix, n: nat, inf: int, root: int, order: seq<int>, D: seq<int>, p: seq<int>, v: int)
    requires Square(cost, n) && EntriesIn(cost, n, inf)
    requires Settled(cost, n, inf, root, order, D, p)
    requires 0 <= v < n && v !in order
    requires forall u :: 0 <= u < n && u !in order ==> inf <= D[u]
    ensures !AllReachable(cost, n, inf, root)
  {
    assert order[0] in order;
    forall path | Path(n, path, root, v) ensures inf <= Cost(cost, n, path) {
      Crossing(cost, n, inf, root, order, D, p, inf, path, v);
    }
    assert !Reachable(cost, n, inf, root, v);
  }

  /** Failing inputs. Two nodes joined by nothing but `inf`; and three nodes in a chain of finite
      edges, the far end of which lies `inf` or further away. */
  lemma ApartStops(inf: int)
    requires inf >= 0
    ensures var cost := [[0, inf], [inf, 0]];
            Square(cost, 2) && EntriesIn(cost, 2, inf) && !AllReachable(cost, 2, inf, 0)
  {
    var cost := [[0, inf], [inf, 0]];
    InitialSettled(cost, 2, inf, 0, cost[0], [0, 0]);
    StuckIsUnreachable(cost, 2, inf, 0, [0], cost[0], [0, 0], 1);
  }

  lemma FarStops(inf: int, d: int)
    requires d < inf <= 2 * d
    ensures var cost := [[0, d, inf], [d, 0, d], [inf, d, 0]];
            && Square(cost, 3) && EntriesIn(cost, 3, inf) && !AllReachable(cost, 3, inf, 0)
            && Path(3, [0, 1, 2], 0, 2) && OnlyFiniteEdges(cost, 3, inf, [0, 1, 2])
  {
    var cost := [[0, d, inf], [d, 0, d], [inf, d, 0]];
    FarSettled(cost, inf, d);
    StuckIsUnreachable(cost, 3, inf, 0, [0, 1], [0, d, inf], [0, 0, 0], 2);
  }

  lemma FarSettled(cost: Matrix, inf: int, d: int)
    requires d < inf <= 2 * d && cost == [[0, d, inf], [d, 0, d], [inf, d, 0]]
    ensures Square(cost, 3) && EntriesIn(cost, 3, inf)
    ensures Settled(cost, 3, inf, 0, [0, 1], [0, d, inf], [0, 0, 0])
  {
    InitialSettled(cost, 3, inf, 0, [0, d, inf], [0, 0, 0]);
    FarRelaxed(cost, inf, d);
    SettleNext(cost, 3, inf, 0, [0], 1, [0, d, inf], [0, 0, 0], [0, d, inf], [0, 0, 0]);
    assert [0] + [1] == [0, 1];
  }

  lemma FarRelaxed(cost: Matrix, inf: int, d: int)
    requires d < inf <= 2 * d && cost == [[0, d, inf], [d, 0, d], [inf, d, 0]]
    ensures Square(cost, 3) && Relaxed(cost, 3, [0], 1, [0, d, inf], [0, 0, 0], [0, d, inf], [0, 0, 0])
  {
  }
}
