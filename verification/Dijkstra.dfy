/** The single-source shortest-path program, on its global arrays. */
module Dijkstra {
  import opened ShortestPath

  datatype Status = Succeeded | ValueErr | NameNotAssigned

  /** Checks the cost matrix and the node names before any run. */
  method ValueCheck(n: nat, inf: int, cost: Matrix, nodeName: string) returns (status: Status)
    requires Square(cost, n) && |nodeName| == n
    ensures status != ValueErr <==> EntriesIn(cost, n, inf)
    ensures status == NameNotAssigned <==> EntriesIn(cost, n, inf) && '\0' in nodeName
  {
    for i := 0 to n
      invariant forall a, b :: 0 <= a < i && 0 <= b < n ==> 0 <= cost[a][b] <= inf
    {
      for j := 0 to n
        invariant forall b :: 0 <= b < j ==> 0 <= cost[i][b] <= inf
      {
        if cost[i][j] < 0 || inf < cost[i][j] { return ValueErr; }
      }
    }
    for i := 0 to n
      invariant '\0' !in nodeName[..i]
    {
      if nodeName[i] == '\0' { return NameNotAssigned; }
    }
    return Succeeded;
  }

  method Exist(a: array<int>, len: nat, target: int) returns (found: bool)
    requires len <= a.Length
    ensures found <==> target in a[..len]
  {
    for i := 0 to len
      invariant target !in a[..i]
    {
      if a[i] == target { return true; }
    }
    return false;
  }

  class Solver {
    const n: nat
    const inf: int
    const cost: Matrix
    const Nprime: array<int>
    const D: array<int>
    const p: array<int>
    var iNprime: nat

    constructor (n: nat, inf: int, cost: Matrix)
      requires Square(cost, n)
      ensures this.n == n && this.inf == inf && this.cost == cost && Valid()
      ensures fresh(Nprime) && fresh(D) && fresh(p)
    {
      this.n, this.inf, this.cost := n, inf, cost;
      Nprime := new int[n];
      D := new int[n];
      p := new int[n];
      iNprime := 0;
    }

    ghost predicate Valid() {
      && Square(cost, n)
      && Nprime.Length == D.Length == p.Length == n
      && Nprime != D && Nprime != p && D != p
    }

    /** `Nprime` holds exactly `order`, then -1 in every slot not yet used. */
    ghost predicate Visited(order: seq<int>)
      requires Valid()
      reads this, Nprime
    {
      && |order| <= n && iNprime == (if |order| == n then 0 else |order|)
      && Nprime[..|order|] == order
      && forall i :: |order| <= i < n ==> Nprime[i] == -1
    }

    method AddNprime(num: int, ghost order: seq<int>)
      requires Valid() && Visited(order) && |order| < n
      modifies this`iNprime, Nprime
      ensures Visited(order + [num])
    {
      Nprime[iNprime] := num;
      assert Nprime[..|order|] == order;
      iNprime := iNprime + 1;
      WrapsOnlyWhenFull(iNprime, n);
      iNprime := iNprime % n;
    }

    lemma WrapsOnlyWhenFull(i: nat, n: nat)
      requires 0 < i <= n
      ensures i % n == if i == n then 0 else i
    {
    }

    method ClearNprime()
      requires Valid()
      modifies this`iNprime, Nprime
      ensures Visited([])
    {
      for i := 0 to n
        invariant forall j :: 0 <= j < i ==> Nprime[j] == -1
      {
        Nprime[i] := -1;
      }
      iNprime := 0;
    }

    /** The scan for the nearest node outside `Nprime`; `nearest` is -1 when no such node has a
        label below `inf`, and `fin` says that no node is outside. */
    method SelectNearest(ghost order: seq<int>) returns (fin: bool, nearest: int)
      requires Valid() && Visited(order)
      requires forall i :: 0 <= i < |order| ==> 0 <= order[i] < n
      ensures fin <==> forall v :: 0 <= v < n ==> v in order
      ensures nearest == -1 <==> forall v :: 0 <= v < n && v !in order ==> inf <= D[v]
      ensures nearest != -1 ==> 0 <= nearest < n && nearest !in order && D[nearest] < inf
      ensures nearest != -1 ==> forall v :: 0 <= v < n && v !in order ==> D[nearest] <= D[v]
    {
      fin := true;
      nearest := -1;
      var least := inf;
      for i := 0 to n
        invariant fin <==> forall v :: 0 <= v < i ==> v in order
        invariant nearest == -1 ==> least == inf
        invariant nearest != -1 ==> 0 <= nearest < i && nearest !in order && D[nearest] == least < inf
        invariant forall v :: 0 <= v < i && v !in order ==> least <= D[v]
      {
        var seen := Exist(Nprime, n, i);
        assert seen <==> i in order by { VisitedMembers(order, i); }
        if seen { continue; }
        if D[i] < least {
          nearest := i;
          least := D[i];
        }
        fin := false;
      }
    }

    lemma VisitedMembers(order: seq<int>, v: int)
      requires Valid() && Visited(order) && 0 <= v
      ensures v in Nprime[..n] <==> v in order
    {
    }

    /** Relaxes every node outside `Nprime` through the node just added. */
    method RelaxThrough(v: int, ghost order: seq<int>)
      requires Valid() && Visited(order + [v]) && 0 <= v < n
      requires forall i :: 0 <= i < |order| ==> 0 <= order[i] < n
      modifies D, p
      ensures Relaxed(cost, n, order, v, old(D[..]), old(p[..]), D[..], p[..])
    {
      for i := 0 to n
        invariant forall j :: i <= j < n ==> D[j] == old(D[j]) && p[j] == old(p[j])
        invariant D[v] == old(D[v])
        invariant forall j :: 0 <= j < i ==>
                    if j !in order && j != v && old(D[j]) > old(D[v]) + cost[v][j]
                    then D[j] == old(D[v]) + cost[v][j] && p[j] == v
                    else D[j] == old(D[j]) && p[j] == old(p[j])
      {
        var seen := Exist(Nprime, n, i);
        assert seen <==> i in order || i == v by { VisitedMembers(order + [v], i); }
        if seen { continue; }
        if D[i] > D[v] + cost[v][i] {
          D[i] := D[v] + cost[v][i];
          p[i] := v;
        }
      }
    }

    /** Copies the root's row into the labels. */
    method Initialize(root: int)
      requires Valid() && EntriesIn(cost, n, inf) && 0 <= root < n
      modifies this`iNprime, Nprime, D, p
      ensures Visited([root]) && D[root] == cost[root][root]
      ensures Settled(cost, n, inf, root, [root], D[..], p[..])
    {
      ClearNprime();
      AddNprime(root, []);
      assert [] + [root] == [root];
      for i := 0 to n
        invariant forall j :: 0 <= j < i ==> D[j] == cost[root][j] && p[j] == root
        invariant Visited([root])
      {
        D[i], p[i] := cost[root][i], root;
      }
      assert D[..] == cost[root];
      InitialSettled(cost, n, inf, root, D[..], p[..]);
    }

    /** Adds the selected node and relaxes through it. */
    method Settle(root: int, nearest: int, ghost order: seq<int>)
      requires Valid() && EntriesIn(cost, n, inf) && 0 <= root < n
      requires Visited(order) && |order| < n && D[root] == cost[root][root]
      requires Settled(cost, n, inf, root, order, D[..], p[..])
      requires 0 <= nearest < n && nearest !in order && D[nearest] < inf
      requires forall v :: 0 <= v < n && v !in order ==> D[nearest] <= D[v]
      modifies this`iNprime, Nprime, D, p
      ensures Visited(order + [nearest]) && D[root] == cost[root][root]
      ensures Settled(cost, n, inf, root, order + [nearest], D[..], p[..])
    {
      assert order[0] in order;
      AddNprime(nearest, order);
      RelaxThrough(nearest, order);
      SettleNext(cost, n, inf, root, order, nearest, old(D[..]), old(p[..]), D[..], p[..]);
    }

    /** One run. `ok` is false exactly when the scan yields index -1 although nodes are left,
        where the program would go on to use -1 as an array index.

        For every other matrix each label is the distance over `inf`-free paths, although the
        program adds `inf` entries like any number. */
    method Run(root: int) returns (ok: bool)
      requires Valid() && EntriesIn(cost, n, inf) && 0 <= root < n
      modifies this`iNprime, Nprime, D, p
      ensures ok <==> AllReachable(cost, n, inf, root)
      ensures ok ==> Distances(cost, n, inf, root, D[..])
      ensures ok ==> SettleOrder(n, root, Nprime[..], D[..])
      ensures ok ==> PredecessorTree(cost, n, root, D[..], p[..])
      ensures ok && cost[root][root] == 0 ==> D[root] == 0 && FullDistances(cost, n, inf, root, Nprime[..], D[..])
    {
      Initialize(root);
      ghost var order := [root];
      var k := 0;
      while k < n
        invariant k <= n && |order| == k + 1 <= n
        invariant Settled(cost, n, inf, root, order, D[..], p[..])
        invariant Visited(order) && D[root] == cost[root][root]
      {
        FullOrder(n, order);
        var fin, nearest := SelectNearest(order);
        if fin { break; }
        if nearest == -1 {
          ghost var v :| 0 <= v < n && v !in order;
          StuckIsUnreachable(cost, n, inf, root, order, D[..], p[..], v);
          return false;
        }
        Settle(root, nearest, order);
        order := order + [nearest];
        k := k + 1;
      }
      FullOrder(n, order);
      assert Nprime[..] == order;
      AllSettled(cost, n, inf, root, order, D[..], p[..]);
      if cost[root][root] == 0 { ZeroDiagonal(cost, n, inf, root, order, D[..]); }
      return true;
    }
  }
}
