/** A mind map is determined by its view: what compile_mindmap_scene of cartography/mindmap.py leaves no choice in. */
module MindMapStable {
  import opened Collections
  import opened MindMapTree
  import opened MindMapLayout
  import opened MindMap

  /** The same neighbours, and first occurrences in the same order. */
  ghost predicate SameGraph(a: Adjacency, b: Adjacency) {
    && (forall u, v :: v in Neighbors(a, u) <==> v in Neighbors(b, u))
    && forall u, v, w | v in Neighbors(a, u) && w in Neighbors(a, u) :: SameTurn(a, b, u, v, w)
  }

  ghost predicate SameTurn(a: Adjacency, b: Adjacency, u: Id, v: Id, w: Id) {
    && v in Neighbors(a, u) && w in Neighbors(a, u) && v in Neighbors(b, u) && w in Neighbors(b, u)
    && (IndexIn(Neighbors(a, u), v) < IndexIn(Neighbors(a, u), w) <==>
        IndexIn(Neighbors(b, u), v) < IndexIn(Neighbors(b, u), w))
  }

  ghost predicate SearchedTree(adjacency: Adjacency, t: Tree, maxDepth: int) {
    && Parented(adjacency, t) && InOrder(t) && ShortestPaths(adjacency, t, maxDepth)
    && FirstCome(adjacency, t, maxDepth)
  }

  lemma SameWalks(a: Adjacency, b: Adjacency, root: Id, v: Id, n: nat)
    requires SameGraph(a, b)
    ensures Reaches(a, root, v, n) <==> Reaches(b, root, v, n)
  {
    hide SameTurn;
    assert forall path :: Walk(a, path) <==> Walk(b, path);
  }

  lemma SameDepths(a: Adjacency, s: Tree, b: Adjacency, t: Tree, maxDepth: int)
    requires SameGraph(a, b) && s.root == t.root && ShortestPaths(a, s, maxDepth) && ShortestPaths(b, t, maxDepth)
    ensures s.depth == t.depth
  {
    hide SameGraph, Reaches;
    forall v, n: nat ensures Reaches(a, s.root, v, n) <==> Reaches(b, s.root, v, n) {
      SameWalks(a, b, s.root, v, n);
    }
    forall v ensures v in s.depth <==> v in t.depth {
      if v in s.depth {
        assert Reaches(b, t.root, v, s.depth[v]);
      }
      if v in t.depth {
        assert Reaches(a, s.root, v, t.depth[v]);
      }
    }
    forall v | v in s.depth ensures s.depth[v] == t.depth[v] {
      assert IsDistance(a, s.root, v, s.depth[v]) && IsDistance(b, t.root, v, t.depth[v]);
    }
  }

  /** In a tree whose queue agrees with that of another up to k, a parent before k is the parent in the other, too. */
  lemma ParentNotLater(a: Adjacency, s: Tree, b: Adjacency, t: Tree, maxDepth: int, k: nat, v: Id)
    requires SameGraph(a, b) && s.depth == t.depth && Parented(a, s) && ShortestPaths(a, s, maxDepth)
    requires FirstFound(b, t, maxDepth) && v in s.parent && v in t.parent
    requires s.parent[v] in s.order && IndexIn(s.order, s.parent[v]) < k
    requires k <= |s.order| && k <= |t.order| && s.order[..k] == t.order[..k]
    ensures t.parent[v] in t.order && IndexIn(t.order, t.parent[v]) <= IndexIn(s.order, s.parent[v])
  {
    var i := IndexIn(s.order, s.parent[v]);
    assert t.order[i] == t.order[..k][i] == s.order[..k][i] == s.parent[v];
    assert s.depth[v] <= Limit(maxDepth);
  }

  lemma SameParent(a: Adjacency, s: Tree, b: Adjacency, t: Tree, maxDepth: int, k: nat, v: Id)
    requires SameGraph(a, b) && s.depth == t.depth && SearchedTree(a, s, maxDepth) && SearchedTree(b, t, maxDepth)
    requires v in s.parent && v in t.parent && s.parent[v] in s.order && IndexIn(s.order, s.parent[v]) < k
    requires k <= |s.order| && k <= |t.order| && s.order[..k] == t.order[..k]
    ensures t.parent[v] == s.parent[v] && t.parent[v] in t.order
    ensures IndexIn(t.order, t.parent[v]) == IndexIn(s.order, s.parent[v])
  {
    hide SameGraph, Parented, InOrder, ShortestPaths, Queued, FirstFound;
    ParentNotLater(a, s, b, t, maxDepth, k, v);
    assert SameGraph(b, a) by {
      GraphsSwap(a, b);
    }
    ParentNotLater(b, t, a, s, maxDepth, k, v);
    var i := IndexIn(s.order, s.parent[v]);
    assert t.order[i] == t.order[..k][i] == s.order[..k][i];
  }

  lemma GraphsSwap(a: Adjacency, b: Adjacency)
    requires SameGraph(a, b)
    ensures SameGraph(b, a)
  {
    forall u, v, w | v in Neighbors(b, u) && w in Neighbors(b, u) ensures SameTurn(b, a, u, v, w) {
      assert SameTurn(a, b, u, v, w);
    }
  }

  /** A node's parent stands before it in the queue. */
  lemma ParentIsBefore(adjacency: Adjacency, t: Tree, k: nat)
    requires Parented(adjacency, t) && InOrder(t) && k < |t.order| && t.order[k] in t.parent
    ensures t.parent[t.order[k]] in t.order && IndexIn(t.order, t.parent[t.order[k]]) < k
  {
    var p := t.parent[t.order[k]];
    assert p in t.order;
    var i := IndexIn(t.order, p);
    assert t.depth[t.order[i]] < t.depth[t.order[k]];
  }

  lemma LaterThanPrefix(s: Tree, t: Tree, k: nat) returns (j: nat)
    requires InOrder(s) && InOrder(t) && s.depth == t.depth && k < |s.order| && k < |t.order|
    requires s.order[..k] == t.order[..k] && s.order[k] != t.order[k]
    ensures k < j < |t.order| && t.order[j] == s.order[k]
  {
    assert forall i | 0 <= i < k :: s.order[i] == s.order[..k][i] == t.order[..k][i] == t.order[i];
    assert s.order[k] in s.order && s.order[k] in t.order;
    j :| 0 <= j < |t.order| && t.order[j] == s.order[k];
  }

  lemma {:induction false} NextIsSame(a: Adjacency, s: Tree, b: Adjacency, t: Tree, maxDepth: int, k: nat)
    requires SameGraph(a, b) && s.root == t.root && s.depth == t.depth
    requires SearchedTree(a, s, maxDepth) && SearchedTree(b, t, maxDepth)
    requires k < |s.order| && k < |t.order| && s.order[..k] == t.order[..k]
    ensures s.order[k] == t.order[k]
  {
    hide SameGraph, Parented, InOrder, ShortestPaths, FirstFound, Earlier;
    if k > 0 && s.order[k] != t.order[k] {
      var x, y := s.order[k], t.order[k];
      var j := LaterThanPrefix(s, t, k);
      var i := LaterThanPrefix(t, s, k);
      EarlierOneWay(a, s, b, t, maxDepth, k, i);
      GraphsSwap(a, b);
      EarlierOneWay(b, t, a, s, maxDepth, k, j);
    }
  }

  /** Whether a queued node comes before a later one is the same in both searches. */
  lemma {:induction false} EarlierOneWay(a: Adjacency, s: Tree, b: Adjacency, t: Tree, maxDepth: int, k: nat, i: nat)
    requires SameGraph(a, b) && s.depth == t.depth && SearchedTree(a, s, maxDepth) && SearchedTree(b, t, maxDepth)
    requires 0 < k < i < |s.order| && k < |t.order| && s.order[..k] == t.order[..k] && s.order[i] == t.order[k]
    ensures var x, y := s.order[k], s.order[i];
            && x in s.parent && y in s.parent && s.parent[x] in s.order && s.parent[y] in s.order
            && t.parent.Keys == s.parent.Keys && t.parent[x] == s.parent[x] && t.parent[y] == s.parent[y]
            && !Earlier(b, t, y, x)
  {
    hide SameGraph, InOrder, ShortestPaths, FirstFound;
    var x, y := s.order[k], s.order[i];
    assert Earlier(a, s, x, y);
    ParentIsBefore(a, s, k);
    ParentIsBefore(b, t, k);
    SameParent(a, s, b, t, maxDepth, k, x);
    GraphsSwap(a, b);
    SameParent(b, t, a, s, maxDepth, k, y);
    if s.parent[x] == s.parent[y] {
      TurnOf(a, b, s.parent[x], x, y);
    }
  }

  lemma TurnOf(a: Adjacency, b: Adjacency, u: Id, v: Id, w: Id)
    requires SameGraph(a, b) && v in Neighbors(a, u) && w in Neighbors(a, u)
    ensures SameTurn(a, b, u, v, w)
  {
  }

  lemma {:induction false} SameOrders(a: Adjacency, s: Tree, b: Adjacency, t: Tree, maxDepth: int, k: nat)
    requires SameGraph(a, b) && s.root == t.root && s.depth == t.depth
    requires SearchedTree(a, s, maxDepth) && SearchedTree(b, t, maxDepth) && k <= |s.order|
    ensures k <= |t.order| && s.order[..k] == t.order[..k]
  {
    hide SameGraph, Parented, ShortestPaths, FirstCome;
    if k > 0 {
      SameOrders(a, s, b, t, maxDepth, k - 1);
      NotAllListed(s, t, k - 1);
      NextIsSame(a, s, b, t, maxDepth, k - 1);
      assert s.order[..k] == s.order[..k - 1] + [s.order[k - 1]];
      assert t.order[..k] == t.order[..k - 1] + [t.order[k - 1]];
    }
  }

  lemma NotAllListed(s: Tree, t: Tree, k: nat)
    requires InOrder(s) && InOrder(t) && s.depth == t.depth && k < |s.order| && k <= |t.order|
    requires s.order[..k] == t.order[..k]
    ensures k < |t.order|
  {
    assert forall i | 0 <= i < k :: s.order[i] == s.order[..k][i] == t.order[..k][i] == t.order[i];
    assert s.order[k] in s.order && s.order[k] in t.order;
  }

  lemma {:induction false} SameOrder(a: Adjacency, s: Tree, b: Adjacency, t: Tree, maxDepth: int)
    requires SameGraph(a, b) && s.root == t.root && s.depth == t.depth
    requires SearchedTree(a, s, maxDepth) && SearchedTree(b, t, maxDepth)
    ensures s.order == t.order
  {
    hide SameGraph, SearchedTree;
    SameOrders(a, s, b, t, maxDepth, |s.order|);
    GraphsSwap(a, b);
    SameOrders(b, t, a, s, maxDepth, |t.order|);
    assert s.order[..|s.order|] == s.order && t.order[..|t.order|] == t.order;
  }

  /** The search has no choice: graphs that agree give the same tree, found in the same order. */
  lemma {:induction false} TreeIsDetermined(a: Adjacency, s: Tree, b: Adjacency, t: Tree, maxDepth: int)
    requires SameGraph(a, b) && s.root == t.root
    requires SearchedTree(a, s, maxDepth) && SearchedTree(b, t, maxDepth)
    ensures s == t
  {
    hide SameGraph, Parented, InOrder, ShortestPaths, FirstCome;
    SameDepths(a, s, b, t, maxDepth);
    SameOrder(a, s, b, t, maxDepth);
    SameKeys(a, s, b, t);
    forall v | v in s.parent ensures t.parent[v] == s.parent[v] {
      ParentIsListed(a, s, b, t, v);
      SameParent(a, s, b, t, maxDepth, |s.order|, v);
    }
  }

  lemma ParentIsListed(a: Adjacency, s: Tree, b: Adjacency, t: Tree, v: Id)
    requires Parented(a, s) && Parented(b, t) && InOrder(s) && s.root == t.root && s.depth == t.depth && v in s.parent
    ensures v in t.parent && s.parent[v] in s.order
  {
  }

  lemma SameKeys(a: Adjacency, s: Tree, b: Adjacency, t: Tree)
    requires Parented(a, s) && Parented(b, t) && s.root == t.root && s.depth == t.depth
    ensures s.parent.Keys == t.parent.Keys
  {
  }

  // ----- the whole map -----

  ghost predicate Injective(rank: Id -> int) {
    forall u, v | rank(u) == rank(v) :: u == v
  }

  lemma AscendingTurn(rank: Id -> int, s: seq<Id>, v: Id, w: Id)
    requires Injective(rank) && Ascends(rank, s) && v in s && w in s
    ensures IndexIn(s, v) < IndexIn(s, w) <==> rank(v) < rank(w)
  {
    if IndexIn(s, v) == IndexIn(s, w) {
      assert v == w;
    }
  }

  lemma SortedGraphsAgree(a: Adjacency, b: Adjacency, rank: Id -> int)
    requires Injective(rank) && forall u :: Ascends(rank, Neighbors(a, u)) && Ascends(rank, Neighbors(b, u))
    requires forall u, v :: v in Neighbors(a, u) <==> v in Neighbors(b, u)
    ensures SameGraph(a, b)
  {
    hide Injective, Ascends;
    forall u, v, w | v in Neighbors(a, u) && w in Neighbors(a, u) ensures SameTurn(a, b, u, v, w) {
      AscendingTurn(rank, Neighbors(a, u), v, w);
      AscendingTurn(rank, Neighbors(b, u), v, w);
    }
  }

  lemma BothEmpty(s: seq<Id>, t: seq<Id>)
    requires forall v :: v in s <==> v in t
    ensures s == [] <==> t == []
  {
    assert s != [] ==> s[0] in s;
    assert t != [] ==> t[0] in t;
  }

  lemma {:induction false} SortedOnce(rank: Id -> int, s: seq<Id>, t: seq<Id>)
    requires Injective(rank) && Ascends(rank, s) && Ascends(rank, t) && Distinct(s) && Distinct(t)
    requires forall v :: v in s <==> v in t
    ensures s == t
  {
    BothEmpty(s, t);
    if s != [] {
      assert s[0] in t && t[0] in s;
      assert s[0] == t[0];
      forall v ensures v in s[1..] <==> v in t[1..] {
        assert v in s <==> v == s[0] || v in s[1..];
        assert v in t <==> v == t[0] || v in t[1..];
      }
      SortedOnce(rank, s[1..], t[1..]);
      assert s == [s[0]] + s[1..] && t == [t[0]] + t[1..];
    }
  }

  lemma SameChildren(s: Shape, t: Shape, rank: Id -> int)
    requires TreeShaped(s) && TreeShaped(t) && Injective(rank)
    requires ListsFit(s.children, s.depth.Keys) && ListsFit(t.children, t.depth.Keys)
    requires s.root == t.root && s.parent == t.parent && s.depth == t.depth && s.height == t.height
    requires forall u :: Ascends(rank, Kids(s, u)) && Ascends(rank, Kids(t, u))
    ensures s == t
  {
    hide Injective, Ascends;
    forall u | u in s.depth ensures Kids(s, u) == Kids(t, u) {
      forall v ensures v in Kids(s, u) <==> v in Kids(t, u) {
        assert v in Kids(s, u) <==> v in s.parent && s.parent[v] == u;
        assert v in Kids(t, u) <==> v in t.parent && t.parent[v] == u;
      }
      SortedOnce(rank, Kids(s, u), Kids(t, u));
    }
    assert s.children == t.children;
  }

  /**
   * When the order by label and id tells all nodes apart, the map is determined by the nodes and the set of kept
   * edges: the same tree, drawn at the same places, in whatever order the edges come.
   */
  lemma MapIsDetermined(c: Compiled, d: Compiled, root: Id, nodes: set<Id>, kept: seq<Edge>, others: seq<Edge>,
                        maxDepth: int, rank: Id -> int, whole: Wedge)
    requires IsMap(c, root, nodes, kept, maxDepth, rank, whole)
    requires IsMap(d, root, nodes, others, maxDepth, rank, whole)
    requires Injective(rank) && forall e :: e in kept <==> e in others
    ensures c.tree == d.tree && c.shape == d.shape
    ensures forall v | v in c.tree.depth :: v in c.positions && v in d.positions && c.positions[v] == d.positions[v]
  {
    hide Injective, Ascends, Parented, InOrder, ShortestPaths, FirstCome, TreeShaped, PositionOf, LastJoining;
    forall u, v ensures v in Neighbors(c.adjacency, u) <==> v in Neighbors(d.adjacency, u) {
      SameLinks(kept, others, u, v);
    }
    SortedGraphsAgree(c.adjacency, d.adjacency, rank);
    TreeIsDetermined(c.adjacency, c.tree, d.adjacency, d.tree, maxDepth);
    SameChildren(c.shape, d.shape, rank);
    forall v | v in c.tree.depth ensures v in c.tree.parent || v == root {
      FoundOrRoot(c.adjacency, c.tree, v);
    }
  }

  lemma FoundOrRoot(adjacency: Adjacency, t: Tree, v: Id)
    requires Parented(adjacency, t) && v in t.depth
    ensures v in t.parent || v == t.root
  {
  }

  lemma SameLinks(kept: seq<Edge>, others: seq<Edge>, u: Id, v: Id)
    requires forall e :: e in kept <==> e in others
    ensures Linked(kept, u, v) <==> Linked(others, u, v)
  {
    if Linked(kept, u, v) {
      var i :| 0 <= i < |kept| && Joins(kept[i], u, v);
      assert kept[i] in others;
    }
    if Linked(others, u, v) {
      var i :| 0 <= i < |others| && Joins(others[i], u, v);
      assert others[i] in kept;
    }
  }
}
