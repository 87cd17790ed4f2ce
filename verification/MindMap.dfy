/** compile_mindmap_scene of cartography/mindmap.py from the snapshot to the positions. */
module MindMap {
  import opened Wrappers
  import opened Collections
  import opened MindMapTree
  import opened MindMapLayout

  datatype MindMapError = RootNotIncluded

  // The parts of a compiled map that the scene is drawn from.
  datatype Compiled = Compiled(
    tree: Tree, shape: Shape, adjacency: Adjacency, edgeByPair: map<(Id, Id), Edge>, positions: map<Id, Position>)

  predicate Kept(e: Edge, includedEdges: set<Id>, nodes: set<Id>) {
    e.id in includedEdges && e.source in nodes && e.target in nodes
  }

  /** kept lists the edges to keep in the order they stand in edges: its k-th is the one at places[k]. */
  ghost predicate PlacedAt(kept: seq<Edge>, edges: seq<Edge>, places: seq<nat>) {
    && |places| == |kept|
    && (forall k | 0 <= k < |places| :: places[k] < |edges| && kept[k] == edges[places[k]])
    && forall k, l | 0 <= k < l < |places| :: places[k] < places[l]
  }

  ghost predicate IsKept(kept: seq<Edge>, edges: seq<Edge>, includedEdges: set<Id>, nodes: set<Id>) {
    exists places :: PlacedAt(kept, edges, places)
                     && forall i | 0 <= i < |edges| :: i in places <==> Kept(edges[i], includedEdges, nodes)
  }

  method KeepEdges(edges: seq<Edge>, includedEdges: set<Id>, nodes: set<Id>) returns (kept: seq<Edge>)
    ensures IsKept(kept, edges, includedEdges, nodes)
  {
    kept := [];
    ghost var places: seq<nat> := [];
    for i := 0 to |edges|
      invariant PlacedAt(kept, edges, places) && forall k | 0 <= k < |places| :: places[k] < i
      invariant forall j | 0 <= j < i :: j in places <==> Kept(edges[j], includedEdges, nodes)
    {
      if Kept(edges[i], includedEdges, nodes) {
        kept := kept + [edges[i]];
        places := places + [i];
      }
    }
  }

  /** values.sort(...) on every list. */
  function SortLists(lists: map<Id, seq<Id>>, rank: Id -> int): map<Id, seq<Id>> {
    map u | u in lists :: SortedBy(rank, lists[u])
  }

  lemma SortListsFacts(lists: map<Id, seq<Id>>, rank: Id -> int, u: Id)
    ensures multiset(KidsIn(SortLists(lists, rank), u)) == multiset(KidsIn(lists, u))
    ensures Ascends(rank, KidsIn(SortLists(lists, rank), u))
    ensures forall v :: v in Neighbors(SortLists(lists, rank), u) <==> v in Neighbors(lists, u)
  {
    if u in lists {
      SortedByFacts(rank, lists[u]);
      forall v ensures v in SortedBy(rank, lists[u]) <==> v in lists[u] {
        assert v in multiset(SortedBy(rank, lists[u])) <==> v in multiset(lists[u]);
      }
    }
  }

  lemma SortedStillMatches(adjacency: Adjacency, edges: seq<Edge>, rank: Id -> int)
    requires NeighborsMatch(adjacency, edges)
    ensures NeighborsMatch(SortLists(adjacency, rank), edges)
  {
    forall a, b ensures b in Neighbors(SortLists(adjacency, rank), a) <==> Linked(edges, a, b) {
      SortListsFacts(adjacency, rank, a);
    }
  }

  lemma NeighborsAreNodes(adjacency: Adjacency, kept: seq<Edge>, nodes: set<Id>)
    requires NeighborsMatch(adjacency, kept) && forall e | e in kept :: e.source in nodes && e.target in nodes
    ensures forall u, v | v in Neighbors(adjacency, u) :: v in nodes
  {
    forall u, v | v in Neighbors(adjacency, u) ensures v in nodes {
      assert Linked(kept, u, v);
    }
  }

  lemma SortedShape(shape: Shape, rank: Id -> int)
    requires TreeShaped(shape)
    ensures TreeShaped(shape.(children := SortLists(shape.children, rank)))
  {
    forall u ensures multiset(KidsIn(SortLists(shape.children, rank), u)) == multiset(Kids(shape, u)) {
      SortListsFacts(shape.children, rank, u);
    }
    SortingKeepsShape(shape, SortLists(shape.children, rank));
  }

  /** What a compiled map is: a shortest-path tree of the kept edges, laid out in nested wedges. */
  ghost predicate IsMap(c: Compiled, root: Id, nodes: set<Id>, kept: seq<Edge>, maxDepth: int, rank: Id -> int,
                        whole: Wedge)
  {
    && c.tree.root == root && NeighborsMatch(c.adjacency, kept) && PairsMatch(c.edgeByPair, kept)
    && (forall u :: Ascends(rank, Neighbors(c.adjacency, u)))
    && Parented(c.adjacency, c.tree) && ShortestPaths(c.adjacency, c.tree, maxDepth) && c.tree.depth.Keys <= nodes
    && InOrder(c.tree) && FirstCome(c.adjacency, c.tree, maxDepth)
    && c.shape.root == root && c.shape.parent == c.tree.parent && c.shape.depth == c.tree.depth && TreeShaped(c.shape)
    && (forall u :: Ascends(rank, Kids(c.shape, u))) && ListsFit(c.shape.children, c.tree.depth.Keys)
    && c.shape.height == Limit(maxDepth)
    && c.positions.Keys >= c.tree.depth.Keys && c.positions[root] == Position(0.0, 0)
    && forall v | v in c.tree.parent ::
         && c.positions[v] == PositionOf(c.shape, whole, v)
         && (c.tree.parent[v], v) in c.edgeByPair
         && LastJoining(kept, c.tree.parent[v], v, c.edgeByPair[(c.tree.parent[v], v)])
  }

  /**
   * edges are in the order the source sorts them to; rank is the order of the nodes by label and id. The map exists
   * exactly when its root is included.
   */
  method CompileMindMap(root: Id, snapshotNodes: seq<Id>, included: set<Id>, edges: seq<Edge>, includedEdges: set<Id>,
                        maxDepth: int, rank: Id -> int, whole: Wedge)
    returns (r: Result<Compiled, MindMapError>)
    ensures r.Ok? <==> root in snapshotNodes && root in included
    ensures r.Ok? ==>
              var nodes := set n | n in snapshotNodes && n in included;
              exists kept ::
                && IsKept(kept, edges, includedEdges, nodes)
                && IsMap(r.value, root, nodes, kept, maxDepth, rank, whole)
  {
    hide *;
    var nodes := set n | n in snapshotNodes && n in included;
    if root !in nodes {
      return Err(RootNotIncluded);
    }
    var kept := KeepEdges(edges, includedEdges, nodes);
    var unsorted, edgeByPair := BuildGraph(kept);
    var adjacency := SortLists(unsorted, rank);
    KeptLieInside(kept, edges, includedEdges, nodes);
    SortedStillMatches(unsorted, kept, rank);
    NeighborsAreNodes(adjacency, kept, nodes);
    var tree := BreadthFirst(adjacency, root, maxDepth, nodes);
    var children := CollectChildren(tree, adjacency);
    DepthIsLimited(adjacency, tree, maxDepth);
    var found := Shape(tree.root, tree.parent, tree.depth, children, Limit(maxDepth));
    SortedShape(found, rank);
    var shape := found.(children := SortLists(children, rank));
    var layout := new RadialLayout(shape, whole);
    layout.LayOut();
    var compiled := Compiled(tree, shape, adjacency, edgeByPair, layout.positions);
    MapHolds(compiled, root, nodes, kept, maxDepth, rank, whole, unsorted, children);
    return Ok(compiled);
  }

  lemma KeptLieInside(kept: seq<Edge>, edges: seq<Edge>, includedEdges: set<Id>, nodes: set<Id>)
    requires IsKept(kept, edges, includedEdges, nodes)
    ensures forall e | e in kept :: e.source in nodes && e.target in nodes
  {
    var places :| PlacedAt(kept, edges, places)
      && forall i | 0 <= i < |edges| :: i in places <==> Kept(edges[i], includedEdges, nodes);
    forall k | 0 <= k < |kept| ensures kept[k].source in nodes && kept[k].target in nodes {
      assert places[k] in places;
    }
  }

  lemma DepthIsLimited(adjacency: Adjacency, t: Tree, maxDepth: int)
    requires ShortestPaths(adjacency, t, maxDepth)
    ensures forall u | u in t.depth :: t.depth[u] <= Limit(maxDepth)
  {
  }

  lemma ListsAreSorted(c: Compiled, unsorted: Adjacency, children: map<Id, seq<Id>>, rank: Id -> int)
    requires c.adjacency == SortLists(unsorted, rank) && c.shape.children == SortLists(children, rank)
    requires ListsFit(children, c.tree.depth.Keys)
    ensures forall u :: Ascends(rank, Kids(c.shape, u)) && Ascends(rank, Neighbors(c.adjacency, u))
    ensures ListsFit(c.shape.children, c.tree.depth.Keys)
  {
    hide Ascends;
    forall u ensures Ascends(rank, Kids(c.shape, u)) && Ascends(rank, Neighbors(c.adjacency, u)) {
      SortListsFacts(children, rank, u);
      SortListsFacts(unsorted, rank, u);
      assert Kids(c.shape, u) == KidsIn(SortLists(children, rank), u);
      assert Neighbors(c.adjacency, u) == KidsIn(SortLists(unsorted, rank), u);
    }
    forall u | u in c.shape.children ensures u in c.tree.depth.Keys && c.shape.children[u] != [] {
      SortListsFacts(children, rank, u);
      assert children[u][0] in multiset(KidsIn(c.shape.children, u));
    }
  }

  lemma MapHolds(c: Compiled, root: Id, nodes: set<Id>, kept: seq<Edge>, maxDepth: int, rank: Id -> int, whole: Wedge,
                 unsorted: Adjacency, children: map<Id, seq<Id>>)
    requires c.tree.root == root && NeighborsMatch(c.adjacency, kept) && PairsMatch(c.edgeByPair, kept)
    requires c.adjacency == SortLists(unsorted, rank)
    requires Parented(c.adjacency, c.tree) && ShortestPaths(c.adjacency, c.tree, maxDepth)
    requires InOrder(c.tree) && FirstCome(c.adjacency, c.tree, maxDepth)
    requires root in nodes && forall u, v | v in Neighbors(c.adjacency, u) :: v in nodes
    requires c.shape.root == root && c.shape.parent == c.tree.parent && c.shape.depth == c.tree.depth
    requires TreeShaped(c.shape) && c.shape.children == SortLists(children, rank)
    requires ListsFit(children, c.tree.depth.Keys)
    requires c.shape.height == Limit(maxDepth)
    requires root in c.positions && c.positions[root] == Position(0.0, 0)
    requires forall v | v in c.tree.parent :: v in c.positions && c.positions[v] == PositionOf(c.shape, whole, v)
    ensures IsMap(c, root, nodes, kept, maxDepth, rank, whole)
  {
    hide ShortestPaths, PositionOf, NeighborsMatch, PairsMatch, InOrder, FirstCome, LastJoining, Ascends, SortLists;
    ListsAreSorted(c, unsorted, children, rank);
    forall v | v in c.tree.parent
      ensures (c.tree.parent[v], v) in c.edgeByPair
      ensures LastJoining(kept, c.tree.parent[v], v, c.edgeByPair[(c.tree.parent[v], v)])
    {
      TreeEdgesAreGraphEdges(kept, c.adjacency, c.edgeByPair, c.tree, v);
    }
    forall v | v in c.tree.depth ensures v in nodes && v in c.positions {
      if v != root {
        assert v in c.tree.parent && v in Neighbors(c.adjacency, c.tree.parent[v]);
      }
    }
  }
}
