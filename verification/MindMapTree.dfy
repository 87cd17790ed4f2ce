/** The depth-limited breadth-first tree inside compile_mindmap_scene of cartography/mindmap.py. */
module MindMapTree {
  import opened Collections

  datatype Id = Id(text: string)

  datatype Edge = Edge(id: Id, source: Id, target: Id)

  predicate Joins(e: Edge, a: Id, b: Id) {
    (e.source == a && e.target == b) || (e.source == b && e.target == a)
  }

  ghost predicate Linked(edges: seq<Edge>, a: Id, b: Id) {
    exists i | 0 <= i < |edges| :: Joins(edges[i], a, b)
  }

  function Neighbors(adjacency: map<Id, seq<Id>>, a: Id): seq<Id> {
    if a in adjacency then adjacency[a] else []
  }

  function With(adjacency: map<Id, seq<Id>>, a: Id, b: Id): map<Id, seq<Id>> {
    adjacency[a := Neighbors(adjacency, a) + [b]]
  }

  lemma WithFacts(adjacency: map<Id, seq<Id>>, a: Id, b: Id)
    ensures forall x, y :: y in Neighbors(With(adjacency, a, b), x) <==>
                           y in Neighbors(adjacency, x) || (x == a && y == b)
  {
  }

  ghost predicate NeighborsMatch(adjacency: map<Id, seq<Id>>, edges: seq<Edge>) {
    forall a, b :: b in Neighbors(adjacency, a) <==> Linked(edges, a, b)
  }

  ghost predicate PairsMatch(edgeByPair: map<(Id, Id), Edge>, edges: seq<Edge>) {
    && (forall a, b :: (a, b) in edgeByPair <==> Linked(edges, a, b))
    && forall a, b | (a, b) in edgeByPair :: LastJoining(edges, a, b, edgeByPair[(a, b)])
  }

  /** Of the edges that join a and b, e is the last. */
  ghost predicate LastJoining(edges: seq<Edge>, a: Id, b: Id, e: Edge) {
    exists i | 0 <= i < |edges| ::
      edges[i] == e && Joins(e, a, b) && forall j | i < j < |edges| :: !Joins(edges[j], a, b)
  }

  lemma NeighborsStep(adjacency: map<Id, seq<Id>>, edges: seq<Edge>, i: nat)
    requires i < |edges| && NeighborsMatch(adjacency, edges[..i])
    ensures NeighborsMatch(With(With(adjacency, edges[i].source, edges[i].target), edges[i].target, edges[i].source),
                           edges[..i + 1])
  {
    var a, b := edges[i].source, edges[i].target;
    WithFacts(adjacency, a, b);
    WithFacts(With(adjacency, a, b), b, a);
    var after := With(With(adjacency, a, b), b, a);
    hide With, Neighbors, Linked;
    forall x, y ensures y in Neighbors(after, x) <==> Linked(edges[..i + 1], x, y) {
      LinkedSnoc(edges, i, x, y);
    }
  }

  lemma LastJoiningSnoc(edges: seq<Edge>, i: nat, a: Id, b: Id, e: Edge)
    requires i < |edges|
    ensures Joins(edges[i], a, b) ==> LastJoining(edges[..i + 1], a, b, edges[i])
    ensures !Joins(edges[i], a, b) && LastJoining(edges[..i], a, b, e) ==> LastJoining(edges[..i + 1], a, b, e)
  {
    var before, after := edges[..i], edges[..i + 1];
    assert after[i] == edges[i];
    if !Joins(edges[i], a, b) && LastJoining(before, a, b, e) {
      var k :| 0 <= k < i && before[k] == e && Joins(e, a, b) && forall j | k < j < i :: !Joins(before[j], a, b);
      assert after[k] == before[k];
    }
  }

  lemma PairsStep(edgeByPair: map<(Id, Id), Edge>, edges: seq<Edge>, i: nat)
    requires i < |edges| && PairsMatch(edgeByPair, edges[..i])
    ensures PairsMatch(edgeByPair[(edges[i].source, edges[i].target) := edges[i]]
                       [(edges[i].target, edges[i].source) := edges[i]], edges[..i + 1])
  {
    hide Linked, LastJoining;
    var e := edges[i];
    var after := edgeByPair[(e.source, e.target) := e][(e.target, e.source) := e];
    forall a, b ensures (a, b) in after <==> Linked(edges[..i + 1], a, b) {
      LinkedSnoc(edges, i, a, b);
    }
    forall a, b | (a, b) in after ensures LastJoining(edges[..i + 1], a, b, after[(a, b)]) {
      LastJoiningSnoc(edges, i, a, b, after[(a, b)]);
    }
  }

  /** Both directions of every edge, and for each linked pair an edge that joins it. */
  method BuildGraph(edges: seq<Edge>) returns (adjacency: map<Id, seq<Id>>, edgeByPair: map<(Id, Id), Edge>)
    ensures NeighborsMatch(adjacency, edges) && PairsMatch(edgeByPair, edges)
  {
    adjacency, edgeByPair := map[], map[];
    for i := 0 to |edges|
      invariant NeighborsMatch(adjacency, edges[..i]) && PairsMatch(edgeByPair, edges[..i])
    {
      var a, b := edges[i].source, edges[i].target;
      NeighborsStep(adjacency, edges, i);
      PairsStep(edgeByPair, edges, i);
      adjacency := With(adjacency, a, b);
      adjacency := With(adjacency, b, a);
      edgeByPair := edgeByPair[(a, b) := edges[i]];
      edgeByPair := edgeByPair[(b, a) := edges[i]];
    }
    assert edges[..|edges|] == edges;
  }

  lemma LinkedSnoc(edges: seq<Edge>, i: nat, a: Id, b: Id)
    requires i < |edges|
    ensures Linked(edges[..i + 1], a, b) <==> Linked(edges[..i], a, b) || Joins(edges[i], a, b)
  {
  }

  // ----- distance -----

  type Adjacency = map<Id, seq<Id>>

  ghost predicate Walk(adjacency: Adjacency, path: seq<Id>) {
    |path| > 0 && forall i | 0 <= i < |path| - 1 :: path[i + 1] in Neighbors(adjacency, path[i])
  }

  /** Some walk of exactly n steps leads from root to v. */
  ghost predicate Reaches(adjacency: Adjacency, root: Id, v: Id, n: nat) {
    exists path :: Walk(adjacency, path) && path[0] == root && path[|path| - 1] == v && |path| == n + 1
  }

  ghost predicate IsDistance(adjacency: Adjacency, root: Id, v: Id, d: nat) {
    Reaches(adjacency, root, v, d) && forall n: nat | n < d :: !Reaches(adjacency, root, v, n)
  }

  lemma ReachesNext(adjacency: Adjacency, root: Id, u: Id, v: Id, n: nat)
    requires Reaches(adjacency, root, u, n) && v in Neighbors(adjacency, u)
    ensures Reaches(adjacency, root, v, n + 1)
  {
    var path :| Walk(adjacency, path) && path[0] == root && path[|path| - 1] == u && |path| == n + 1;
    var longer := path + [v];
    assert Walk(adjacency, longer) by {
      forall i | 0 <= i < |longer| - 1 ensures longer[i + 1] in Neighbors(adjacency, longer[i]) {
        assert i < |path| - 1 ==> path[i + 1] in Neighbors(adjacency, path[i]);
      }
    }
    assert longer[|longer| - 1] == v;
  }

  lemma ReachesBefore(adjacency: Adjacency, root: Id, v: Id, n: nat) returns (u: Id)
    requires Reaches(adjacency, root, v, n) && n > 0
    ensures Reaches(adjacency, root, u, n - 1) && v in Neighbors(adjacency, u)
  {
    var path :| Walk(adjacency, path) && path[0] == root && path[|path| - 1] == v && |path| == n + 1;
    u := path[n - 1];
    assert path[n - 1 + 1] in Neighbors(adjacency, path[n - 1]);
    var shorter := path[..n];
    assert Walk(adjacency, shorter) by {
      forall i | 0 <= i < |shorter| - 1 ensures shorter[i + 1] in Neighbors(adjacency, shorter[i]) {
        assert path[i + 1] in Neighbors(adjacency, path[i]);
      }
    }
    assert shorter[|shorter| - 1] == u;
  }

  // ----- the tree -----

  // parent has an entry for every found node but the root.
  datatype Tree = Tree(root: Id, parent: map<Id, Id>, depth: map<Id, nat>, order: seq<Id>)

  ghost predicate Parented(adjacency: Adjacency, t: Tree) {
    && t.root in t.depth && t.depth[t.root] == 0
    && t.parent.Keys == t.depth.Keys - {t.root}
    && forall v | v in t.parent ::
         t.parent[v] in t.depth && t.depth[v] == t.depth[t.parent[v]] + 1 && v in Neighbors(adjacency, t.parent[v])
  }

  function Limit(maxDepth: int): nat {
    if maxDepth < 0 then 0 else maxDepth
  }

  /** The found nodes are those within the depth limit, each at its shortest undirected distance. */
  ghost predicate ShortestPaths(adjacency: Adjacency, t: Tree, maxDepth: int) {
    && (forall v | v in t.depth :: IsDistance(adjacency, t.root, v, t.depth[v]) && t.depth[v] <= Limit(maxDepth))
    && forall v, n: nat | Reaches(adjacency, t.root, v, n) && n <= Limit(maxDepth) :: v in t.depth
  }

  ghost predicate InOrder(t: Tree) {
    && Distinct(t.order) && (forall v :: v in t.order <==> v in t.depth)
    && forall i, j | 0 <= i < j < |t.order| :: t.depth[t.order[i]] <= t.depth[t.order[j]]
  }

  /** No expanded node before v's parent has v as a neighbour: v went to the first that could have it. */
  ghost predicate FirstFound(adjacency: Adjacency, t: Tree, maxDepth: int) {
    forall v, i | v in t.parent && 0 <= i < |t.order| && t.order[i] in t.depth && t.depth[t.order[i]] < maxDepth
                  && v in Neighbors(adjacency, t.order[i]) ::
      t.parent[v] in t.order && IndexIn(t.order, t.parent[v]) <= i
  }

  /** u was queued before v: at an earlier parent, or at the same one where it comes first among the neighbours. */
  ghost predicate Earlier(adjacency: Adjacency, t: Tree, u: Id, v: Id) {
    && u in t.parent && v in t.parent && t.parent[u] in t.order && t.parent[v] in t.order
    && (IndexIn(t.order, t.parent[u]) < IndexIn(t.order, t.parent[v])
        || (t.parent[u] == t.parent[v] && u in Neighbors(adjacency, t.parent[u])
            && v in Neighbors(adjacency, t.parent[u])
            && IndexIn(Neighbors(adjacency, t.parent[u]), u) < IndexIn(Neighbors(adjacency, t.parent[u]), v)))
  }

  ghost predicate Queued(adjacency: Adjacency, t: Tree) {
    && |t.order| > 0 && t.order[0] == t.root
    && forall i, j | 0 < i < j < |t.order| :: Earlier(adjacency, t, t.order[i], t.order[j])
  }

  /** Ties are settled first come, first served. */
  ghost predicate FirstCome(adjacency: Adjacency, t: Tree, maxDepth: int) {
    FirstFound(adjacency, t, maxDepth) && Queued(adjacency, t)
  }

  // Only the first head nodes have children so far.
  ghost predicate ParentsBefore(t: Tree, head: nat) {
    forall v | v in t.parent :: t.parent[v] in t.order && IndexIn(t.order, t.parent[v]) < head
  }

  // What the search knows about the nodes found so far, listed in the order they were queued.
  ghost predicate Found(adjacency: Adjacency, t: Tree, nodes: set<Id>, limit: nat) {
    && Parented(adjacency, t) && InOrder(t) && t.depth.Keys <= nodes
    && forall v | v in t.depth :: Reaches(adjacency, t.root, v, t.depth[v]) && t.depth[v] <= limit
  }

  ghost predicate Expanded(adjacency: Adjacency, t: Tree, u: Id, maxDepth: int)
    requires u in t.depth
  {
    t.depth[u] < maxDepth ==>
      forall v | v in Neighbors(adjacency, u) :: v in t.depth && t.depth[v] <= t.depth[u] + 1
  }

  function Plus(t: Tree, u: Id, v: Id): Tree
    requires u in t.depth
  {
    Tree(t.root, t.parent[v := u], t.depth[v := t.depth[u] + 1], t.order + [v])
  }

  lemma PlusInOrder(t: Tree, u: Id, v: Id)
    requires InOrder(t) && u in t.depth && v !in t.depth && forall w | w in t.depth :: t.depth[w] <= t.depth[u] + 1
    ensures InOrder(Plus(t, u, v))
  {
  }

  lemma PlusParented(adjacency: Adjacency, t: Tree, u: Id, v: Id)
    requires Parented(adjacency, t) && u in t.depth && v !in t.depth && v in Neighbors(adjacency, u)
    ensures Parented(adjacency, Plus(t, u, v))
  {
  }

  lemma AddChild(adjacency: Adjacency, t: Tree, nodes: set<Id>, limit: nat, u: Id, v: Id)
    requires Found(adjacency, t, nodes, limit) && u in t.depth && v !in t.depth && v in nodes
    requires v in Neighbors(adjacency, u) && t.depth[u] < limit
    requires forall w | w in t.depth :: t.depth[w] <= t.depth[u] + 1
    ensures Found(adjacency, Plus(t, u, v), nodes, limit)
  {
    ReachesNext(adjacency, t.root, u, v, t.depth[u]);
    PlusInOrder(t, u, v);
    PlusParented(adjacency, t, u, v);
    hide InOrder, Parented, Reaches, Neighbors;
  }

  /** Once every found node is expanded, walks within the limit end at found nodes, no farther than recorded. */
  lemma {:induction false} AllWalksFound(adjacency: Adjacency, t: Tree, maxDepth: int, v: Id, n: nat)
    requires t.root in t.depth && t.depth[t.root] == 0
    requires forall u | u in t.depth :: Expanded(adjacency, t, u, maxDepth)
    requires Reaches(adjacency, t.root, v, n) && n <= Limit(maxDepth)
    ensures v in t.depth && t.depth[v] <= n
    decreases n
  {
    if n == 0 {
      var path :| Walk(adjacency, path) && path[0] == t.root && path[|path| - 1] == v && |path| == n + 1;
    } else {
      var u := ReachesBefore(adjacency, t.root, v, n);
      AllWalksFound(adjacency, t, maxDepth, u, n - 1);
      assert Expanded(adjacency, t, u, maxDepth);
    }
  }

  /** v joins the queue as a child of u, the node at position head, which is being expanded. */
  lemma PlusFirstFound(adjacency: Adjacency, t: Tree, u: Id, v: Id, head: nat, maxDepth: int)
    requires FirstFound(adjacency, t, maxDepth) && ParentsBefore(t, head + 1) && InOrder(t)
    requires head < |t.order| && t.order[head] == u && u in t.depth && v !in t.depth && t.depth[u] < maxDepth
    requires forall i | 0 <= i < head :: t.order[i] in t.depth && Expanded(adjacency, t, t.order[i], maxDepth)
    ensures FirstFound(adjacency, Plus(t, u, v), maxDepth)
  {
    var t' := Plus(t, u, v);
    IndexOf(t.order, head);
    IndexInLonger(t.order, t'.order, u);
    forall i | 0 <= i < head && t.depth[t.order[i]] < maxDepth ensures v !in Neighbors(adjacency, t.order[i]) {
      assert Expanded(adjacency, t, t.order[i], maxDepth);
    }
    forall w, i | w in t'.parent && 0 <= i < |t'.order| && t'.order[i] in t'.depth && t'.depth[t'.order[i]] < maxDepth
                  && w in Neighbors(adjacency, t'.order[i])
      ensures t'.parent[w] in t'.order && IndexIn(t'.order, t'.parent[w]) <= i
    {
      if w != v {
        IndexInLonger(t.order, t'.order, t.parent[w]);
      }
    }
  }

  lemma EarlierStays(adjacency: Adjacency, t: Tree, t': Tree, a: Id, b: Id)
    requires Earlier(adjacency, t, a, b) && t.order <= t'.order
    requires a in t'.parent && t'.parent[a] == t.parent[a] && b in t'.parent && t'.parent[b] == t.parent[b]
    ensures Earlier(adjacency, t', a, b)
  {
    IndexInLonger(t.order, t'.order, t.parent[a]);
    IndexInLonger(t.order, t'.order, t.parent[b]);
  }

  lemma EarlierThanNew(adjacency: Adjacency, t: Tree, u: Id, v: Id, head: nat, i: nat, w: Id)
    requires ParentsBefore(t, head + 1) && w in t.parent && w != v
    requires head < |t.order| && t.order[head] == u && (forall j | 0 <= j < head :: t.order[j] != u)
    requires u in t.depth
    requires i < |Neighbors(adjacency, u)| && Neighbors(adjacency, u)[i] == v
    requires forall j | 0 <= j < i :: Neighbors(adjacency, u)[j] != v
    requires t.parent[w] == u ==> w in Neighbors(adjacency, u)[..i]
    ensures Earlier(adjacency, Plus(t, u, v), w, v)
  {
    var t', around := Plus(t, u, v), Neighbors(adjacency, u);
    IndexOf(t.order, head);
    IndexInLonger(t.order, t'.order, u);
    IndexInLonger(t.order, t'.order, t.parent[w]);
    if t.parent[w] == u {
      IndexOf(around, i);
      IndexInLonger(around[..i], around, w);
    }
  }

  lemma PlusQueued(adjacency: Adjacency, t: Tree, u: Id, v: Id, head: nat, i: nat)
    requires Queued(adjacency, t) && ParentsBefore(t, head + 1) && InOrder(t) && Parented(adjacency, t)
    requires head < |t.order| && t.order[head] == u && u in t.depth && v !in t.depth
    requires i < |Neighbors(adjacency, u)| && Neighbors(adjacency, u)[i] == v
    requires forall j | 0 <= j < i :: Neighbors(adjacency, u)[j] in t.depth
    requires forall w | w in t.parent && t.parent[w] == u :: w in Neighbors(adjacency, u)[..i]
    ensures Queued(adjacency, Plus(t, u, v))
  {
    hide Earlier, ParentsBefore;
    var t' := Plus(t, u, v);
    forall k, l | 0 < k < l < |t'.order| ensures Earlier(adjacency, t', t'.order[k], t'.order[l]) {
      NotRoot(t, k);
      if l < |t.order| {
        NotRoot(t, l);
        EarlierStays(adjacency, t, t', t.order[k], t.order[l]);
      } else {
        EarlierThanNew(adjacency, t, u, v, head, i, t.order[k]);
      }
    }
  }

  lemma NotRoot(t: Tree, k: nat)
    requires InOrder(t) && 0 < k < |t.order| && t.order[0] == t.root && t.parent.Keys == t.depth.Keys - {t.root}
    ensures t.order[k] in t.parent
  {
    assert t.order[k] in t.order && t.order[k] != t.order[0];
  }

  lemma PlusParentsBefore(t: Tree, u: Id, v: Id, head: nat)
    requires ParentsBefore(t, head + 1) && InOrder(t) && head < |t.order| && t.order[head] == u
    requires u in t.depth && v !in t.depth
    ensures ParentsBefore(Plus(t, u, v), head + 1)
  {
    var t' := Plus(t, u, v);
    IndexOf(t.order, head);
    IndexInLonger(t.order, t'.order, u);
    forall w | w in t'.parent ensures t'.parent[w] in t'.order && IndexIn(t'.order, t'.parent[w]) < head + 1 {
      if w != v {
        IndexInLonger(t.order, t'.order, t.parent[w]);
      }
    }
  }

  // The search up to the expansion of order[head]: its first head nodes are expanded.
  ghost predicate Serving(adjacency: Adjacency, t: Tree, head: nat, maxDepth: int) {
    && FirstCome(adjacency, t, maxDepth) && ParentsBefore(t, head)
  }

  ghost predicate Grows(t: Tree, u: Tree) {
    u.root == t.root && t.order <= u.order && forall v | v in t.depth :: v in u.depth && u.depth[v] == t.depth[v]
  }

  /** Queue the neighbours of current that were not found before. */
  method Expand(adjacency: Adjacency, t0: Tree, current: Id, maxDepth: int, ghost nodes: set<Id>, ghost head: nat)
    returns (t: Tree)
    requires Found(adjacency, t0, nodes, Limit(maxDepth)) && current in t0.depth && t0.depth[current] < maxDepth
    requires forall w | w in t0.depth :: t0.depth[w] <= t0.depth[current] + 1
    requires forall v | v in Neighbors(adjacency, current) :: v in nodes
    requires head < |t0.order| && t0.order[head] == current && Serving(adjacency, t0, head, maxDepth)
    requires forall i | 0 <= i < head :: t0.order[i] in t0.depth && Expanded(adjacency, t0, t0.order[i], maxDepth)
    ensures Found(adjacency, t, nodes, Limit(maxDepth)) && Grows(t0, t)
    ensures Serving(adjacency, t, head + 1, maxDepth)
    ensures forall w | w in t.depth :: t.depth[w] <= t.depth[current] + 1
    ensures Expanded(adjacency, t, current, maxDepth)
  {
    hide Found, Serving, Expanded;
    t := t0;
    var children := Neighbors(adjacency, current);
    ServingNext(adjacency, t, head, maxDepth, nodes);
    for i := 0 to |children|
      invariant Found(adjacency, t, nodes, Limit(maxDepth)) && Grows(t0, t)
      invariant forall w | w in t.depth :: t.depth[w] <= t.depth[current] + 1
      invariant forall j | 0 <= j < i :: children[j] in t.depth
      invariant Serving(adjacency, t, head + 1, maxDepth)
      invariant forall w | w in t.parent && t.parent[w] == current :: w in children[..i]
      invariant forall j | 0 <= j < head :: t.order[j] in t.depth && Expanded(adjacency, t, t.order[j], maxDepth)
    {
      var child := children[i];
      assert children[..i + 1] == children[..i] + [child];
      if child !in t.depth {
        PlusServing(adjacency, t, nodes, current, head, maxDepth, i);
        AddChild(adjacency, t, nodes, Limit(maxDepth), current, child);
        t := Plus(t, current, child);
      }
    }
    NeighborsFound(adjacency, t, current, maxDepth);
  }

  lemma NeighborsFound(adjacency: Adjacency, t: Tree, u: Id, maxDepth: int)
    requires u in t.depth && forall w | w in t.depth :: t.depth[w] <= t.depth[u] + 1
    requires forall j | 0 <= j < |Neighbors(adjacency, u)| :: Neighbors(adjacency, u)[j] in t.depth
    ensures Expanded(adjacency, t, u, maxDepth)
  {
  }

  lemma ServingNext(adjacency: Adjacency, t: Tree, head: nat, maxDepth: int, nodes: set<Id>)
    requires Serving(adjacency, t, head, maxDepth) && Found(adjacency, t, nodes, Limit(maxDepth))
    ensures Serving(adjacency, t, head + 1, maxDepth)
    ensures head < |t.order| ==> forall w | w in t.parent :: t.parent[w] != t.order[head]
  {
    if head < |t.order| {
      IndexOf(t.order, head);
    }
  }

  lemma PlusKeepsExpanded(adjacency: Adjacency, t: Tree, u: Id, v: Id, w: Id, maxDepth: int)
    requires u in t.depth && v !in t.depth && w in t.depth && Expanded(adjacency, t, w, maxDepth)
    ensures Expanded(adjacency, Plus(t, u, v), w, maxDepth)
  {
  }

  lemma PlusServing(adjacency: Adjacency, t: Tree, nodes: set<Id>, u: Id, head: nat, maxDepth: int, i: nat)
    requires Found(adjacency, t, nodes, Limit(maxDepth)) && Serving(adjacency, t, head + 1, maxDepth)
    requires head < |t.order| && t.order[head] == u && u in t.depth && t.depth[u] < maxDepth
    requires forall j | 0 <= j < head :: t.order[j] in t.depth && Expanded(adjacency, t, t.order[j], maxDepth)
    requires i < |Neighbors(adjacency, u)| && Neighbors(adjacency, u)[i] !in t.depth
    requires forall j | 0 <= j < i :: Neighbors(adjacency, u)[j] in t.depth
    requires forall w | w in t.parent && t.parent[w] == u :: w in Neighbors(adjacency, u)[..i]
    ensures var t' := Plus(t, u, Neighbors(adjacency, u)[i]);
            && Serving(adjacency, t', head + 1, maxDepth)
            && forall j | 0 <= j < head :: t'.order[j] in t'.depth && Expanded(adjacency, t', t'.order[j], maxDepth)
  {
    hide FirstFound, Queued, ParentsBefore, Parented, Reaches, InOrder, Expanded;
    var v := Neighbors(adjacency, u)[i];
    PlusFirstFound(adjacency, t, u, v, head, maxDepth);
    PlusQueued(adjacency, t, u, v, head, i);
    PlusParentsBefore(t, u, v, head);
    var t' := Plus(t, u, v);
    forall j | 0 <= j < head ensures t'.order[j] in t'.depth && Expanded(adjacency, t', t'.order[j], maxDepth) {
      PlusKeepsExpanded(adjacency, t, u, v, t.order[j], maxDepth);
    }
  }

  // The first head nodes are expanded, and the next one is nearly as deep as any found.
  ghost predicate Searched(adjacency: Adjacency, t: Tree, head: nat, maxDepth: int) {
    && head <= |t.order|
    && (forall i | 0 <= i < head :: t.order[i] in t.depth && Expanded(adjacency, t, t.order[i], maxDepth))
    && (head < |t.order| ==>
          t.order[head] in t.depth && forall w | w in t.depth :: t.depth[w] <= t.depth[t.order[head]] + 1)
  }

  lemma SearchStep(adjacency: Adjacency, t0: Tree, t: Tree, head: nat, maxDepth: int)
    requires Searched(adjacency, t0, head, maxDepth) && head < |t0.order|
    requires Grows(t0, t) && InOrder(t) && forall w | w in t.depth :: t.depth[w] <= t.depth[t0.order[head]] + 1
    requires t0.order[head] in t.depth && Expanded(adjacency, t, t0.order[head], maxDepth)
    ensures Searched(adjacency, t, head + 1, maxDepth)
  {
    assert t.order[head] == t0.order[head];
    forall i | 0 <= i < head ensures t.order[i] in t.depth && Expanded(adjacency, t, t.order[i], maxDepth) {
      assert t.order[i] == t0.order[i] && Expanded(adjacency, t0, t0.order[i], maxDepth);
    }
    if head + 1 < |t.order| {
      assert t.order[head + 1] in t.order && t.depth[t.order[head]] <= t.depth[t.order[head + 1]];
    }
  }

  lemma SearchDone(adjacency: Adjacency, t: Tree, nodes: set<Id>, maxDepth: int)
    requires Found(adjacency, t, nodes, Limit(maxDepth)) && Searched(adjacency, t, |t.order|, maxDepth)
    ensures ShortestPaths(adjacency, t, maxDepth)
  {
    forall u | u in t.depth ensures Expanded(adjacency, t, u, maxDepth) {
      assert u in t.order;
    }
    forall v, n: nat | Reaches(adjacency, t.root, v, n) && n <= Limit(maxDepth)
      ensures v in t.depth && t.depth[v] <= n
    {
      AllWalksFound(adjacency, t, maxDepth, v, n);
    }
  }

  lemma StartFound(adjacency: Adjacency, root: Id, nodes: set<Id>, limit: nat, maxDepth: int)
    requires root in nodes
    ensures Found(adjacency, Tree(root, map[], map[root := 0], [root]), nodes, limit)
    ensures Searched(adjacency, Tree(root, map[], map[root := 0], [root]), 0, maxDepth)
    ensures Serving(adjacency, Tree(root, map[], map[root := 0], [root]), 0, maxDepth)
  {
  }

  lemma OrderFits(t: Tree, nodes: set<Id>, head: nat)
    requires InOrder(t) && t.depth.Keys <= nodes && head < |t.order|
    ensures head < |nodes| && t.order[head] in t.depth
  {
    assert t.order[head] in t.order;
    DistinctFits(t.order, nodes);
  }

  /** The search: order[head..] is the queue. */
  method BreadthFirst(adjacency: Adjacency, root: Id, maxDepth: int, ghost nodes: set<Id>) returns (t: Tree)
    requires root in nodes && forall u, v | v in Neighbors(adjacency, u) :: v in nodes
    ensures t.root == root && Parented(adjacency, t) && InOrder(t) && ShortestPaths(adjacency, t, maxDepth)
    ensures FirstCome(adjacency, t, maxDepth)
  {
    hide Searched, Expanded, InOrder, Parented, ShortestPaths, FirstCome, ParentsBefore;
    t := Tree(root, map[], map[root := 0], [root]);
    StartFound(adjacency, root, nodes, Limit(maxDepth), maxDepth);
    var head := 0;
    while head < |t.order|
      invariant Found(adjacency, t, nodes, Limit(maxDepth)) && t.root == root && head <= |t.order|
      invariant Searched(adjacency, t, head, maxDepth) && Serving(adjacency, t, head, maxDepth)
      decreases |nodes| - head
    {
      OrderFits(t, nodes, head);
      var current := t.order[head];
      ghost var before := t;
      NextIsDeepest(adjacency, t, head, maxDepth);
      if t.depth[current] < maxDepth {
        FirstAreExpanded(adjacency, t, head, maxDepth);
        t := Expand(adjacency, t, current, maxDepth, nodes, head);
      } else {
        ServingNext(adjacency, t, head, maxDepth, nodes);
        TooDeep(adjacency, t, current, maxDepth);
      }
      SearchStep(adjacency, before, t, head, maxDepth);
      head := head + 1;
    }
    SearchDone(adjacency, t, nodes, maxDepth);
  }

  lemma NextIsDeepest(adjacency: Adjacency, t: Tree, head: nat, maxDepth: int)
    requires Searched(adjacency, t, head, maxDepth) && head < |t.order|
    ensures t.order[head] in t.depth && forall w | w in t.depth :: t.depth[w] <= t.depth[t.order[head]] + 1
  {
  }

  lemma FirstAreExpanded(adjacency: Adjacency, t: Tree, head: nat, maxDepth: int)
    requires Searched(adjacency, t, head, maxDepth)
    ensures head <= |t.order|
    ensures forall i | 0 <= i < head :: t.order[i] in t.depth && Expanded(adjacency, t, t.order[i], maxDepth)
  {
  }

  lemma TooDeep(adjacency: Adjacency, t: Tree, u: Id, maxDepth: int)
    requires u in t.depth && t.depth[u] >= maxDepth
    ensures Expanded(adjacency, t, u, maxDepth)
  {
  }

  /** Every tree edge has an entry among the edges by pair: the last edge that joins its ends. */
  lemma TreeEdgesAreGraphEdges(edges: seq<Edge>, adjacency: Adjacency, edgeByPair: map<(Id, Id), Edge>, t: Tree, v: Id)
    requires NeighborsMatch(adjacency, edges) && PairsMatch(edgeByPair, edges)
    requires Parented(adjacency, t) && v in t.parent
    ensures (t.parent[v], v) in edgeByPair
    ensures LastJoining(edges, t.parent[v], v, edgeByPair[(t.parent[v], v)])
  {
  }
}
