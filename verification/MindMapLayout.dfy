/** Leaf counts and angular wedges of compile_mindmap_scene in cartography/mindmap.py, over exact reals. */
module MindMapLayout {
  import opened Collections
  import opened MindMapTree

  // children holds, in layout order, the nodes whose parent is the key.
  datatype Shape = Shape(root: Id, parent: map<Id, Id>, depth: map<Id, nat>, children: map<Id, seq<Id>>, height: nat)

  function Kids(s: Shape, n: Id): seq<Id> {
    if n in s.children then s.children[n] else []
  }

  /** The children lists invert the parent map of a tree. */
  ghost predicate TreeShaped(s: Shape) {
    && s.root in s.depth && s.depth[s.root] == 0
    && s.parent.Keys == s.depth.Keys - {s.root}
    && (forall v | v in s.parent ::
          s.parent[v] in s.depth && s.depth[v] == s.depth[s.parent[v]] + 1 && v in Kids(s, s.parent[v]))
    && (forall u | u in s.depth :: s.depth[u] <= s.height && Distinct(Kids(s, u)))
    && forall u, i | u in s.depth && 0 <= i < |Kids(s, u)| ::
         Kids(s, u)[i] in s.parent && s.parent[Kids(s, u)[i]] == u
  }

  // ----- children lists from the parent map -----

  ghost predicate ListsFit(children: map<Id, seq<Id>>, nodes: set<Id>) {
    forall u | u in children :: u in nodes && children[u] != []
  }

  /** The loop over parent entries, in the order the search found them. */
  method CollectChildren(t: Tree, adjacency: Adjacency) returns (children: map<Id, seq<Id>>)
    requires Parented(adjacency, t) && InOrder(t)
    ensures forall height: nat | (forall u | u in t.depth :: t.depth[u] <= height) ::
              TreeShaped(Shape(t.root, t.parent, t.depth, children, height))
    ensures ListsFit(children, t.depth.Keys)
  {
    hide ChildrenOf;
    children := map[];
    NoChildrenYet(t);
    for i := 0 to |t.order|
      invariant ChildrenOf(t, children, i) && ListsFit(children, t.depth.Keys)
    {
      var v := t.order[i];
      if v in t.parent {
        var p := t.parent[v];
        ChildrenStep(t, children, i);
        children := children[p := KidsIn(children, p) + [v]];
      } else {
        ChildrenSkip(t, children, i);
      }
    }
    ChildrenShape(t, adjacency, children);
  }

  lemma NoChildrenYet(t: Tree)
    ensures ChildrenOf(t, map[], 0)
  {
  }

  lemma ChildrenShape(t: Tree, adjacency: Adjacency, children: map<Id, seq<Id>>)
    requires Parented(adjacency, t) && InOrder(t) && ChildrenOf(t, children, |t.order|)
    ensures forall height: nat | (forall u | u in t.depth :: t.depth[u] <= height) ::
              TreeShaped(Shape(t.root, t.parent, t.depth, children, height))
  {
    ChildrenDone(t, children);
    forall height: nat | forall u | u in t.depth :: t.depth[u] <= height
      ensures TreeShaped(Shape(t.root, t.parent, t.depth, children, height))
    {
      var s := Shape(t.root, t.parent, t.depth, children, height);
      forall u ensures Kids(s, u) == KidsIn(children, u) {
      }
      forall u, i | u in s.depth && 0 <= i < |Kids(s, u)|
        ensures Kids(s, u)[i] in s.parent && s.parent[Kids(s, u)[i]] == u
      {
        assert Kids(s, u)[i] in KidsIn(children, u);
      }
    }
  }

  /** Sorting the children lists, by any key, keeps the shape. */
  lemma SortingKeepsShape(s: Shape, children: map<Id, seq<Id>>)
    requires TreeShaped(s)
    requires forall u :: multiset(KidsIn(children, u)) == multiset(Kids(s, u))
    ensures TreeShaped(s.(children := children))
  {
    var t := s.(children := children);
    forall u
      ensures forall v :: v in Kids(t, u) <==> v in Kids(s, u)
      ensures Distinct(Kids(s, u)) ==> Distinct(Kids(t, u))
    {
      SameKids(Kids(s, u), KidsIn(children, u));
    }
    forall u, i | u in t.depth && 0 <= i < |Kids(t, u)|
      ensures Kids(t, u)[i] in t.parent && t.parent[Kids(t, u)[i]] == u
    {
      assert Kids(t, u)[i] in Kids(s, u);
    }
  }

  lemma SameKids(a: seq<Id>, b: seq<Id>)
    requires multiset(a) == multiset(b)
    ensures forall v :: v in a <==> v in b
    ensures Distinct(a) ==> Distinct(b)
  {
    forall v ensures v in a <==> v in b {
      assert v in multiset(a) <==> v in multiset(b);
    }
    if Distinct(a) {
      PermutedStaysDistinct(a, b);
    }
  }

  function KidsIn(children: map<Id, seq<Id>>, n: Id): seq<Id> {
    if n in children then children[n] else []
  }

  /** After i nodes, children lists each of them under its parent, once. */
  ghost predicate ChildrenOf(t: Tree, children: map<Id, seq<Id>>, i: nat)
    requires i <= |t.order|
  {
    && (forall u :: Distinct(KidsIn(children, u)))
    && forall u, v :: v in KidsIn(children, u) <==> IsChildBy(t, u, v, i)
  }

  ghost predicate IsChildBy(t: Tree, u: Id, v: Id, i: nat)
    requires i <= |t.order|
  {
    v in t.order[..i] && v in t.parent && t.parent[v] == u
  }

  lemma ChildrenStep(t: Tree, children: map<Id, seq<Id>>, i: nat)
    requires i < |t.order| && ChildrenOf(t, children, i) && Distinct(t.order) && t.order[i] in t.parent
    ensures var p := t.parent[t.order[i]];
            ChildrenOf(t, children[p := KidsIn(children, p) + [t.order[i]]], i + 1)
  {
    var v, p := t.order[i], t.parent[t.order[i]];
    var after := children[p := KidsIn(children, p) + [v]];
    assert t.order[..i + 1] == t.order[..i] + [v];
    assert v !in t.order[..i];
    assert v !in KidsIn(children, p);
    forall u ensures Distinct(KidsIn(after, u)) {
      assert Distinct(KidsIn(children, u));
    }
    forall u, w ensures w in KidsIn(after, u) <==> IsChildBy(t, u, w, i + 1) {
      assert w in KidsIn(after, u) <==> w in KidsIn(children, u) || (u == p && w == v);
      assert w in KidsIn(children, u) <==> IsChildBy(t, u, w, i);
    }
  }

  lemma ChildrenSkip(t: Tree, children: map<Id, seq<Id>>, i: nat)
    requires i < |t.order| && ChildrenOf(t, children, i) && t.order[i] !in t.parent
    ensures ChildrenOf(t, children, i + 1)
  {
  }

  lemma ChildrenDone(t: Tree, children: map<Id, seq<Id>>)
    requires ChildrenOf(t, children, |t.order|) && forall v | v in t.parent :: v in t.order
    ensures forall u, v :: v in KidsIn(children, u) <==> v in t.parent && t.parent[v] == u
  {
  }

  // ----- leaf counts -----

  /** Recursion goes down the tree. */
  ghost function Below(s: Shape, n: Id): nat {
    if n in s.depth && s.depth[n] <= s.height then s.height - s.depth[n] else 0
  }

  function Leaves(s: Shape, n: Id): (k: nat)
    requires TreeShaped(s) && n in s.depth
    ensures k >= 1
    decreases Below(s, n), |Kids(s, n)| + 1
  {
    if Kids(s, n) == [] then 1 else LeavesOf(s, n, |Kids(s, n)|)
  }

  /** The leaves under the first i children of n. */
  function LeavesOf(s: Shape, n: Id, i: nat): (k: nat)
    requires TreeShaped(s) && n in s.depth && i <= |Kids(s, n)|
    ensures i > 0 ==> k >= 1
    decreases Below(s, n), i
  {
    if i == 0 then 0
    else
      var kid := Kids(s, n)[i - 1];
      KidFacts(s, n, i - 1);
      LeavesOf(s, n, i - 1) + Leaves(s, kid)
  }

  lemma KidFacts(s: Shape, n: Id, i: nat)
    requires TreeShaped(s) && n in s.depth && i < |Kids(s, n)|
    ensures Kids(s, n)[i] in s.depth && Kids(s, n)[i] in s.parent && s.parent[Kids(s, n)[i]] == n
    ensures s.depth[Kids(s, n)[i]] == s.depth[n] + 1 <= s.height
    ensures Below(s, Kids(s, n)[i]) < Below(s, n)
  {
  }

  /** The childless nodes at or under n. */
  ghost function LeafSet(s: Shape, n: Id): set<Id>
    requires TreeShaped(s) && n in s.depth
    decreases Below(s, n), |Kids(s, n)| + 1
  {
    if Kids(s, n) == [] then {n} else LeafSetOf(s, n, |Kids(s, n)|)
  }

  ghost function LeafSetOf(s: Shape, n: Id, i: nat): set<Id>
    requires TreeShaped(s) && n in s.depth && i <= |Kids(s, n)|
    decreases Below(s, n), i
  {
    if i == 0 then {}
    else
      KidFacts(s, n, i - 1);
      LeafSetOf(s, n, i - 1) + LeafSet(s, Kids(s, n)[i - 1])
  }

  /** v itself or its ancestor at depth d. */
  ghost function AncestorAt(s: Shape, v: Id, d: nat): Id
    requires TreeShaped(s) && v in s.depth && d <= s.depth[v]
    decreases s.depth[v]
  {
    if s.depth[v] == d then v else AncestorAt(s, s.parent[v], d)
  }

  lemma {:induction false} LeavesAreBelow(s: Shape, n: Id, v: Id)
    requires TreeShaped(s) && n in s.depth && v in LeafSet(s, n)
    ensures v in s.depth && s.depth[n] <= s.depth[v] && AncestorAt(s, v, s.depth[n]) == n && Kids(s, v) == []
    decreases Below(s, n), |Kids(s, n)| + 1
  {
    if Kids(s, n) != [] {
      var i := LeavesOfAreBelow(s, n, |Kids(s, n)|, v);
    }
  }

  lemma {:induction false} LeavesOfAreBelow(s: Shape, n: Id, i: nat, v: Id) returns (j: nat)
    requires TreeShaped(s) && n in s.depth && i <= |Kids(s, n)| && v in LeafSetOf(s, n, i)
    ensures j < i && v in s.depth && s.depth[n] < s.depth[v] && Kids(s, v) == []
    ensures AncestorAt(s, v, s.depth[n] + 1) == Kids(s, n)[j]
    ensures AncestorAt(s, v, s.depth[n]) == n
    decreases Below(s, n), i
  {
    var kid := Kids(s, n)[i - 1];
    KidFacts(s, n, i - 1);
    if v in LeafSet(s, kid) {
      LeavesAreBelow(s, kid, v);
      AncestorOfParent(s, v, s.depth[n] + 1);
      j := i - 1;
    } else {
      j := LeavesOfAreBelow(s, n, i - 1, v);
    }
  }

  lemma {:induction false} AncestorOfParent(s: Shape, v: Id, d: nat)
    requires TreeShaped(s) && v in s.depth && 0 < d <= s.depth[v]
    ensures AncestorAt(s, v, d) in s.parent && AncestorAt(s, v, d - 1) == s.parent[AncestorAt(s, v, d)]
    decreases s.depth[v]
  {
    if s.depth[v] > d {
      AncestorOfParent(s, s.parent[v], d);
    }
  }

  /** leaf_count counts the leaves of the subtree. */
  lemma {:induction false} LeafCountIsCardinality(s: Shape, n: Id)
    requires TreeShaped(s) && n in s.depth
    ensures Leaves(s, n) == |LeafSet(s, n)|
    decreases Below(s, n), |Kids(s, n)| + 1
  {
    if Kids(s, n) != [] {
      PartialLeafCount(s, n, |Kids(s, n)|);
    }
  }

  lemma KidsApart(s: Shape, n: Id, i: nat)
    requires TreeShaped(s) && n in s.depth && i < |Kids(s, n)| && Kids(s, n)[i] in s.depth
    ensures LeafSetOf(s, n, i) !! LeafSet(s, Kids(s, n)[i])
  {
    hide LeafSet, LeafSetOf, AncestorAt, Below;
    KidFacts(s, n, i);
    forall v | v in LeafSetOf(s, n, i) ensures v !in LeafSet(s, Kids(s, n)[i]) {
      var j := LeavesOfAreBelow(s, n, i, v);
      if v in LeafSet(s, Kids(s, n)[i]) {
        LeavesAreBelow(s, Kids(s, n)[i], v);
      }
    }
  }

  lemma {:induction false} PartialLeafCount(s: Shape, n: Id, i: nat)
    requires TreeShaped(s) && n in s.depth && i <= |Kids(s, n)|
    ensures LeavesOf(s, n, i) == |LeafSetOf(s, n, i)|
    decreases Below(s, n), i
  {
    hide TreeShaped, AncestorAt;
    if i > 0 {
      var kid := Kids(s, n)[i - 1];
      KidFacts(s, n, i - 1);
      PartialLeafCount(s, n, i - 1);
      LeafCountIsCardinality(s, kid);
      KidsApart(s, n, i - 1);
      DisjointSize(LeafSetOf(s, n, i - 1), LeafSet(s, kid));
    }
  }

  lemma DisjointSize(a: set<Id>, b: set<Id>)
    requires a !! b
    ensures |a + b| == |a| + |b|
  {
  }

  // ----- wedges -----

  datatype Wedge = Wedge(start: real, span: real)

  function EndOf(w: Wedge): real {
    w.start + w.span
  }

  function Share(span: real, part: int, total: int): real
    requires total > 0
  {
    span * part as real / total as real
  }

  lemma ShareAdds(span: real, a: int, b: int, total: int)
    requires total > 0
    ensures Share(span, a, total) + Share(span, b, total) == Share(span, a + b, total)
  {
  }

  lemma ShareOfAll(span: real, total: int)
    requires total > 0
    ensures Share(span, total, total) == span && Share(span, 0, total) == 0.0
  {
  }

  lemma ShareOfShare(span: real, a: int, b: int, total: int)
    requires total > 0 && b > 0
    ensures Share(Share(span, b, total), a, b) == Share(span, a, total)
  {
  }

  /** Where a node's share of its parent's wedge lies; the root has the whole turn. */
  ghost function WedgeOf(s: Shape, whole: Wedge, n: Id): Wedge
    requires TreeShaped(s) && n in s.depth
    decreases s.depth[n]
  {
    if n == s.root then whole
    else
      var p := s.parent[n];
      ChildWedge(s, WedgeOf(s, whole, p), p, IndexIn(Kids(s, p), n))
  }

  ghost function ChildWedge(s: Shape, w: Wedge, p: Id, i: nat): Wedge
    requires TreeShaped(s) && p in s.depth && i < |Kids(s, p)|
  {
    KidFacts(s, p, i);
    Wedge(w.start + Share(w.span, LeavesOf(s, p, i), Leaves(s, p)),
          Share(w.span, Leaves(s, Kids(s, p)[i]), Leaves(s, p)))
  }

  lemma KidWedge(s: Shape, whole: Wedge, p: Id, i: nat)
    requires TreeShaped(s) && p in s.depth && i < |Kids(s, p)|
    ensures Kids(s, p)[i] in s.depth
    ensures WedgeOf(s, whole, Kids(s, p)[i]) == ChildWedge(s, WedgeOf(s, whole, p), p, i)
  {
  }

  /** Every node's wedge is its leaves' share of the whole turn. */
  lemma {:induction false} WedgeIsProportional(s: Shape, whole: Wedge, n: Id)
    requires TreeShaped(s) && n in s.depth
    ensures WedgeOf(s, whole, n).span == Share(whole.span, Leaves(s, n), Leaves(s, s.root))
    decreases s.depth[n]
  {
    if n == s.root {
      ShareOfAll(whole.span, Leaves(s, n));
    } else {
      var p := s.parent[n];
      WedgeIsProportional(s, whole, p);
      ShareOfShare(whole.span, Leaves(s, n), Leaves(s, p), Leaves(s, s.root));
    }
  }

  lemma LeavesOfStep(s: Shape, p: Id, i: nat)
    requires TreeShaped(s) && p in s.depth && i < |Kids(s, p)|
    ensures Kids(s, p)[i] in s.depth
    ensures LeavesOf(s, p, 0) == 0 && LeavesOf(s, p, i + 1) == LeavesOf(s, p, i) + Leaves(s, Kids(s, p)[i])
    ensures LeavesOf(s, p, |Kids(s, p)|) == Leaves(s, p)
  {
  }

  /** Sibling wedges follow each other and fill their parent's wedge exactly. */
  lemma SiblingsTile(s: Shape, whole: Wedge, p: Id, i: nat)
    requires TreeShaped(s) && p in s.depth && i < |Kids(s, p)|
    ensures Kids(s, p)[i] in s.depth && (i + 1 < |Kids(s, p)| ==> Kids(s, p)[i + 1] in s.depth)
    ensures var w, k := WedgeOf(s, whole, p), WedgeOf(s, whole, Kids(s, p)[i]);
            && (i == 0 ==> k.start == w.start)
            && (i + 1 < |Kids(s, p)| ==> WedgeOf(s, whole, Kids(s, p)[i + 1]).start == EndOf(k))
            && (i + 1 == |Kids(s, p)| ==> EndOf(k) == EndOf(w))
  {
    hide Share, WedgeOf, LeavesOf, Leaves, TreeShaped;
    var w := WedgeOf(s, whole, p);
    var total := Leaves(s, p);
    KidWedge(s, whole, p, i);
    LeavesOfStep(s, p, i);
    ShareOfAll(w.span, total);
    ShareAdds(w.span, LeavesOf(s, p, i), Leaves(s, Kids(s, p)[i]), total);
    if i + 1 < |Kids(s, p)| {
      KidWedge(s, whole, p, i + 1);
    }
  }

  ghost predicate Inside(a: Wedge, b: Wedge) {
    b.start <= a.start && EndOf(a) <= EndOf(b)
  }

  ghost predicate Apart(a: Wedge, b: Wedge) {
    EndOf(a) <= b.start || EndOf(b) <= a.start
  }

  lemma ShareMonotone(span: real, a: int, b: int, total: int)
    requires span >= 0.0 && a <= b && 0 < total
    ensures Share(span, a, total) <= Share(span, b, total)
    ensures a >= 0 ==> Share(span, a, total) >= 0.0
  {
  }

  lemma {:induction false} LeavesOfAscends(s: Shape, p: Id, i: nat, j: nat)
    requires TreeShaped(s) && p in s.depth && i <= j <= |Kids(s, p)|
    ensures LeavesOf(s, p, i) <= LeavesOf(s, p, j)
    decreases j
  {
    if i < j {
      LeavesOfAscends(s, p, i, j - 1);
    }
  }

  lemma LeavesOfGrows(s: Shape, p: Id, i: nat, j: nat)
    requires TreeShaped(s) && p in s.depth && i < j <= |Kids(s, p)|
    ensures Kids(s, p)[i] in s.depth
    ensures LeavesOf(s, p, i) + Leaves(s, Kids(s, p)[i]) <= LeavesOf(s, p, j) <= Leaves(s, p)
  {
    LeavesOfStep(s, p, i);
    LeavesOfAscends(s, p, i + 1, j);
    LeavesOfAscends(s, p, j, |Kids(s, p)|);
  }

  lemma NestedShares(start: real, span: real, a: int, b: int, total: int)
    requires span >= 0.0 && 0 <= a && 0 <= b && a + b <= total && 0 < total
    ensures Share(span, b, total) >= 0.0
    ensures Inside(Wedge(start + Share(span, a, total), Share(span, b, total)), Wedge(start, span))
  {
    hide Share;
    ShareOfAll(span, total);
    ShareMonotone(span, 0, a, total);
    ShareMonotone(span, 0, b, total);
    ShareMonotone(span, a + b, total, total);
    ShareAdds(span, a, b, total);
  }

  lemma OrderedShares(start: real, span: real, a: int, b: int, c: int, total: int)
    requires span >= 0.0 && a + b <= c && 0 < total
    ensures start + Share(span, a, total) + Share(span, b, total) <= start + Share(span, c, total)
  {
  }

  /** Every wedge lies inside its parent's, and no wedge has negative span. */
  lemma WedgesNest(s: Shape, whole: Wedge, n: Id)
    requires TreeShaped(s) && n in s.parent && whole.span >= 0.0
    ensures WedgeOf(s, whole, n).span >= 0.0
    ensures Inside(WedgeOf(s, whole, n), WedgeOf(s, whole, s.parent[n]))
  {
    var p := s.parent[n];
    var i := IndexIn(Kids(s, p), n);
    var w := WedgeOf(s, whole, p);
    assert WedgeOf(s, whole, n) == ChildWedge(s, w, p, i);
    hide Share, WedgeOf, LeavesOf, Leaves, Inside, TreeShaped;
    SpanIsPositive(s, whole, p);
    LeavesOfGrows(s, p, i, |Kids(s, p)|);
    NestedShares(w.start, w.span, LeavesOf(s, p, i), Leaves(s, n), Leaves(s, p));
  }

  lemma SpanIsPositive(s: Shape, whole: Wedge, n: Id)
    requires TreeShaped(s) && n in s.depth && whole.span >= 0.0
    ensures WedgeOf(s, whole, n).span >= 0.0
  {
    WedgeIsProportional(s, whole, n);
    ShareMonotone(whole.span, 0, Leaves(s, n), Leaves(s, s.root));
    ShareOfAll(whole.span, Leaves(s, s.root));
  }

  lemma SiblingsApart(s: Shape, whole: Wedge, p: Id, i: nat, j: nat)
    requires TreeShaped(s) && p in s.depth && i < j < |Kids(s, p)| && whole.span >= 0.0
    ensures Kids(s, p)[i] in s.depth && Kids(s, p)[j] in s.depth
    ensures EndOf(WedgeOf(s, whole, Kids(s, p)[i])) <= WedgeOf(s, whole, Kids(s, p)[j]).start
  {
    hide Share, WedgeOf, LeavesOf, Leaves, TreeShaped;
    var w := WedgeOf(s, whole, p);
    KidWedge(s, whole, p, i);
    KidWedge(s, whole, p, j);
    SpanIsPositive(s, whole, p);
    LeavesOfGrows(s, p, i, j);
    OrderedShares(w.start, w.span, LeavesOf(s, p, i), Leaves(s, Kids(s, p)[i]), LeavesOf(s, p, j), Leaves(s, p));
  }

  /** Two different nodes of the same depth never share a direction. */
  lemma {:induction false} SameDepthApart(s: Shape, whole: Wedge, u: Id, v: Id)
    requires TreeShaped(s) && u in s.depth && v in s.depth && u != v && s.depth[u] == s.depth[v] && whole.span >= 0.0
    ensures Apart(WedgeOf(s, whole, u), WedgeOf(s, whole, v))
    decreases s.depth[u]
  {
    assert u in s.parent && v in s.parent;
    var p, q := s.parent[u], s.parent[v];
    if p == q {
      var i, j := IndexIn(Kids(s, p), u), IndexIn(Kids(s, p), v);
      if i < j {
        SiblingsApart(s, whole, p, i, j);
      } else {
        SiblingsApart(s, whole, p, j, i);
      }
    } else {
      SameDepthApart(s, whole, p, q);
      WedgesNest(s, whole, u);
      WedgesNest(s, whole, v);
    }
  }

  // ----- the closures leaf_count and place -----

  const RING_STEP := 190

  // Polar coordinates around the centre; the source takes cosine and sine of the angle.
  datatype Position = Position(angle: real, radius: int)

  ghost function PositionOf(s: Shape, whole: Wedge, n: Id): Position
    requires TreeShaped(s) && n in s.depth
  {
    var w := WedgeOf(s, whole, n);
    Position(w.start + w.span / 2.0, s.depth[n] * RING_STEP)
  }

  /** A node stands in the middle of its wedge, on the ring of its depth: 190 for each level. */
  lemma StandsInTheMiddle(s: Shape, whole: Wedge, n: Id)
    requires TreeShaped(s) && n in s.depth
    ensures var p, w := PositionOf(s, whole, n), WedgeOf(s, whole, n);
            p.angle - w.start == EndOf(w) - p.angle && p.radius == 190 * s.depth[n]
  {
  }

  /** Different nodes stand at different places. */
  lemma PositionsDiffer(s: Shape, whole: Wedge, u: Id, v: Id)
    requires TreeShaped(s) && u in s.depth && v in s.depth && u != v && whole.span > 0.0
    ensures PositionOf(s, whole, u) != PositionOf(s, whole, v)
  {
    hide WedgeOf, TreeShaped;
    if s.depth[u] == s.depth[v] {
      SameDepthApart(s, whole, u, v);
      WedgeIsProportional(s, whole, u);
      WedgeIsProportional(s, whole, v);
    }
  }

  // Where the loop of place puts its i-th kid, and where its cursor goes next.
  lemma KidSlot(s: Shape, whole: Wedge, n: Id, i: nat, start: real, span: real, cursor: real)
    requires TreeShaped(s) && n in s.depth && i < |Kids(s, n)| && WedgeOf(s, whole, n) == Wedge(start, span)
    requires cursor == start + Share(span, LeavesOf(s, n, i), Leaves(s, n))
    ensures Kids(s, n)[i] in s.depth
    ensures var kid := Kids(s, n)[i];
            var childSpan := Share(span, Leaves(s, kid), Leaves(s, n));
            && WedgeOf(s, whole, kid) == Wedge(cursor, childSpan)
            && PositionOf(s, whole, kid) == Position(cursor + childSpan / 2.0, s.depth[kid] * RING_STEP)
            && cursor + childSpan == start + Share(span, LeavesOf(s, n, i + 1), Leaves(s, n))
  {
    hide Share, WedgeOf, LeavesOf, Leaves, TreeShaped;
    KidWedge(s, whole, n, i);
    LeavesOfStep(s, n, i);
    ShareAdds(span, LeavesOf(s, n, i), Leaves(s, Kids(s, n)[i]), Leaves(s, n));
  }

  lemma NoShareYet(s: Shape, n: Id, span: real)
    requires TreeShaped(s) && n in s.depth
    ensures Share(span, LeavesOf(s, n, 0), Leaves(s, n)) == 0.0
    ensures LeavesOf(s, n, |Kids(s, n)|) > 0 ==> LeavesOf(s, n, |Kids(s, n)|) == Leaves(s, n)
    ensures LeavesOf(s, n, |Kids(s, n)|) == 0 ==> Leaves(s, n) == 1
  {
    var total := Leaves(s, n);
    assert LeavesOf(s, n, 0) == 0;
    assert span * (0 as real) == 0.0;
    assert 0.0 / total as real == 0.0;
  }

  /** v is a proper descendant of n. */
  ghost predicate Under(s: Shape, n: Id, v: Id)
    requires TreeShaped(s) && n in s.depth
  {
    v in s.depth && s.depth[n] < s.depth[v] && AncestorAt(s, v, s.depth[n]) == n
  }

  lemma UnderOneKid(s: Shape, n: Id, v: Id) returns (i: nat)
    requires TreeShaped(s) && n in s.depth && Under(s, n, v)
    ensures i < |Kids(s, n)| && Kids(s, n)[i] in s.depth && (v == Kids(s, n)[i] || Under(s, Kids(s, n)[i], v))
  {
    var d := s.depth[n] + 1;
    var kid := AncestorAt(s, v, d);
    AncestorOfParent(s, v, d);
    AncestorDepth(s, v, d);
    i := IndexIn(Kids(s, n), kid);
  }

  lemma {:induction false} AncestorDepth(s: Shape, v: Id, d: nat)
    requires TreeShaped(s) && v in s.depth && d <= s.depth[v]
    ensures AncestorAt(s, v, d) in s.depth && s.depth[AncestorAt(s, v, d)] == d
    decreases s.depth[v]
  {
    if s.depth[v] > d {
      AncestorDepth(s, s.parent[v], d);
    }
  }

  /** Nodes under a kid of n are under n, and under no other kid. */
  lemma UnderKid(s: Shape, n: Id, i: nat, v: Id)
    requires TreeShaped(s) && n in s.depth && i < |Kids(s, n)| && Kids(s, n)[i] in s.depth
    requires v == Kids(s, n)[i] || Under(s, Kids(s, n)[i], v)
    ensures Under(s, n, v) && AncestorAt(s, v, s.depth[n] + 1) == Kids(s, n)[i]
  {
    KidFacts(s, n, i);
    AncestorOfParent(s, v, s.depth[n] + 1);
  }

  /** Every found node but the root is under the root. */
  lemma {:induction false} UnderRoot(s: Shape, v: Id)
    requires TreeShaped(s) && v in s.depth
    ensures AncestorAt(s, v, 0) == s.root
    decreases s.depth[v]
  {
    if v == s.root {
      assert s.depth[v] == 0;
    } else {
      assert v in s.parent;
      UnderRoot(s, s.parent[v]);
      assert AncestorAt(s, v, 0) == AncestorAt(s, s.parent[v], 0);
    }
  }

  /** v is one of the first i kids of n, or under one. */
  ghost predicate InFirst(s: Shape, n: Id, v: Id, i: nat)
    requires TreeShaped(s) && n in s.depth && i <= |Kids(s, n)|
  {
    Under(s, n, v) && exists j | 0 <= j < i :: Kids(s, n)[j] == AncestorAt(s, v, s.depth[n] + 1)
  }

  lemma FirstOneMore(s: Shape, n: Id, v: Id, i: nat)
    requires TreeShaped(s) && n in s.depth && i < |Kids(s, n)| && Kids(s, n)[i] in s.depth
    ensures InFirst(s, n, v, i + 1) <==> InFirst(s, n, v, i) || v == Kids(s, n)[i] || Under(s, Kids(s, n)[i], v)
    ensures InFirst(s, n, v, i) ==> v != Kids(s, n)[i] && !Under(s, Kids(s, n)[i], v)
    ensures InFirst(s, n, v, i) || InFirst(s, n, v, i + 1) ==> v in s.depth
  {
    var kid := Kids(s, n)[i];
    if v == kid || Under(s, kid, v) {
      UnderKid(s, n, i, v);
    }
    if InFirst(s, n, v, i + 1) && AncestorAt(s, v, s.depth[n] + 1) == kid && v != kid {
      var j := UnderOneKid(s, n, v);
      UnderKid(s, n, j, v);
    }
  }

  lemma AllKidsAreUnder(s: Shape, n: Id, v: Id)
    requires TreeShaped(s) && n in s.depth
    ensures InFirst(s, n, v, |Kids(s, n)|) <==> Under(s, n, v)
    ensures Under(s, n, v) ==> v in s.depth
  {
    if Under(s, n, v) {
      var i := UnderOneKid(s, n, v);
      UnderKid(s, n, i, v);
    }
  }

  type Positions = map<Id, Position>

  ghost predicate SettledAt(s: Shape, whole: Wedge, before: Positions, after: Positions, v: Id, moved: bool)
    requires TreeShaped(s)
  {
    if moved then v in s.depth && v in after && after[v] == PositionOf(s, whole, v)
    else (v in after <==> v in before) && (v in after ==> after[v] == before[v])
  }

  /** The first i kids of n and everything under them have their positions; nothing else moved. */
  ghost predicate Placed(s: Shape, whole: Wedge, before: Positions, after: Positions, n: Id, i: nat)
    requires TreeShaped(s) && n in s.depth && i <= |Kids(s, n)|
  {
    forall v :: SettledAt(s, whole, before, after, v, InFirst(s, n, v, i))
  }

  lemma NothingPlaced(s: Shape, whole: Wedge, positions: Positions, n: Id)
    requires TreeShaped(s) && n in s.depth
    ensures Placed(s, whole, positions, positions, n, 0)
  {
  }

  lemma PlacedOneMore(s: Shape, whole: Wedge, before: Positions, soFar: Positions, after: Positions, n: Id, i: nat)
    requires TreeShaped(s) && n in s.depth && i < |Kids(s, n)| && Kids(s, n)[i] in s.depth
    requires Placed(s, whole, before, soFar, n, i)
    requires var kid := Kids(s, n)[i];
             Placed(s, whole, soFar[kid := PositionOf(s, whole, kid)], after, kid, |Kids(s, kid)|)
    ensures Placed(s, whole, before, after, n, i + 1)
  {
    hide InFirst, TreeShaped, PositionOf;
    var kid := Kids(s, n)[i];
    var marked := soFar[kid := PositionOf(s, whole, kid)];
    var next := i + 1;
    forall v ensures SettledAt(s, whole, before, after, v, InFirst(s, n, v, next))
    {
      FirstOneMore(s, n, v, i);
      AllKidsAreUnder(s, kid, v);
      assert SettledAt(s, whole, before, soFar, v, InFirst(s, n, v, i));
      assert SettledAt(s, whole, marked, after, v, InFirst(s, kid, v, |Kids(s, kid)|));
    }
  }

  class RadialLayout {
    const shape: Shape
    const whole: Wedge
    var leaves: map<Id, nat>
    var positions: Positions

    /** The memo holds only right answers. */
    ghost predicate Valid()
      reads this
    {
      TreeShaped(shape) && Remembers(shape, leaves)
    }

    constructor (shape: Shape, whole: Wedge)
      requires TreeShaped(shape)
      ensures Valid() && this.shape == shape && this.whole == whole && positions == map[shape.root := Position(0.0, 0)]
    {
      this.shape := shape;
      this.whole := whole;
      leaves := map[];
      positions := map[shape.root := Position(0.0, 0)];
    }

    method LeafCount(n: Id) returns (k: nat)
      requires Valid() && n in shape.depth
      modifies this`leaves
      ensures Valid() && k == Leaves(shape, n)
      decreases Below(shape, n), 1
    {
      hide TreeShaped;
      if n in leaves {
        return leaves[n];
      }
      var sum := SumOfKids(n);
      k := if sum < 1 then 1 else sum;
      leaves := leaves[n := k];
    }

    method SumOfKids(n: Id) returns (sum: nat)
      requires Valid() && n in shape.depth
      modifies this`leaves
      ensures Valid() && sum == LeavesOf(shape, n, |Kids(shape, n)|)
      decreases Below(shape, n), 0
    {
      hide TreeShaped, Remembers, Leaves;
      var kids := Kids(shape, n);
      sum := 0;
      for i := 0 to |kids|
        invariant Valid() && sum == LeavesOf(shape, n, i)
      {
        KidFacts(shape, n, i);
        var count := LeafCount(kids[i]);
        sum := sum + count;
      }
    }

    /** place: lay out everything under n inside the wedge of n. */
    method Place(n: Id, start: real, span: real)
      requires Valid() && n in shape.depth && WedgeOf(shape, whole, n) == Wedge(start, span)
      modifies this
      ensures Valid() && Placed(shape, whole, old(positions), positions, n, |Kids(shape, n)|)
      decreases Below(shape, n)
    {
      hide TreeShaped, Remembers, Placed, WedgeOf, LeavesOf, Leaves, Share, PositionOf;
      var kids := Kids(shape, n);
      var cursor := start;
      var sum := SumOfKids(n);
      var total := if sum == 0 then 1 else sum;
      ghost var before := positions;
      NothingPlaced(shape, whole, positions, n);
      NoShareYet(shape, n, span);
      for i := 0 to |kids|
        invariant Valid() && Placed(shape, whole, before, positions, n, i)
        invariant cursor == start + Share(span, LeavesOf(shape, n, i), Leaves(shape, n))
      {
        KidFacts(shape, n, i);
        KidSlot(shape, whole, n, i, start, span, cursor);
        ghost var soFar := positions;
        var count := LeafCount(kids[i]);
        var childSpan := Share(span, count, total);
        var angle := cursor + childSpan / 2.0;
        var radius := shape.depth[kids[i]] * RING_STEP;
        positions := positions[kids[i] := Position(angle, radius)];
        Place(kids[i], cursor, childSpan);
        PlacedOneMore(shape, whole, before, soFar, positions, n, i);
        cursor := cursor + childSpan;
      }
    }

    /** Every node but the root ends in the middle of its wedge, on the ring of its depth. */
    method LayOut()
      requires Valid()
      modifies this
      ensures Valid()
      ensures forall v | v in shape.parent :: v in positions && positions[v] == PositionOf(shape, whole, v)
      ensures shape.root in old(positions) ==>
                shape.root in positions && positions[shape.root] == old(positions)[shape.root]
    {
      var total := LeafCount(shape.root);
      ghost var before := positions;
      Place(shape.root, whole.start, whole.span);
      forall v | v in shape.parent ensures v in positions && positions[v] == PositionOf(shape, whole, v) {
        UnderRoot(shape, v);
        AllKidsAreUnder(shape, shape.root, v);
        assert SettledAt(shape, whole, before, positions, v, InFirst(shape, shape.root, v, |Kids(shape, shape.root)|));
      }
      AllKidsAreUnder(shape, shape.root, shape.root);
      assert SettledAt(shape, whole, before, positions, shape.root, false);
    }
  }

  ghost predicate Remembers(s: Shape, leaves: map<Id, nat>)
    requires TreeShaped(s)
  {
    forall n | n in leaves :: n in s.depth && leaves[n] == Leaves(s, n)
  }
}
