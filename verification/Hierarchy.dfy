/** The parent-cycle detector of cartography/graph_ir.py. */
module Hierarchy {
  import opened Wrappers
  import opened Collections

  datatype Id = Id(text: string)

  // parent_node_id by node id; missing, null and empty parents are all falsy.
  type Parents = map<Id, Option<Id>>

  // A walk up the hierarchy whose last id occurred before.
  datatype CycleError = CycleError(path: seq<Id>)

  predicate IsEmpty(id: Id) {
    id.text == []
  }

  /** The parent that the walk goes on to, when there is one. */
  function ParentOf(nodes: Parents, n: Id): Option<Id> {
    if n in nodes && nodes[n].Some? && !IsEmpty(nodes[n].value) then nodes[n] else None
  }

  /** The k-th ancestor. */
  function Ancestor(nodes: Parents, n: Id, k: nat): Option<Id> {
    if k == 0 then Some(n)
    else
      match Ancestor(nodes, n, k - 1)
      case None => None
      case Some(m) => ParentOf(nodes, m)
  }

  ghost predicate ReachesItself(nodes: Parents, n: Id) {
    exists k :: k > 0 && Ancestor(nodes, n, k) == Some(n)
  }

  /** No node is its own ancestor. */
  ghost predicate Acyclic(nodes: Parents) {
    forall n | n in nodes && !IsEmpty(n) :: !ReachesItself(nodes, n)
  }

  /** Parents have smaller ranks. */
  ghost predicate Ranks(nodes: Parents, rank: Id -> nat) {
    forall n | n in nodes && ParentOf(nodes, n).Some? :: rank(ParentOf(nodes, n).value) < rank(n)
  }

  // ----- walking up -----

  /** path lists the ancestors of its first element, in order. */
  ghost predicate WalksUp(nodes: Parents, path: seq<Id>) {
    |path| > 0 && forall i | 0 <= i < |path| - 1 :: ParentOf(nodes, path[i]) == Some(path[i + 1])
  }

  lemma {:induction false} WalkIsAncestors(nodes: Parents, path: seq<Id>, k: nat)
    requires WalksUp(nodes, path) && k < |path|
    ensures Ancestor(nodes, path[0], k) == Some(path[k])
  {
    if k > 0 {
      WalkIsAncestors(nodes, path, k - 1);
      assert ParentOf(nodes, path[k - 1]) == Some(path[k - 1 + 1]);
    }
  }

  lemma {:induction false} AncestorAdds(nodes: Parents, n: Id, j: nat, k: nat)
    requires Ancestor(nodes, n, j).Some?
    ensures Ancestor(nodes, n, j + k) == Ancestor(nodes, Ancestor(nodes, n, j).value, k)
  {
    if k > 0 {
      AncestorAdds(nodes, n, j, k - 1);
    }
  }

  /** A walk that comes back to an id closes a cycle there. */
  lemma RepeatReachesItself(nodes: Parents, path: seq<Id>, i: nat, j: nat)
    requires WalksUp(nodes, path) && i < j < |path| && path[i] == path[j]
    ensures path[i] in nodes && ReachesItself(nodes, path[i])
  {
    var rest := path[i..];
    assert WalksUp(nodes, rest) by {
      forall k | 0 <= k < |rest| - 1 ensures ParentOf(nodes, rest[k]) == Some(rest[k + 1]) {
        assert ParentOf(nodes, path[i + k]) == Some(path[i + k + 1]);
      }
    }
    WalkIsAncestors(nodes, rest, j - i);
    assert ParentOf(nodes, path[i]) == Some(path[i + 1]);
  }

  /** The walk stops at the first id that occurred before. */
  ghost predicate ReportsCycle(nodes: Parents, e: CycleError) {
    && WalksUp(nodes, e.path) && Distinct(e.path[..|e.path| - 1])
    && exists i | 0 <= i < |e.path| - 1 :: e.path[i] == e.path[|e.path| - 1]
  }

  lemma RepeatIsCyclic(nodes: Parents, path: seq<Id>, i: nat, j: nat)
    requires WalksUp(nodes, path) && i < j < |path| && path[i] == path[j] && !IsEmpty(path[0])
    ensures !Acyclic(nodes)
  {
    RepeatReachesItself(nodes, path, i, j);
    if i > 0 {
      assert ParentOf(nodes, path[i - 1]) == Some(path[i - 1 + 1]);
    }
  }

  ghost predicate Ends(nodes: Parents, n: Id) {
    exists k :: Ancestor(nodes, n, k) == None
  }

  /** A walk that comes back to an id goes on for ever. */
  lemma ReportedNeverEnds(nodes: Parents, e: CycleError)
    requires ReportsCycle(nodes, e)
    ensures !Ends(nodes, e.path[0])
  {
    var i :| 0 <= i < |e.path| - 1 && e.path[i] == e.path[|e.path| - 1];
    RepeatReachesItself(nodes, e.path, i, |e.path| - 1);
    var period :| period > 0 && Ancestor(nodes, e.path[i], period) == Some(e.path[i]);
    forall k: nat ensures Ancestor(nodes, e.path[0], k).Some? {
      WalkIsAncestors(nodes, e.path, i);
      if k <= i {
        WalkIsAncestors(nodes, e.path, k);
      } else {
        AncestorAdds(nodes, e.path[0], i, k - i);
        CycleNeverEnds(nodes, e.path[i], period, k - i);
      }
    }
  }

  /** Ancestors of a self-reaching node keep coming: the chain never ends. */
  lemma {:induction false} CycleNeverEnds(nodes: Parents, n: Id, period: nat, k: nat)
    requires period > 0 && Ancestor(nodes, n, period) == Some(n)
    ensures Ancestor(nodes, n, k).Some?
    decreases k
  {
    if k >= period {
      AncestorAdds(nodes, n, period, k - period);
      CycleNeverEnds(nodes, n, period, k - period);
    } else {
      AncestorPrefix(nodes, n, k, period);
    }
  }

  lemma {:induction false} AncestorPrefix(nodes: Parents, n: Id, j: nat, k: nat)
    requires j <= k && Ancestor(nodes, n, k).Some?
    ensures Ancestor(nodes, n, j).Some?
  {
    if j < k {
      AncestorPrefix(nodes, n, j, k - 1);
    }
  }

  // ----- the detector -----

  /** One start: walk up until a repeat or the top. */
  method WalkFrom(nodes: Parents, start: Id) returns (error: Option<CycleError>)
    ensures error.Some? ==> ReportsCycle(nodes, error.value) && error.value.path[0] == start && !IsEmpty(start)
    ensures error.Some? <==> !IsEmpty(start) && !Ends(nodes, start)
  {
    hide ReportsCycle, Ends, WalksUp;
    error := None;
    if IsEmpty(start) {
      return;
    }
    var path: seq<Id> := [];
    var seen: set<Id> := {};
    var current := start;
    StartsWalk(nodes, start);
    while true
      invariant WalksUp(nodes, path + [current]) && (path + [current])[0] == start
      invariant seen == (set id | id in path) && seen <= nodes.Keys && Distinct(path)
      decreases |nodes.Keys - seen|
    {
      var walk := path + [current];
      if current in seen {
        WalkCloses(nodes, path, current);
        return Some(CycleError(walk));
      }
      var parent := ParentOf(nodes, current);
      if parent.None? {
        WalkEnds(nodes, path, current);
        return;
      }
      WalkGrows(nodes, path, current, parent.value);
      assert nodes.Keys - (seen + {current}) < nodes.Keys - seen by {
        assert current in nodes.Keys - seen;
      }
      SmallerSet(nodes.Keys - (seen + {current}), nodes.Keys - seen);
      seen := seen + {current};
      path := walk;
      current := parent.value;
    }
  }

  lemma StartsWalk(nodes: Parents, start: Id)
    ensures WalksUp(nodes, [] + [start])
  {
  }

  lemma WalkCloses(nodes: Parents, path: seq<Id>, current: Id)
    requires WalksUp(nodes, path + [current]) && Distinct(path) && current in path
    ensures ReportsCycle(nodes, CycleError(path + [current])) && !Ends(nodes, (path + [current])[0])
  {
    var walk := path + [current];
    var i :| 0 <= i < |path| && path[i] == current;
    assert walk[i] == walk[|walk| - 1] && walk[..|walk| - 1] == path;
    ReportedNeverEnds(nodes, CycleError(walk));
  }

  lemma WalkEnds(nodes: Parents, path: seq<Id>, current: Id)
    requires WalksUp(nodes, path + [current]) && ParentOf(nodes, current).None?
    ensures Ends(nodes, (path + [current])[0])
  {
    var walk := path + [current];
    WalkIsAncestors(nodes, walk, |path|);
    assert Ancestor(nodes, walk[0], |path| + 1) == None;
  }

  lemma WalkGrows(nodes: Parents, path: seq<Id>, current: Id, parent: Id)
    requires WalksUp(nodes, path + [current]) && ParentOf(nodes, current) == Some(parent)
    ensures WalksUp(nodes, path + [current] + [parent])
  {
  }

  lemma SmallerSet(a: set<Id>, b: set<Id>)
    requires a < b
    ensures |a| < |b|
  {
    var x :| x in b && x !in a;
    assert a <= b - {x};
    SubsetSize(a, b - {x});
  }

  lemma {:induction false} SubsetSize(a: set<Id>, b: set<Id>)
    requires a <= b
    ensures |a| <= |b|
  {
    if a != {} {
      var x :| x in a;
      SubsetSize(a - {x}, b - {x});
    }
  }

  /** Every start in turn; errors are kept once per message, and paths from different starts differ. */
  method FindParentCycles(nodes: Parents, starts: seq<Id>) returns (errors: seq<CycleError>)
    requires forall n :: n in starts <==> n in nodes
    ensures errors == [] <==> Acyclic(nodes)
    ensures forall e | e in errors :: ReportsCycle(nodes, e) && e.path[0] in nodes
    ensures forall n | n in nodes && !IsEmpty(n) :: Reported(errors, n) <==> !Ends(nodes, n)
    ensures Distinct(errors)
    ensures forall n | n in nodes && !IsEmpty(n) && ReachesItself(nodes, n) :: Reported(errors, n)
  {
    errors := [];
    for i := 0 to |starts|
      invariant forall e | e in errors :: ReportsCycle(nodes, e) && e.path[0] in nodes && !IsEmpty(e.path[0])
      invariant forall j | 0 <= j < i && !IsEmpty(starts[j]) && !Ends(nodes, starts[j]) :: Reported(errors, starts[j])
      invariant Distinct(errors)
    {
      assert starts[i] in starts;
      var error := WalkFrom(nodes, starts[i]);
      ghost var before := errors;
      if error.Some? && error.value !in errors {
        errors := errors + [error.value];
      }
      ReportsKept(before, errors);
      assert error.Some? ==> Reported(errors, starts[i]);
    }
    forall n | n in nodes && !IsEmpty(n)
      ensures Reported(errors, n) <==> !Ends(nodes, n)
      ensures ReachesItself(nodes, n) ==> Reported(errors, n)
    {
      var j :| 0 <= j < |starts| && starts[j] == n;
      if Reported(errors, n) {
        var e :| e in errors && e.path != [] && e.path[0] == n;
        ReportedNeverEnds(nodes, e);
      }
      if Ends(nodes, n) {
        EndedIsAcyclic(nodes, n);
      }
    }
    if errors != [] {
      var e := errors[0];
      var i :| 0 <= i < |e.path| - 1 && e.path[i] == e.path[|e.path| - 1];
      RepeatIsCyclic(nodes, e.path, i, |e.path| - 1);
    }
  }

  /** An error whose walk starts at n. */
  ghost predicate Reported(errors: seq<CycleError>, n: Id) {
    exists e :: e in errors && e.path != [] && e.path[0] == n
  }

  lemma ReportsKept(before: seq<CycleError>, after: seq<CycleError>)
    requires before <= after
    ensures forall n :: Reported(before, n) ==> Reported(after, n)
  {
    forall n | Reported(before, n) ensures Reported(after, n) {
      var e :| e in before && e.path != [] && e.path[0] == n;
      assert e in after;
    }
  }

  lemma EndedIsAcyclic(nodes: Parents, n: Id)
    requires Ends(nodes, n)
    ensures !ReachesItself(nodes, n)
  {
    var k :| Ancestor(nodes, n, k) == None;
    if period :| period > 0 && Ancestor(nodes, n, period) == Some(n) {
      CycleNeverEnds(nodes, n, period, k);
      assert false;
    }
  }

  // ----- ranks -----

  ghost function Line(nodes: Parents, n: Id, k: nat): (path: seq<Id>)
    requires Ancestor(nodes, n, k).Some?
    ensures |path| == k + 1 && WalksUp(nodes, path) && path[0] == n && Some(path[k]) == Ancestor(nodes, n, k)
  {
    if k == 0 then [n]
    else
      var before := Line(nodes, n, k - 1);
      WalkGrows(nodes, before[..k - 1], before[k - 1], Ancestor(nodes, n, k).value);
      assert before[..k - 1] + [before[k - 1]] == before;
      before + [Ancestor(nodes, n, k).value]
  }

  /** Without cycles every chain ends within as many steps as there are nodes. */
  lemma ChainsEnd(nodes: Parents, n: Id)
    requires Acyclic(nodes) && !IsEmpty(n)
    ensures Ancestor(nodes, n, |nodes| + 1) == None
  {
    var k := |nodes| + 1;
    if Ancestor(nodes, n, k).Some? {
      var path := Line(nodes, n, k);
      forall i | 0 <= i < k ensures path[..k][i] in nodes.Keys {
        assert ParentOf(nodes, path[i]) == Some(path[i + 1]);
      }
      if Distinct(path[..k]) {
        DistinctFits(path[..k], nodes.Keys);
        assert false;
      }
      var i, j :| 0 <= i < j < k && path[..k][i] == path[..k][j];
      RepeatIsCyclic(nodes, path, i, j);
      assert false;
    }
  }

  /** How many parents a walk of at most fuel steps meets. */
  function Height(nodes: Parents, n: Id, fuel: nat): nat
    decreases fuel
  {
    if fuel == 0 then 0
    else
      match ParentOf(nodes, n)
      case None => 0
      case Some(p) => 1 + Height(nodes, p, fuel - 1)
  }

  lemma {:induction false} HeightSettles(nodes: Parents, n: Id, fuel: nat)
    requires Ancestor(nodes, n, fuel) == None
    ensures Height(nodes, n, fuel + 1) == Height(nodes, n, fuel)
    decreases fuel
  {
    if fuel > 0 && ParentOf(nodes, n).Some? {
      assert Ancestor(nodes, n, 1) == ParentOf(nodes, n) by {
        assert Ancestor(nodes, n, 0) == Some(n);
      }
      AncestorAdds(nodes, n, 1, fuel - 1);
      HeightSettles(nodes, ParentOf(nodes, n).value, fuel - 1);
    }
  }

  lemma {:induction false} RankFalls(nodes: Parents, rank: Id -> nat, n: Id, k: nat)
    requires Ranks(nodes, rank) && k > 0 && Ancestor(nodes, n, k).Some?
    ensures rank(Ancestor(nodes, n, k).value) < rank(n)
  {
    var m := Ancestor(nodes, n, k - 1).value;
    assert ParentOf(nodes, m).Some?;
    if k > 1 {
      RankFalls(nodes, rank, n, k - 1);
    }
  }

  /** The hierarchy is acyclic exactly when a rank strictly decreases from child to parent. */
  lemma AcyclicIffRanked(nodes: Parents)
    ensures Acyclic(nodes) <==> exists rank :: Ranks(nodes, rank)
  {
    if Acyclic(nodes) {
      var fuel := |nodes| + 2;
      var rank := (n: Id) => Height(nodes, n, fuel);
      forall n | n in nodes && ParentOf(nodes, n).Some? ensures rank(ParentOf(nodes, n).value) < rank(n) {
        ChainsEnd(nodes, ParentOf(nodes, n).value);
        HeightSettles(nodes, ParentOf(nodes, n).value, fuel - 1);
      }
      assert Ranks(nodes, rank);
    }
    if rank :| Ranks(nodes, rank) {
      forall n | n in nodes ensures !ReachesItself(nodes, n) {
        if k :| k > 0 && Ancestor(nodes, n, k) == Some(n) {
          RankFalls(nodes, rank, n, k);
          assert false;
        }
      }
    }
  }
}
