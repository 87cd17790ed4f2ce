/** The completion evaluator of experimental/execution_completion.py. */
module Completion {
  import opened Collections
  import opened Text

  const SCOPE := "global-working-memory"
  const VERSION := "0.1"

  // A required_order entry.
  datatype Order = Order(before: string, after: string)

  datatype Contract = Contract(
    version: string, scope: string, workflow: string, contract: string, objective: string, verifier: string,
    deliverables: seq<string>, required: seq<string>, forbidden: seq<string>, order: seq<Order>,
    predicates: seq<string>, maxSteps: int)

  // States outside PASS, FAIL and UNKNOWN are rejected by the validator.
  datatype PredicateState = Pass | Fail | Unknown | OtherState

  datatype Trajectory = Trajectory(
    scope: string, workflow: string, contract: string, verifier: string, deliverables: seq<string>,
    events: seq<string>, results: map<string, PredicateState>, terminal: bool, steps: int)

  datatype Verdict = PASS | FAIL | PARTIAL | BLOCKED

  datatype Reason =
    | InvalidContract | InvalidTrajectory | IdentityMismatch | ForbiddenEvent | StepBudgetExceeded | OrderViolation
    | PredicateFailed | TerminalIncomplete | ObligationsPending | SatisfiedNotTerminal | ContractSatisfied

  datatype Evaluation = Evaluation(
    verdict: Verdict, reason: Reason, missingDeliverables: set<string>, missingEvents: set<string>,
    failed: set<string>, unknown: set<string>)

  // ----- validity -----

  predicate ValidNames(s: seq<string>) {
    (forall i | 0 <= i < |s| :: NonBlank(s[i])) && Distinct(s)
  }

  predicate ValidPair(p: Order, required: seq<string>) {
    NonBlank(p.before) && NonBlank(p.after) && p.before != p.after && p.before in required && p.after in required
  }

  predicate ValidFields(c: Contract) {
    && c.version == VERSION && c.scope == SCOPE
    && NonBlank(c.workflow) && NonBlank(c.contract) && NonBlank(c.objective) && NonBlank(c.verifier)
    && ValidNames(c.deliverables) && ValidNames(c.required) && ValidNames(c.forbidden) && ValidNames(c.predicates)
  }

  predicate ValidContract(c: Contract) {
    && ValidFields(c)
    && (forall i | 0 <= i < |c.order| :: ValidPair(c.order[i], c.required))
    && Distinct(c.order)
    && c.maxSteps >= 0
  }

  predicate ValidTrajectory(t: Trajectory, c: Contract) {
    && t.scope == SCOPE
    && NonBlank(t.workflow) && NonBlank(t.contract) && NonBlank(t.verifier)
    && ValidNames(t.deliverables)
    && (forall i | 0 <= i < |t.events| :: NonBlank(t.events[i]))
    && t.results.Keys == (set p | p in c.predicates)
    && OtherState !in t.results.Values
    && t.steps >= 0
  }

  /** The validator's loop over required_order, with its set of pairs seen so far. */
  method CheckContract(c: Contract) returns (ok: bool)
    ensures ok == ValidContract(c)
  {
    if !ValidFields(c) {
      return false;
    }
    var seenPairs: set<Order> := {};
    for i := 0 to |c.order|
      invariant forall j | 0 <= j < i :: ValidPair(c.order[j], c.required)
      invariant Distinct(c.order[..i])
      invariant seenPairs == set j | 0 <= j < i :: c.order[j]
    {
      var pair := c.order[i];
      if !NonBlank(pair.before) || !NonBlank(pair.after) {
        return false;
      }
      if pair.before == pair.after || pair.before !in c.required || pair.after !in c.required {
        return false;
      }
      if pair in seenPairs {
        return false;
      }
      seenPairs := seenPairs + {pair};
    }
    assert c.order[..|c.order|] == c.order;
    return c.maxSteps >= 0;
  }

  // ----- evaluation -----

  /** events.index(e) of an event that occurs. */
  function Index(events: seq<string>, e: string): (i: nat)
    requires e in events
    ensures i < |events| && events[i] == e && e !in events[..i]
  {
    if events[0] == e then 0 else 1 + Index(events[1..], e)
  }

  predicate Violates(p: Order, events: seq<string>) {
    p.before in events && p.after in events && Index(events, p.before) >= Index(events, p.after)
  }

  function Result(verdict: Verdict, reason: Reason): Evaluation {
    Evaluation(verdict, reason, {}, {}, {}, {})
  }

  function WithState(t: Trajectory, s: PredicateState): set<string> {
    set p | p in t.results && t.results[p] == s
  }

  function Missing(required: seq<string>, observed: seq<string>): set<string> {
    set x | x in required && x !in observed
  }

  function Evaluate(c: Contract, t: Trajectory): Evaluation {
    if !ValidContract(c) then Result(BLOCKED, InvalidContract)
    else if !ValidTrajectory(t, c) then Result(BLOCKED, InvalidTrajectory)
    else if c.scope != t.scope || c.workflow != t.workflow || c.contract != t.contract || c.verifier != t.verifier
    then Result(BLOCKED, IdentityMismatch)
    else if exists i | 0 <= i < |t.events| :: t.events[i] in c.forbidden then Result(FAIL, ForbiddenEvent)
    else if t.steps > c.maxSteps then Result(FAIL, StepBudgetExceeded)
    else if exists i | 0 <= i < |c.order| :: Violates(c.order[i], t.events) then Result(FAIL, OrderViolation)
    else if WithState(t, Fail) != {} then Result(FAIL, PredicateFailed).(failed := WithState(t, Fail))
    else
      var deliverables, events := Missing(c.deliverables, t.deliverables), Missing(c.required, t.events);
      var unknown := WithState(t, Unknown);
      if deliverables != {} || events != {} || unknown != {} then
        Evaluation(if t.terminal then FAIL else PARTIAL, if t.terminal then TerminalIncomplete else ObligationsPending,
                   deliverables, events, {}, unknown)
      else if !t.terminal then Result(PARTIAL, SatisfiedNotTerminal)
      else Result(PASS, ContractSatisfied)
  }

  /** The scan over required_order returns at the first violated pair. */
  method FindOrderViolation(c: Contract, events: seq<string>) returns (found: bool)
    ensures found == exists i | 0 <= i < |c.order| :: Violates(c.order[i], events)
  {
    for i := 0 to |c.order|
      invariant forall j | 0 <= j < i :: !Violates(c.order[j], events)
    {
      var before, after := c.order[i].before, c.order[i].after;
      if before in events && after in events && Index(events, before) >= Index(events, after) {
        assert Violates(c.order[i], events);
        return true;
      }
    }
    return false;
  }

  method EvaluateCompletion(c: Contract, t: Trajectory) returns (r: Evaluation)
    ensures r == Evaluate(c, t)
  {
    var validContract := CheckContract(c);
    if !validContract {
      return Result(BLOCKED, InvalidContract);
    }
    if !ValidTrajectory(t, c) {
      return Result(BLOCKED, InvalidTrajectory);
    }
    if c.scope != t.scope || c.workflow != t.workflow || c.contract != t.contract || c.verifier != t.verifier {
      return Result(BLOCKED, IdentityMismatch);
    }
    if exists i | 0 <= i < |t.events| :: t.events[i] in c.forbidden {
      return Result(FAIL, ForbiddenEvent);
    }
    if t.steps > c.maxSteps {
      return Result(FAIL, StepBudgetExceeded);
    }
    var violation := FindOrderViolation(c, t.events);
    if violation {
      return Result(FAIL, OrderViolation);
    }
    var failed := WithState(t, Fail);
    if failed != {} {
      return Result(FAIL, PredicateFailed).(failed := failed);
    }
    var deliverables, events := Missing(c.deliverables, t.deliverables), Missing(c.required, t.events);
    var unknown := WithState(t, Unknown);
    if deliverables != {} || events != {} || unknown != {} {
      var verdict := if t.terminal then FAIL else PARTIAL;
      var reason := if t.terminal then TerminalIncomplete else ObligationsPending;
      return Evaluation(verdict, reason, deliverables, events, {}, unknown);
    }
    if !t.terminal {
      return Result(PARTIAL, SatisfiedNotTerminal);
    }
    return Result(PASS, ContractSatisfied);
  }

  // ----- what the verdicts mean -----

  ghost predicate Comparable(c: Contract, t: Trajectory) {
    && ValidContract(c) && ValidTrajectory(t, c)
    && c.scope == t.scope && c.workflow == t.workflow && c.contract == t.contract && c.verifier == t.verifier
  }

  /** A forbidden event, too many steps, or a required pair whose later event came no later than its earlier one. */
  ghost predicate Breached(c: Contract, t: Trajectory) {
    || (exists e :: e in t.events && e in c.forbidden)
    || t.steps > c.maxSteps
    || (exists p, i :: p in c.order && 0 <= i < |t.events| && t.events[i] == p.after && p.after !in t.events[..i]
                       && p.before in t.events && p.before !in t.events[..i])
  }

  ghost predicate Met(c: Contract, t: Trajectory) {
    && (forall d | d in c.deliverables :: d in t.deliverables) && (forall e | e in c.required :: e in t.events)
    && forall p | p in t.results :: t.results[p] == Pass
  }

  lemma BreachMeans(c: Contract, t: Trajectory)
    ensures Breached(c, t) <==>
            || (exists i | 0 <= i < |t.events| :: t.events[i] in c.forbidden) || t.steps > c.maxSteps
            || exists i | 0 <= i < |c.order| :: Violates(c.order[i], t.events)
  {
  }

  /** The four verdicts, said without the order of the checks. */
  lemma VerdictMeans(c: Contract, t: Trajectory)
    ensures var v := Evaluate(c, t).verdict;
            && (v == BLOCKED <==> !Comparable(c, t))
            && (v == PASS <==> Comparable(c, t) && !Breached(c, t) && Met(c, t) && t.terminal)
            && (v == PARTIAL <==> Comparable(c, t) && !Breached(c, t) && Fail !in t.results.Values && !t.terminal)
  {
    hide ValidContract, ValidTrajectory, Violates, Breached;
    BreachMeans(c, t);
    FailedMeans(t);
    if Comparable(c, t) {
      NoOtherState(c, t);
    }
    assert Missing(c.deliverables, t.deliverables) == {} <==> forall d | d in c.deliverables :: d in t.deliverables by {
      NothingMissing(c.deliverables, t.deliverables);
    }
    assert Missing(c.required, t.events) == {} <==> forall e | e in c.required :: e in t.events by {
      NothingMissing(c.required, t.events);
    }
  }

  ghost predicate Forbids(c: Contract, t: Trajectory) {
    exists e :: e in t.events && e in c.forbidden
  }

  /** Each reason with its exact cause, and each list with its exact members. */
  lemma ReportMeans(c: Contract, t: Trajectory)
    ensures var r := Evaluate(c, t);
            var passed := !Breached(c, t) && Fail !in t.results.Values;
            var pending := {TerminalIncomplete, ObligationsPending};
            && (r.reason == InvalidContract <==> !ValidContract(c))
            && (r.reason == InvalidTrajectory <==> ValidContract(c) && !ValidTrajectory(t, c))
            && (r.reason == IdentityMismatch <==> ValidContract(c) && ValidTrajectory(t, c) && !Comparable(c, t))
            && (r.reason == ForbiddenEvent <==> Comparable(c, t) && Forbids(c, t))
            && (r.reason == StepBudgetExceeded <==> Comparable(c, t) && !Forbids(c, t) && t.steps > c.maxSteps)
            && (r.reason == OrderViolation <==>
                  Comparable(c, t) && !Forbids(c, t) && t.steps <= c.maxSteps && Breached(c, t))
            && (r.reason == PredicateFailed <==> Comparable(c, t) && !Breached(c, t) && Fail in t.results.Values)
            && (r.reason == TerminalIncomplete <==> Comparable(c, t) && passed && !Met(c, t) && t.terminal)
            && (r.reason == ObligationsPending <==> Comparable(c, t) && passed && !Met(c, t) && !t.terminal)
            && (r.reason == SatisfiedNotTerminal <==> Comparable(c, t) && !Breached(c, t) && Met(c, t) && !t.terminal)
            && (r.reason == ContractSatisfied <==> Comparable(c, t) && !Breached(c, t) && Met(c, t) && t.terminal)
            && (forall p :: p in r.failed <==>
                            r.reason == PredicateFailed && p in t.results && t.results[p] == Fail)
            && (forall p :: p in r.unknown <==> r.reason in pending && p in t.results && t.results[p] == Unknown)
            && (forall d :: d in r.missingDeliverables <==>
                            r.reason in pending && d in c.deliverables && d !in t.deliverables)
            && (forall e :: e in r.missingEvents <==> r.reason in pending && e in c.required && e !in t.events)
  {
    hide ValidContract, ValidTrajectory, Violates, Breached;
    BreachMeans(c, t);
    ForbidsIsBreach(c, t);
    FailedMeans(t);
    if ValidContract(c) && ValidTrajectory(t, c) {
      NoOtherState(c, t);
    }
    NothingMissing(c.deliverables, t.deliverables);
    NothingMissing(c.required, t.events);
  }

  lemma ForbidsIsBreach(c: Contract, t: Trajectory)
    ensures Forbids(c, t) <==> exists i | 0 <= i < |t.events| :: t.events[i] in c.forbidden
    ensures Forbids(c, t) || t.steps > c.maxSteps ==> Breached(c, t)
  {
  }

  lemma FailedMeans(t: Trajectory)
    ensures WithState(t, Fail) == {} <==> Fail !in t.results.Values
  {
    if WithState(t, Fail) == {} {
      forall p | p in t.results ensures t.results[p] != Fail {
        assert p !in WithState(t, Fail);
      }
    } else {
      var p :| p in WithState(t, Fail);
      assert t.results[p] in t.results.Values;
    }
  }

  lemma NoOtherState(c: Contract, t: Trajectory)
    requires ValidTrajectory(t, c)
    ensures WithState(t, Fail) == {} && WithState(t, Unknown) == {} <==>
            forall p | p in t.results :: t.results[p] == Pass
  {
    forall p | p in t.results ensures t.results[p] != OtherState {
      assert t.results[p] in t.results.Values;
    }
    if WithState(t, Fail) == {} && WithState(t, Unknown) == {} {
      forall p | p in t.results ensures t.results[p] == Pass {
        assert p !in WithState(t, Fail) && p !in WithState(t, Unknown);
      }
    }
  }

  lemma NothingMissing(required: seq<string>, observed: seq<string>)
    ensures Missing(required, observed) == {} <==> forall x | x in required :: x in observed
  {
    if Missing(required, observed) == {} {
      forall x | x in required ensures x in observed {
        assert x !in Missing(required, observed);
      }
    }
  }

  // ----- when a contract can be passed -----

  /** Walking from path[0] to its last element along required_order. */
  ghost predicate Follows(order: seq<Order>, path: seq<string>) {
    forall i | 0 <= i < |path| - 1 :: Edge(order, path, i)
  }

  ghost predicate Edge(order: seq<Order>, path: seq<string>, i: nat)
    requires i < |path| - 1
  {
    Order(path[i], path[i + 1]) in order
  }

  ghost predicate Cycle(order: seq<Order>, path: seq<string>) {
    |path| >= 2 && path[0] == path[|path| - 1] && Follows(order, path)
  }

  ghost predicate Acyclic(order: seq<Order>) {
    !exists path :: Cycle(order, path)
  }

  ghost predicate Compatible(c: Contract) {
    (forall e | e in c.required :: e !in c.forbidden) && Acyclic(c.order)
  }

  /** events.index strictly increases along every path, so no path closes. */
  lemma {:induction false} IndexGrows(order: seq<Order>, events: seq<string>, path: seq<string>)
    requires |path| >= 2 && Follows(order, path)
    requires forall i | 0 <= i < |order| :: order[i].before in events && order[i].after in events
    requires forall i | 0 <= i < |order| :: !Violates(order[i], events)
    ensures path[0] in events && path[|path| - 1] in events
    ensures Index(events, path[0]) < Index(events, path[|path| - 1])
  {
    var n := |path|;
    var last := Order(path[n - 2], path[n - 1]);
    assert Edge(order, path, n - 2);
    var i :| 0 <= i < |order| && order[i] == last;
    assert !Violates(order[i], events);
    if n > 2 {
      var shorter := path[..n - 1];
      forall j | 0 <= j < n - 2 ensures Edge(order, shorter, j) {
        assert Edge(order, path, j);
      }
      IndexGrows(order, events, shorter);
    }
  }

  lemma PassMeansCompatible(c: Contract, t: Trajectory)
    requires Evaluate(c, t).verdict == PASS
    ensures ValidContract(c) && Compatible(c)
  {
    forall e | e in c.required ensures e in t.events {
      assert e in t.events || e in Missing(c.required, t.events);
    }
    forall e | e in c.required ensures e !in c.forbidden {
      var i :| 0 <= i < |t.events| && t.events[i] == e;
    }
    forall path | Cycle(c.order, path) ensures false {
      forall i | 0 <= i < |c.order| ensures c.order[i].before in t.events && c.order[i].after in t.events {
        assert ValidPair(c.order[i], c.required);
      }
      IndexGrows(c.order, t.events, path);
    }
  }

  // ----- building a passing trajectory -----

  ghost predicate Source(order: seq<Order>, nodes: set<string>, x: string) {
    x in nodes && forall y | y in nodes :: Order(y, x) !in order
  }

  lemma Predecessor(order: seq<Order>, nodes: set<string>, x: string) returns (y: string)
    requires x in nodes && !Source(order, nodes, x)
    ensures y in nodes && Order(y, x) in order
  {
    y :| y in nodes && Order(y, x) in order;
  }

  lemma WalkGrows(order: seq<Order>, path: seq<string>, x: string)
    requires |path| > 0 && Follows(order, path) && Order(path[|path| - 1], x) in order
    ensures Follows(order, path + [x])
  {
    var longer := path + [x];
    forall i | 0 <= i < |longer| - 1 ensures Edge(order, longer, i) {
      assert i < |path| - 1 ==> Edge(order, path, i);
    }
  }

  /** Without a source among nodes, walks of any length end at each of them. */
  lemma {:induction false} BackwardWalk(order: seq<Order>, nodes: set<string>, last: string, n: nat)
      returns (path: seq<string>)
    requires last in nodes
    requires forall x :: !Source(order, nodes, x)
    ensures |path| == n + 1 && Follows(order, path) && path[n] == last
    ensures forall i | 0 <= i < |path| :: path[i] in nodes
    decreases n
  {
    if n == 0 {
      path := [last];
    } else {
      var y := Predecessor(order, nodes, last);
      var shorter := BackwardWalk(order, nodes, y, n - 1);
      WalkGrows(order, shorter, last);
      path := shorter + [last];
    }
  }

  lemma RepeatIsCycle(order: seq<Order>, path: seq<string>, i: nat, j: nat)
    requires Follows(order, path) && i < j < |path| && path[i] == path[j]
    ensures Cycle(order, path[i..j + 1])
  {
    var loop := path[i..j + 1];
    forall k | 0 <= k < |loop| - 1 ensures Edge(order, loop, k) {
      assert Edge(order, path, i + k);
    }
  }

  /** A non-empty set of events under an acyclic order has a first one. */
  lemma SourceExists(order: seq<Order>, nodes: set<string>)
    requires Acyclic(order) && nodes != {}
    ensures exists x :: Source(order, nodes, x)
  {
    if !exists x :: Source(order, nodes, x) {
      var start :| start in nodes;
      var path := BackwardWalk(order, nodes, start, |nodes|);
      if Distinct(path) {
        DistinctFits(path, nodes);
      }
      var i, j :| 0 <= i < j < |path| && path[i] == path[j];
      RepeatIsCycle(order, path, i, j);
      assert false;
    }
  }

  ghost predicate Topological(order: seq<Order>, nodes: set<string>, events: seq<string>) {
    && Distinct(events)
    && (forall x :: x in events <==> x in nodes)
    && forall p | p in order && p.before in nodes && p.after in nodes :: !Violates(p, events)
  }

  /** Kahn's construction: a first event, then an order of the rest. */
  lemma {:induction false} TopologicalOrder(order: seq<Order>, nodes: set<string>) returns (events: seq<string>)
    requires Acyclic(order)
    ensures Topological(order, nodes, events)
    decreases |nodes|
  {
    if nodes == {} {
      events := [];
    } else {
      SourceExists(order, nodes);
      var first :| Source(order, nodes, first);
      var rest := TopologicalOrder(order, nodes - {first});
      events := [first] + rest;
      forall p | p in order && p.before in nodes && p.after in nodes ensures !Violates(p, events) {
        assert events[1..] == rest;
        if p.before != first {
          assert p.after != first;
          assert !Violates(p, rest);
        } else if p.after == first {
          SelfLoop(order, first);
        }
      }
    }
  }

  lemma SelfLoop(order: seq<Order>, x: string)
    requires Acyclic(order)
    ensures Order(x, x) !in order
  {
    assert Edge(order, [x, x], 0) ==> Cycle(order, [x, x]);
  }

  lemma CompatibleCanPass(c: Contract) returns (t: Trajectory)
    requires ValidContract(c) && Compatible(c)
    ensures Evaluate(c, t).verdict == PASS
  {
    var nodes := set e | e in c.required;
    var events := TopologicalOrder(c.order, nodes);
    var results := map p | p in c.predicates :: Pass;
    t := Trajectory(c.scope, c.workflow, c.contract, c.verifier, c.deliverables, events, results, true, 0);
    forall i | 0 <= i < |events| ensures events[i] in c.required && NonBlank(events[i]) {
      assert events[i] in nodes;
    }
    forall i | 0 <= i < |c.order| ensures !Violates(c.order[i], events) {
      assert ValidPair(c.order[i], c.required);
    }
    assert ValidTrajectory(t, c);
    assert WithState(t, Fail) == {} && WithState(t, Unknown) == {};
    assert Missing(c.deliverables, t.deliverables) == {} && Missing(c.required, t.events) == {};
  }

  /** A valid contract can be passed exactly when it forbids nothing it requires and its order has no cycle. */
  lemma PassableIffCompatible(c: Contract)
    requires ValidContract(c)
    ensures (exists t :: Evaluate(c, t).verdict == PASS) <==> Compatible(c)
  {
    if t :| Evaluate(c, t).verdict == PASS {
      PassMeansCompatible(c, t);
    }
    if Compatible(c) {
      var t := CompatibleCanPass(c);
    }
  }

  // ----- failures that cannot be repaired -----

  ghost predicate Irreparable(r: Reason) {
    r in {ForbiddenEvent, StepBudgetExceeded, OrderViolation}
  }

  /** More events and more steps, whatever else the later report says. */
  ghost predicate Extends(t: Trajectory, u: Trajectory) {
    && t.events <= u.events && t.steps <= u.steps
    && u.scope == t.scope && u.workflow == t.workflow && u.contract == t.contract && u.verifier == t.verifier
  }

  lemma {:induction false} IndexOfPrefix(events: seq<string>, more: seq<string>, e: string)
    requires e in events
    ensures e in events + more && Index(events + more, e) == Index(events, e)
  {
    assert (events + more)[0] == events[0];
    if events[0] != e {
      assert (events + more)[1..] == events[1..] + more;
      IndexOfPrefix(events[1..], more, e);
    }
  }

  /** A forbidden event, an order violation or a spent step budget stays a FAIL for good. */
  lemma FailureIsFinal(c: Contract, t: Trajectory, u: Trajectory)
    requires Irreparable(Evaluate(c, t).reason) && Extends(t, u) && ValidTrajectory(u, c)
    ensures Evaluate(c, u).verdict == FAIL && Irreparable(Evaluate(c, u).reason)
  {
    hide ValidContract, ValidTrajectory, Index;
    var more := u.events[|t.events|..];
    assert u.events == t.events + more;
    if Evaluate(c, t).reason == ForbiddenEvent {
      var i :| 0 <= i < |t.events| && t.events[i] in c.forbidden;
      assert u.events[i] in c.forbidden;
    } else if Evaluate(c, t).reason == OrderViolation {
      var i :| 0 <= i < |c.order| && Violates(c.order[i], t.events);
      IndexOfPrefix(t.events, more, c.order[i].before);
      IndexOfPrefix(t.events, more, c.order[i].after);
      assert Violates(c.order[i], u.events);
    }
  }
}
