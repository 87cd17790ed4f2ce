/** Folding stored events into lineages: experimental/daily_debrief_projection.py. */
module DebriefProjection {
  import opened Wrappers
  import opened Collections
  import opened Text
  import opened DebriefAdapter
  import opened DebriefStore

  datatype Lineage = Lineage(
    lineage: string, firstSeen: string, lastSeen: string, eventIds: seq<EventId>, sourceIds: seq<string>,
    dispositions: seq<string>, consequences: seq<string>, remaining: seq<string>, resolved: seq<string>,
    simulationPasses: nat, liveVerified: nat)

  datatype Projection = Projection(last: nat, processed: seq<EventId>, lineages: map<string, Lineage>)

  datatype ProjectionError = InvalidStoredEvent | SequenceMismatch | DuplicateEvent | NotIterable

  const EMPTY := Projection(0, [], map[])

  // ----- one event -----

  function AppendUnique<T(==)>(values: seq<T>, value: T): seq<T> {
    if value in values then values else values + [value]
  }

  /** list.remove: the first occurrence goes. */
  function Remove(values: seq<string>, value: string): seq<string> {
    if values == [] then []
    else if values[0] == value then values[1..]
    else [values[0]] + Remove(values[1..], value)
  }

  datatype Tests = Tests(remaining: seq<string>, resolved: seq<string>)

  function Listed(t: Tests, id: string): Tests {
    Tests(AppendUnique(t.remaining, id), if id in t.resolved then Remove(t.resolved, id) else t.resolved)
  }

  function Settle(t: Tests, id: string): Tests {
    Tests(if id in t.remaining then Remove(t.remaining, id) else t.remaining, AppendUnique(t.resolved, id))
  }

  function ListAll(t: Tests, ids: seq<string>): Tests {
    if ids == [] then t else Listed(ListAll(t, ids[..|ids| - 1]), ids[|ids| - 1])
  }

  function SettleAll(t: Tests, ids: seq<string>): Tests {
    if ids == [] then t else Settle(SettleAll(t, ids[..|ids| - 1]), ids[|ids| - 1])
  }

  datatype Passing = Live | Simulation | NoPass

  function PassingOf(validation: string): Passing {
    var upper := Upper(validation);
    if Contains(upper, "LIVE") && Contains(upper, "PASS") then Live
    else if Contains(upper, "PASS") then Simulation
    else NoPass
  }

  function SourceText(b: Body): string {
    b.date + "::" + b.provider + "::" + b.sourceId + "::" + b.revision
  }

  function NewLineage(b: Body): Lineage {
    Lineage(b.lineage, b.date, b.date, [], [], [], [], [], [], 0, 0)
  }

  function Apply(l: Lineage, e: Event): Lineage {
    var b := e.body;
    var tests := SettleAll(ListAll(Tests(l.remaining, l.resolved), FieldIds(b.remaining)), FieldIds(b.resolved));
    Lineage(l.lineage, l.firstSeen, MaxText(l.lastSeen, b.date), AppendUnique(l.eventIds, e.id),
            AppendUnique(l.sourceIds, SourceText(b)), AppendUnique(l.dispositions, b.disposition),
            AppendUnique(l.consequences, b.consequence), tests.remaining, tests.resolved,
            l.simulationPasses + (if PassingOf(b.validation) == Simulation then 1 else 0),
            l.liveVerified + (if PassingOf(b.validation) == Live then 1 else 0))
  }

  predicate HasNull(b: Body) {
    b.remaining.NullList? || b.resolved.NullList?
  }

  /** The lineage when iterating over a null list raises: the fields before the failing loop are updated already. */
  function Touched(l: Lineage, e: Event): Lineage {
    var b := e.body;
    var tests := if b.remaining.NullList? then Tests(l.remaining, l.resolved)
                 else ListAll(Tests(l.remaining, l.resolved), FieldIds(b.remaining));
    l.(lastSeen := MaxText(l.lastSeen, b.date), eventIds := AppendUnique(l.eventIds, e.id),
       sourceIds := AppendUnique(l.sourceIds, SourceText(b)),
       dispositions := AppendUnique(l.dispositions, b.disposition),
       consequences := AppendUnique(l.consequences, b.consequence), remaining := tests.remaining,
       resolved := tests.resolved)
  }

  /** A raising event leaves its lineage as the same event would that passes nothing and lists nothing from there on. */
  lemma TouchedMeans(l: Lineage, e: Event)
    requires HasNull(e.body)
    ensures var silent := e.body.(resolved := Ids([]), validation := "");
            var listed := if e.body.remaining.NullList? then silent.(remaining := Ids([])) else silent;
            Touched(l, e) == Apply(l, Event(e.id, listed))
  {
    NothingPasses();
  }

  lemma NothingPasses()
    ensures PassingOf("") == NoPass
  {
    assert Upper("") == "";
  }

  function CurrentLineage(p: Projection, b: Body): Lineage {
    if b.lineage in p.lineages then p.lineages[b.lineage] else NewLineage(b)
  }

  function Advance(p: Projection, sequence: nat, e: Event): Projection {
    Projection(sequence, p.processed + [e.id], p.lineages[e.body.lineage := Apply(CurrentLineage(p, e.body), e)])
  }

  function Project(p: Projection, stored: StoredEvent): Result<Projection, ProjectionError> {
    var e := stored.event;
    if !ValidEvent(e) then Err(InvalidStoredEvent)
    else if stored.sequence != p.last + 1 then Err(SequenceMismatch)
    else if e.id in p.processed then Err(DuplicateEvent)
    else if HasNull(e.body) then Err(NotIterable)
    else Ok(Advance(p, stored.sequence, e))
  }

  /** rebuild_projection, or recovery from the state p: apply the stored events in order. */
  function Fold(p: Projection, events: seq<StoredEvent>): Result<Projection, ProjectionError>
    decreases |events|
  {
    if events == [] then Ok(p)
    else
      match Project(p, events[0])
      case Err(e) => Err(e)
      case Ok(q) => Fold(q, events[1..])
  }

  function Rebuild(events: seq<Event>): Result<Projection, ProjectionError> {
    Fold(EMPTY, StoredAfter(events, 0))
  }

  /** The events continue the state: valid, numbered on from it, without null lists, with ids new to it and distinct. */
  ghost predicate Continue(p: Projection, events: seq<StoredEvent>) {
    && (forall i | 0 <= i < |events| ::
          && ValidEvent(events[i].event) && !HasNull(events[i].event.body)
          && events[i].sequence == p.last + i + 1 && events[i].event.id !in p.processed)
    && forall i, j | 0 <= i < j < |events| :: events[i].event.id != events[j].event.id
  }

  lemma ContinueFirst(p: Projection, events: seq<StoredEvent>)
    requires events != []
    ensures Continue(p, events) <==> Project(p, events[0]).Ok? && Continue(Project(p, events[0]).value, events[1..])
  {
    hide ValidEvent;
    var rest := events[1..];
    assert forall i | 0 <= i < |rest| :: rest[i] == events[i + 1];
    if Project(p, events[0]).Ok? && Continue(Project(p, events[0]).value, rest) {
      forall i | 0 <= i < |events|
        ensures ValidEvent(events[i].event) && !HasNull(events[i].event.body)
        ensures events[i].sequence == p.last + i + 1 && events[i].event.id !in p.processed
      {
        assert i > 0 ==> events[i] == rest[i - 1];
      }
      forall i, j | 0 <= i < j < |events| ensures events[i].event.id != events[j].event.id {
        assert events[j] == rest[j - 1];
        assert i > 0 ==> events[i] == rest[i - 1];
      }
    }
  }

  /** A fold succeeds on exactly the events that continue its state, and counts each of them. */
  lemma {:induction false} FoldSucceeds(p: Projection, events: seq<StoredEvent>)
    ensures Fold(p, events).Ok? <==> Continue(p, events)
    ensures Fold(p, events).Ok? ==>
              var q := Fold(p, events).value;
              && q.last == p.last + |events| && |q.processed| == |p.processed| + |events|
              && q.processed[..|p.processed|] == p.processed
              && forall i | 0 <= i < |events| :: q.processed[|p.processed| + i] == events[i].event.id
    decreases |events|
  {
    hide ValidEvent, Continue, Apply;
    if events == [] {
      assert Continue(p, []) by {
        NothingContinues(p);
      }
    } else {
      ContinueFirst(p, events);
      if Project(p, events[0]).Ok? {
        var q := Project(p, events[0]).value;
        FoldSucceeds(q, events[1..]);
        if Fold(q, events[1..]).Ok? {
          var s := Fold(q, events[1..]).value;
          assert s.processed[..|p.processed|] == s.processed[..|q.processed|][..|p.processed|];
          forall i | 0 <= i < |events| ensures s.processed[|p.processed| + i] == events[i].event.id {
            if i == 0 {
              assert s.processed[|p.processed|] == s.processed[..|q.processed|][|p.processed|];
            } else {
              assert s.processed[|q.processed| + (i - 1)] == events[1..][i - 1].event.id;
            }
          }
        }
      }
    }
  }

  lemma NothingContinues(p: Projection)
    ensures Continue(p, [])
  {
  }

  // ----- the mutable state -----

  class ProjectionState {
    var last: nat
    var processed: seq<EventId>
    var lineages: map<string, Lineage>

    constructor (p: Projection)
      ensures View() == p
    {
      last := p.last;
      processed := p.processed;
      lineages := p.lineages;
    }

    ghost function View(): Projection
      reads this
    {
      Projection(last, processed, lineages)
    }

    /** _project_event_payload: the two loops move test ids between the lists of one lineage; a null list raises. */
    method ProjectPayload(e: Event) returns (raised: bool)
      modifies this`lineages
      ensures raised <==> HasNull(e.body)
      ensures var current := CurrentLineage(old(View()), e.body);
              lineages == old(lineages)[e.body.lineage := if raised then Touched(current, e) else Apply(current, e)]
    {
      var b := e.body;
      var lineage := NewLineage(b);
      if b.lineage in lineages {
        lineage := lineages[b.lineage];
      }
      ghost var before := Tests(lineage.remaining, lineage.resolved);
      lineage := lineage.(
        lastSeen := MaxText(lineage.lastSeen, b.date), eventIds := AppendUnique(lineage.eventIds, e.id),
        sourceIds := AppendUnique(lineage.sourceIds, SourceText(b)),
        dispositions := AppendUnique(lineage.dispositions, b.disposition),
        consequences := AppendUnique(lineage.consequences, b.consequence));
      if b.remaining.NullList? {
        lineages := lineages[b.lineage := lineage];
        return true;
      }
      var remaining, resolved := lineage.remaining, lineage.resolved;
      var listed := FieldIds(b.remaining);
      for i := 0 to |listed|
        invariant Tests(remaining, resolved) == ListAll(before, listed[..i])
      {
        assert listed[..i + 1][..i] == listed[..i];
        var testId := listed[i];
        if testId in resolved {
          resolved := Remove(resolved, testId);
        }
        remaining := AppendUnique(remaining, testId);
      }
      assert listed[..|listed|] == listed;
      if b.resolved.NullList? {
        lineages := lineages[b.lineage := lineage.(remaining := remaining, resolved := resolved)];
        return true;
      }
      ghost var middle := Tests(remaining, resolved);
      var settled := FieldIds(b.resolved);
      for i := 0 to |settled|
        invariant Tests(remaining, resolved) == SettleAll(middle, settled[..i])
      {
        assert settled[..i + 1][..i] == settled[..i];
        var testId := settled[i];
        if testId in remaining {
          remaining := Remove(remaining, testId);
        }
        resolved := AppendUnique(resolved, testId);
      }
      assert settled[..|settled|] == settled;
      lineage := lineage.(remaining := remaining, resolved := resolved);
      var passing := PassingOf(b.validation);
      if passing == Live {
        lineage := lineage.(liveVerified := lineage.liveVerified + 1);
      } else if passing == Simulation {
        lineage := lineage.(simulationPasses := lineage.simulationPasses + 1);
      }
      lineages := lineages[b.lineage := lineage];
      return false;
    }

    method ProjectEvent(stored: StoredEvent) returns (error: Option<ProjectionError>)
      modifies this
      ensures error == match Project(old(View()), stored) case Ok(_) => None case Err(e) => Some(e)
      ensures var numbered := ValidEvent(stored.event) && stored.sequence == old(last) + 1;
              && (error == Some(InvalidStoredEvent) <==> !ValidEvent(stored.event))
              && (error == Some(SequenceMismatch) <==> ValidEvent(stored.event) && stored.sequence != old(last) + 1)
              && (error == Some(DuplicateEvent) <==> numbered && stored.event.id in old(processed))
              && (error == Some(NotIterable) <==>
                    numbered && stored.event.id !in old(processed) && HasNull(stored.event.body))
      ensures match Project(old(View()), stored)
              case Ok(p) => View() == p
              case Err(NotIterable) =>
                var b := stored.event.body;
                View() == old(View()).(lineages := old(lineages)[
                  b.lineage := Touched(CurrentLineage(old(View()), b), stored.event)])
              case Err(_) => View() == old(View())
    {
      if !ValidEvent(stored.event) {
        return Some(InvalidStoredEvent);
      }
      if stored.sequence != last + 1 {
        return Some(SequenceMismatch);
      }
      if stored.event.id in processed {
        return Some(DuplicateEvent);
      }
      var raised := ProjectPayload(stored.event);
      if raised {
        return Some(NotIterable);
      }
      processed := processed + [stored.event.id];
      last := stored.sequence;
      return None;
    }

    method ProjectAll(events: seq<StoredEvent>) returns (error: Option<ProjectionError>)
      modifies this
      ensures match Fold(old(View()), events)
              case Ok(p) => error == None && View() == p
              case Err(e) => error == Some(e)
    {
      var i := 0;
      while i < |events|
        invariant i <= |events|
        invariant Fold(old(View()), events) == Fold(View(), events[i..])
      {
        ghost var rest := events[i..];
        error := ProjectEvent(events[i]);
        if error.Some? {
          return;
        }
        assert rest[1..] == events[i + 1..];
        i := i + 1;
      }
      return None;
    }
  }

  // ----- what the folded state means -----

  /** The latest event of the lineage that mentions the test id says whether it remains (true) or is resolved. */
  ghost function Latest(events: seq<Event>, lineage: string, id: string): Option<bool> {
    if events == [] then None
    else
      var b := events[|events| - 1].body;
      if b.lineage == lineage && id in FieldIds(b.resolved) then Some(false)
      else if b.lineage == lineage && id in FieldIds(b.remaining) then Some(true)
      else Latest(events[..|events| - 1], lineage, id)
  }

  ghost predicate Mentions(b: Body, lineage: string, id: string) {
    b.lineage == lineage && (id in FieldIds(b.remaining) || id in FieldIds(b.resolved))
  }

  /** Event k mentions the id as r says and no later event of the lineage mentions it. */
  ghost predicate Decides(events: seq<Event>, lineage: string, id: string, r: bool, k: int) {
    && 0 <= k < |events| && events[k].body.lineage == lineage
    && id in FieldIds(if r then events[k].body.remaining else events[k].body.resolved)
    && forall j | k < j < |events| :: !Mentions(events[j].body, lineage, id)
  }

  ghost predicate AllDisjoint(events: seq<Event>) {
    forall i | 0 <= i < |events| :: DisjointIds(FieldIds(events[i].body.remaining), FieldIds(events[i].body.resolved))
  }

  /** Last writer wins: Latest is r exactly when some event decides r. */
  lemma {:induction false} LatestMeans(events: seq<Event>, lineage: string, id: string, r: bool)
    requires AllDisjoint(events)
    ensures Latest(events, lineage, id) == Some(r) <==> exists k :: Decides(events, lineage, id, r, k)
  {
    if events != [] {
      var n := |events| - 1;
      var before := events[..n];
      LatestMeans(before, lineage, id, r);
      assert DisjointIds(FieldIds(events[n].body.remaining), FieldIds(events[n].body.resolved));
      if Mentions(events[n].body, lineage, id) {
        assert forall k :: Decides(events, lineage, id, r, k) ==> k == n;
        assert Latest(events, lineage, id) == Some(r) ==> Decides(events, lineage, id, r, n);
      } else {
        forall k ensures Decides(events, lineage, id, r, k) <==> Decides(before, lineage, id, r, k) {
          if Decides(before, lineage, id, r, k) {
            assert forall j | k < j < n :: !Mentions(before[j].body, lineage, id);
          }
        }
      }
    }
  }

  ghost function IdsIn(events: seq<Event>, lineage: string): seq<EventId> {
    if events == [] then []
    else
      var e := events[|events| - 1];
      IdsIn(events[..|events| - 1], lineage) + if e.body.lineage == lineage then [e.id] else []
  }

  ghost predicate SaysPass(b: Body) {
    Contains(Upper(b.validation), "PASS")
  }

  ghost predicate SaysLive(b: Body) {
    Contains(Upper(b.validation), "LIVE")
  }

  /** The places of the lineage's events that say PASS, and LIVE besides or not. */
  ghost function Passes(events: seq<Event>, lineage: string, live: bool): set<int> {
    set k | 0 <= k < |events| && events[k].body.lineage == lineage && SaysPass(events[k].body)
            && (SaysLive(events[k].body) <==> live)
  }

  ghost predicate IsFirstDate(events: seq<Event>, lineage: string, date: string) {
    exists k | 0 <= k < |events| ::
      && events[k].body.lineage == lineage && events[k].body.date == date
      && forall j | 0 <= j < k :: events[j].body.lineage != lineage
  }

  ghost predicate IsMaxDate(events: seq<Event>, lineage: string, date: string) {
    && (exists k | 0 <= k < |events| :: events[k].body.lineage == lineage && events[k].body.date == date)
    && forall k | 0 <= k < |events| && events[k].body.lineage == lineage :: Le(events[k].body.date, date)
  }

  datatype Facet = SourceFacet | DispositionFacet | ConsequenceFacet

  /** What an event says, by facet. */
  ghost function Said(b: Body, facet: Facet): string {
    match facet
    case SourceFacet => b.date + "::" + b.provider + "::" + b.sourceId + "::" + b.revision
    case DispositionFacet => b.disposition
    case ConsequenceFacet => b.consequence
  }

  ghost predicate Shows(e: Event, lineage: string, facet: Facet, value: string) {
    e.body.lineage == lineage && Said(e.body, facet) == value
  }

  ghost predicate Shown(events: seq<Event>, lineage: string, facet: Facet, value: string) {
    exists k | 0 <= k < |events| :: Shows(events[k], lineage, facet, value)
  }

  /** The values the lineage's events show, each once, in the order of their first appearance. */
  ghost predicate Lists(values: seq<string>, events: seq<Event>, lineage: string, facet: Facet) {
    && Distinct(values)
    && (forall v :: v in values <==> Shown(events, lineage, facet, v))
    && forall i, j, k | 0 <= i < j < |values| && 0 <= k < |events| && Shows(events[k], lineage, facet, values[j]) ::
         Shown(events[..k], lineage, facet, values[i])
  }

  ghost predicate TestsMatch(l: Lineage, events: seq<Event>) {
    && Distinct(l.remaining) && Distinct(l.resolved)
    && (forall id :: id in l.remaining <==> Latest(events, l.lineage, id) == Some(true))
    && (forall id :: id in l.resolved <==> Latest(events, l.lineage, id) == Some(false))
  }

  ghost predicate DatesMatch(l: Lineage, events: seq<Event>) {
    IsFirstDate(events, l.lineage, l.firstSeen) && IsMaxDate(events, l.lineage, l.lastSeen)
  }

  ghost predicate TextsMatch(l: Lineage, events: seq<Event>) {
    && Lists(l.sourceIds, events, l.lineage, SourceFacet)
    && Lists(l.dispositions, events, l.lineage, DispositionFacet)
    && Lists(l.consequences, events, l.lineage, ConsequenceFacet)
  }

  ghost predicate CountsMatch(l: Lineage, events: seq<Event>) {
    && l.eventIds == IdsIn(events, l.lineage)
    && l.simulationPasses == |Passes(events, l.lineage, false)|
    && l.liveVerified == |Passes(events, l.lineage, true)|
  }

  /** What one lineage of the state records of the events. */
  ghost predicate LineageMatches(l: Lineage, events: seq<Event>) {
    TestsMatch(l, events) && DatesMatch(l, events) && TextsMatch(l, events) && CountsMatch(l, events)
  }

  ghost predicate Occurs(events: seq<Event>, lineage: string) {
    exists k | 0 <= k < |events| :: events[k].body.lineage == lineage
  }

  ghost predicate LineagesMatch(lineages: map<string, Lineage>, events: seq<Event>) {
    forall lineage | lineage in lineages ::
      lineages[lineage].lineage == lineage && LineageMatches(lineages[lineage], events)
  }

  ghost predicate ProcessedIds(ids: seq<EventId>, events: seq<Event>) {
    |ids| == |events| && forall i | 0 <= i < |events| :: ids[i] == events[i].id
  }

  /** The state is the projection of exactly these events. */
  ghost predicate Reflects(p: Projection, events: seq<Event>) {
    && p.last == |events|
    && ProcessedIds(p.processed, events)
    && (forall lineage :: lineage in p.lineages <==> Occurs(events, lineage))
    && LineagesMatch(p.lineages, events)
  }

  // ----- each event keeps the meaning -----

  lemma {:induction false} RemoveFacts(values: seq<string>, value: string)
    requires Distinct(values)
    ensures Distinct(Remove(values, value))
    ensures forall x :: x in Remove(values, value) <==> x in values && x != value
  {
    if values != [] {
      assert values == [values[0]] + values[1..];
      assert values[0] !in values[1..];
      if values[0] != value {
        RemoveFacts(values[1..], value);
        assert values[0] !in Remove(values[1..], value);
      }
    }
  }

  lemma {:induction false} ListAllFacts(t: Tests, ids: seq<string>)
    requires Distinct(t.remaining) && Distinct(t.resolved)
    ensures Distinct(ListAll(t, ids).remaining) && Distinct(ListAll(t, ids).resolved)
    ensures forall x :: x in ListAll(t, ids).remaining <==> x in t.remaining || x in ids
    ensures forall x :: x in ListAll(t, ids).resolved <==> x in t.resolved && x !in ids
  {
    if ids != [] {
      var n := |ids| - 1;
      ListAllFacts(t, ids[..n]);
      RemoveFacts(ListAll(t, ids[..n]).resolved, ids[n]);
      assert ids == ids[..n] + [ids[n]];
    }
  }

  lemma {:induction false} SettleAllFacts(t: Tests, ids: seq<string>)
    requires Distinct(t.remaining) && Distinct(t.resolved)
    ensures Distinct(SettleAll(t, ids).remaining) && Distinct(SettleAll(t, ids).resolved)
    ensures forall x :: x in SettleAll(t, ids).remaining <==> x in t.remaining && x !in ids
    ensures forall x :: x in SettleAll(t, ids).resolved <==> x in t.resolved || x in ids
  {
    if ids != [] {
      var n := |ids| - 1;
      SettleAllFacts(t, ids[..n]);
      RemoveFacts(SettleAll(t, ids[..n]).remaining, ids[n]);
      assert ids == ids[..n] + [ids[n]];
    }
  }

  /** part lists distinct elements of s, in the order in which they first occur there. */
  ghost predicate ComeFrom(s: seq<string>, part: seq<string>) {
    && (forall i | 0 <= i < |part| :: part[i] in s)
    && forall i, j | 0 <= i < j < |part| ::
         part[i] in s && part[j] in s && IndexIn(s, part[i]) < IndexIn(s, part[j])
  }

  lemma {:induction false} RemoveCuts(values: seq<string>, value: string) returns (k: nat)
    ensures k <= |values|
    ensures Remove(values, value) == if k < |values| then values[..k] + values[k + 1..] else values
  {
    if values == [] || values[0] == value {
      k := 0;
    } else {
      var i := RemoveCuts(values[1..], value);
      k := i + 1;
      assert values == [values[0]] + values[1..];
    }
  }

  lemma RemoveKeepsOrder(values: seq<string>, value: string, s: seq<string>)
    requires ComeFrom(s, values)
    ensures ComeFrom(s, Remove(values, value))
  {
    hide IndexIn, Remove;
    var k := RemoveCuts(values, value);
    if k < |values| {
      CutKeepsOrder(values, k, s);
    }
  }

  lemma CutKeepsOrder(values: seq<string>, k: nat, s: seq<string>)
    requires ComeFrom(s, values) && k < |values|
    ensures ComeFrom(s, values[..k] + values[k + 1..])
  {
    hide IndexIn;
    var cut := values[..k] + values[k + 1..];
    forall i | 0 <= i < |cut| ensures cut[i] == values[if i < k then i else i + 1] && cut[i] in s {
    }
    forall i, j | 0 <= i < j < |cut|
      ensures cut[i] in s && cut[j] in s && IndexIn(s, cut[i]) < IndexIn(s, cut[j])
    {
      var a, b := if i < k then i else i + 1, if j < k then j else j + 1;
      assert a < b < |values| && cut[i] == values[a] && cut[j] == values[b];
    }
  }

  lemma ComeFromLonger(s: seq<string>, x: string, part: seq<string>)
    requires ComeFrom(s, part)
    ensures ComeFrom(s + [x], part)
    ensures x !in s && x !in part ==> ComeFrom(s + [x], part + [x])
  {
    forall v | v in s ensures v in s + [x] && IndexIn(s + [x], v) == IndexIn(s, v) {
      IndexInLonger(s, s + [x], v);
    }
    if x !in s {
      IndexOf(s + [x], |s|);
    }
  }

  lemma ComeFromSelf(s: seq<string>)
    requires Distinct(s)
    ensures ComeFrom(s, s)
  {
    forall i | 0 <= i < |s| ensures IndexIn(s, s[i]) == i {
      IndexOf(s, i);
    }
  }

  lemma AddedComeLast(ids: seq<string>, id: string, earlier: seq<string>, values: seq<string>)
    requires earlier <= values && ComeFrom(ids, values[|earlier|..]) && forall x | x in ids :: x in values
    ensures earlier <= AppendUnique(values, id)
    ensures ComeFrom(ids + [id], AppendUnique(values, id)[|earlier|..])
  {
    ComeFromLonger(ids, id, values[|earlier|..]);
    if id !in values {
      assert forall i | 0 <= i < |values[|earlier|..]| :: values[|earlier|..][i] == values[|earlier| + i];
      assert (values + [id])[|earlier|..] == values[|earlier|..] + [id];
    }
  }

  /** Newly remaining ids come after the others, in the order listed; those still resolved keep their order. */
  lemma {:induction false} ListAllOrder(t: Tests, ids: seq<string>)
    requires Distinct(t.remaining) && Distinct(t.resolved)
    ensures t.remaining <= ListAll(t, ids).remaining
    ensures ComeFrom(ids, ListAll(t, ids).remaining[|t.remaining|..])
    ensures ComeFrom(t.resolved, ListAll(t, ids).resolved)
  {
    hide ComeFrom, Distinct, IndexIn;
    if ids == [] {
      ComeFromSelf(t.resolved);
      ComeFromSelf([]);
      assert t.remaining[|t.remaining|..] == [];
    } else {
      var n := |ids| - 1;
      var init, id := ids[..n], ids[n];
      var before := ListAll(t, init);
      ListAllOrder(t, init);
      ListAllFacts(t, init);
      RemoveKeepsOrder(before.resolved, id, t.resolved);
      assert ids == init + [id];
      AddedComeLast(init, id, t.remaining, before.remaining);
    }
  }

  /** The same for the ids newly resolved and those that still remain. */
  lemma {:induction false} SettleAllOrder(t: Tests, ids: seq<string>)
    requires Distinct(t.remaining) && Distinct(t.resolved)
    ensures t.resolved <= SettleAll(t, ids).resolved
    ensures ComeFrom(ids, SettleAll(t, ids).resolved[|t.resolved|..])
    ensures ComeFrom(t.remaining, SettleAll(t, ids).remaining)
  {
    hide ComeFrom, Distinct, IndexIn;
    if ids == [] {
      ComeFromSelf(t.remaining);
      ComeFromSelf([]);
      assert t.resolved[|t.resolved|..] == [];
    } else {
      var n := |ids| - 1;
      var init, id := ids[..n], ids[n];
      var before := SettleAll(t, init);
      SettleAllOrder(t, init);
      SettleAllFacts(t, init);
      RemoveKeepsOrder(before.remaining, id, t.remaining);
      assert ids == init + [id];
      AddedComeLast(init, id, t.resolved, before.resolved);
    }
  }

  /**
   * One event's effect on the order of the two lists. What still remains keeps its order, and newly remaining ids come
   * last, as the event lists them; and so for the resolved ones.
   */
  lemma ApplyKeepsOrder(l: Lineage, e: Event)
    requires Distinct(l.remaining) && Distinct(l.resolved)
    ensures exists added | ComeFrom(FieldIds(e.body.remaining), added) ::
              ComeFrom(l.remaining + added, Apply(l, e).remaining)
    ensures exists kept, added | ComeFrom(l.resolved, kept) && ComeFrom(FieldIds(e.body.resolved), added) ::
              Apply(l, e).resolved == kept + added
  {
    hide ListAll, SettleAll;
    var t := Tests(l.remaining, l.resolved);
    var listed := ListAll(t, FieldIds(e.body.remaining));
    ListAllFacts(t, FieldIds(e.body.remaining));
    ListAllOrder(t, FieldIds(e.body.remaining));
    SettleAllOrder(listed, FieldIds(e.body.resolved));
    var added := listed.remaining[|l.remaining|..];
    assert l.remaining + added == listed.remaining;
    var settled := SettleAll(listed, FieldIds(e.body.resolved));
    assert settled.resolved == listed.resolved + settled.resolved[|listed.resolved|..];
  }

  lemma LatestSnoc(events: seq<Event>, e: Event, lineage: string, id: string)
    ensures Latest(events + [e], lineage, id) ==
            if e.body.lineage == lineage && id in FieldIds(e.body.resolved) then Some(false)
            else if e.body.lineage == lineage && id in FieldIds(e.body.remaining) then Some(true)
            else Latest(events, lineage, id)
  {
  }

  lemma TestsStep(l: Lineage, events: seq<Event>, e: Event)
    requires TestsMatch(l, events) && l.lineage == e.body.lineage
    ensures TestsMatch(Apply(l, e), events + [e])
  {
    var t := Tests(l.remaining, l.resolved);
    ListAllFacts(t, FieldIds(e.body.remaining));
    SettleAllFacts(ListAll(t, FieldIds(e.body.remaining)), FieldIds(e.body.resolved));
    forall id
      ensures id in Apply(l, e).remaining <==> Latest(events + [e], l.lineage, id) == Some(true)
      ensures id in Apply(l, e).resolved <==> Latest(events + [e], l.lineage, id) == Some(false)
    {
      LatestSnoc(events, e, l.lineage, id);
    }
  }

  lemma TestsOther(l: Lineage, events: seq<Event>, e: Event)
    requires TestsMatch(l, events) && l.lineage != e.body.lineage
    ensures TestsMatch(l, events + [e])
  {
  }

  lemma PassesSnoc(events: seq<Event>, e: Event, lineage: string, live: bool)
    ensures Passes(events + [e], lineage, live) ==
            Passes(events, lineage, live)
            + if e.body.lineage == lineage && SaysPass(e.body) && (SaysLive(e.body) <==> live) then {|events|} else {}
    ensures |events| !in Passes(events, lineage, live)
  {
    hide SaysPass, SaysLive;
  }

  lemma PassingMeans(b: Body)
    ensures PassingOf(b.validation) == Live <==> SaysPass(b) && SaysLive(b)
    ensures PassingOf(b.validation) == Simulation <==> SaysPass(b) && !SaysLive(b)
  {
  }

  lemma CountsStep(l: Lineage, events: seq<Event>, e: Event)
    requires CountsMatch(l, events) && l.lineage == e.body.lineage && e.id !in l.eventIds
    ensures CountsMatch(Apply(l, e), events + [e])
  {
    hide SaysPass, SaysLive, PassingOf, Passes;
    PassesSnoc(events, e, l.lineage, true);
    PassesSnoc(events, e, l.lineage, false);
    PassingMeans(e.body);
  }

  lemma CountsOther(l: Lineage, events: seq<Event>, e: Event)
    requires CountsMatch(l, events) && l.lineage != e.body.lineage
    ensures CountsMatch(l, events + [e])
  {
    hide SaysPass, SaysLive, PassingOf, Passes;
    PassesSnoc(events, e, l.lineage, true);
    PassesSnoc(events, e, l.lineage, false);
  }

  lemma ShownSnoc(events: seq<Event>, e: Event, lineage: string, facet: Facet, value: string)
    ensures Shown(events + [e], lineage, facet, value) <==>
            Shown(events, lineage, facet, value) || Shows(e, lineage, facet, value)
  {
    hide Shows;
    var all := events + [e];
    assert all[|events|] == e;
    assert forall k | 0 <= k < |events| :: all[k] == events[k];
  }

  lemma ShownAt(events: seq<Event>, k: nat, lineage: string, facet: Facet, value: string)
    requires k < |events| && Shows(events[k], lineage, facet, value)
    ensures Shown(events, lineage, facet, value)
  {
  }

  lemma ListsStep(values: seq<string>, events: seq<Event>, e: Event, facet: Facet)
    requires Lists(values, events, e.body.lineage, facet)
    ensures Lists(AppendUnique(values, Said(e.body, facet)), events + [e], e.body.lineage, facet)
  {
    hide Said, Shown;
    var all, more := events + [e], AppendUnique(values, Said(e.body, facet));
    var lineage := e.body.lineage;
    forall v ensures v in more <==> Shown(all, lineage, facet, v) {
      ShownSnoc(events, e, lineage, facet, v);
    }
    forall i, j, k | 0 <= i < j < |more| && 0 <= k < |all| && Shows(all[k], lineage, facet, more[j])
      ensures Shown(all[..k], lineage, facet, more[i])
    {
      assert all[..k] == events[..k] && more[i] == values[i] && values[i] in values;
      if k == |events| {
        assert events[..k] == events;
      } else {
        ShownAt(events, k, lineage, facet, more[j]);
      }
    }
  }

  lemma ListsOther(values: seq<string>, events: seq<Event>, e: Event, lineage: string, facet: Facet)
    requires Lists(values, events, lineage, facet) && lineage != e.body.lineage
    ensures Lists(values, events + [e], lineage, facet)
  {
    hide Said, Shown;
    var all := events + [e];
    forall v ensures v in values <==> Shown(all, lineage, facet, v) {
      ShownSnoc(events, e, lineage, facet, v);
    }
    forall i, j, k | 0 <= i < j < |values| && 0 <= k < |all| && Shows(all[k], lineage, facet, values[j])
      ensures Shown(all[..k], lineage, facet, values[i])
    {
      assert all[..k] == events[..k];
    }
  }

  lemma TextsStep(l: Lineage, events: seq<Event>, e: Event)
    requires TextsMatch(l, events) && l.lineage == e.body.lineage
    ensures TextsMatch(Apply(l, e), events + [e])
  {
    hide Lists;
    ListsStep(l.sourceIds, events, e, SourceFacet);
    ListsStep(l.dispositions, events, e, DispositionFacet);
    ListsStep(l.consequences, events, e, ConsequenceFacet);
  }

  lemma TextsOther(l: Lineage, events: seq<Event>, e: Event)
    requires TextsMatch(l, events) && l.lineage != e.body.lineage
    ensures TextsMatch(l, events + [e])
  {
    hide Lists;
    ListsOther(l.sourceIds, events, e, l.lineage, SourceFacet);
    ListsOther(l.dispositions, events, e, l.lineage, DispositionFacet);
    ListsOther(l.consequences, events, e, l.lineage, ConsequenceFacet);
  }

  lemma FirstDateSurvives(events: seq<Event>, e: Event, lineage: string, date: string)
    requires IsFirstDate(events, lineage, date)
    ensures IsFirstDate(events + [e], lineage, date)
  {
    var k :| 0 <= k < |events| && events[k].body.lineage == lineage && events[k].body.date == date
             && forall j | 0 <= j < k :: events[j].body.lineage != lineage;
    assert (events + [e])[k] == events[k];
  }

  lemma MaxDateSnoc(events: seq<Event>, e: Event, lineage: string, date: string)
    requires IsMaxDate(events, lineage, date)
    ensures IsMaxDate(events + [e], lineage, if e.body.lineage == lineage then MaxText(date, e.body.date) else date)
  {
    var all := events + [e];
    var latest := if e.body.lineage == lineage then MaxText(date, e.body.date) else date;
    var k :| 0 <= k < |events| && events[k].body.lineage == lineage && events[k].body.date == date;
    assert all[k] == events[k] && all[|events|] == e;
    LeTotal(date, e.body.date);
    LeTotal(e.body.date, e.body.date);
    forall i | 0 <= i < |all| && all[i].body.lineage == lineage ensures Le(all[i].body.date, latest) {
      if i < |events| {
        assert Le(events[i].body.date, date);
        if latest != date {
          LeTransitive(events[i].body.date, date, latest);
        }
      }
    }
  }

  lemma DatesStep(l: Lineage, events: seq<Event>, e: Event)
    requires DatesMatch(l, events) && l.lineage == e.body.lineage
    ensures DatesMatch(Apply(l, e), events + [e])
  {
    FirstDateSurvives(events, e, l.lineage, l.firstSeen);
    MaxDateSnoc(events, e, l.lineage, l.lastSeen);
  }

  lemma DatesOther(l: Lineage, events: seq<Event>, e: Event)
    requires DatesMatch(l, events) && l.lineage != e.body.lineage
    ensures DatesMatch(l, events + [e])
  {
    FirstDateSurvives(events, e, l.lineage, l.firstSeen);
    MaxDateSnoc(events, e, l.lineage, l.lastSeen);
  }

  lemma DatesNew(events: seq<Event>, e: Event)
    requires !Occurs(events, e.body.lineage)
    ensures DatesMatch(Apply(NewLineage(e.body), e), events + [e])
  {
    var all := events + [e];
    assert all[|events|] == e;
    assert forall j | 0 <= j < |events| :: all[j] == events[j];
    LeTotal(e.body.date, e.body.date);
  }

  lemma {:induction false} NothingYet(events: seq<Event>, b: Body)
    requires !Occurs(events, b.lineage)
    ensures CountsMatch(NewLineage(b), events) && TextsMatch(NewLineage(b), events)
    ensures forall id :: Latest(events, b.lineage, id) == None
  {
    if events != [] {
      var n := |events| - 1;
      assert events[n].body.lineage != b.lineage;
      assert forall k | 0 <= k < n :: events[..n][k] == events[k];
      NothingYet(events[..n], b);
    }
    assert forall k | 0 <= k < |events| :: events[k].body.lineage != b.lineage;
    assert Passes(events, b.lineage, true) == {} && Passes(events, b.lineage, false) == {};
  }

  lemma {:induction false} NewIdIsNotIn(events: seq<Event>, lineage: string, id: EventId)
    requires forall i | 0 <= i < |events| :: events[i].id != id
    ensures id !in IdsIn(events, lineage)
  {
    if events != [] {
      NewIdIsNotIn(events[..|events| - 1], lineage, id);
    }
  }

  lemma OwnLineageStep(p: Projection, events: seq<Event>, e: Event)
    requires Reflects(p, events) && e.id !in p.processed
    ensures LineageMatches(Apply(CurrentLineage(p, e.body), e), events + [e])
  {
    var l := CurrentLineage(p, e.body);
    forall i | 0 <= i < |events| ensures events[i].id != e.id {
      assert p.processed[i] == events[i].id;
    }
    NewIdIsNotIn(events, e.body.lineage, e.id);
    if e.body.lineage in p.lineages {
      TestsStep(l, events, e);
      DatesStep(l, events, e);
      TextsStep(l, events, e);
      CountsStep(l, events, e);
    } else {
      NothingYet(events, e.body);
      TestsStep(l, events, e);
      DatesNew(events, e);
      TextsStep(l, events, e);
      CountsStep(l, events, e);
    }
  }

  lemma OtherLineageStep(l: Lineage, events: seq<Event>, e: Event)
    requires LineageMatches(l, events) && l.lineage != e.body.lineage
    ensures LineageMatches(l, events + [e])
  {
    TestsOther(l, events, e);
    DatesOther(l, events, e);
    TextsOther(l, events, e);
    CountsOther(l, events, e);
  }

  lemma OccursSnoc(events: seq<Event>, e: Event, lineage: string)
    ensures Occurs(events + [e], lineage) <==> Occurs(events, lineage) || e.body.lineage == lineage
  {
    var all := events + [e];
    assert all[|events|] == e;
    assert forall k | 0 <= k < |events| :: all[k] == events[k];
  }

  lemma LineagesStep(p: Projection, events: seq<Event>, e: Event, lineage: string)
    requires Reflects(p, events) && e.id !in p.processed
    requires lineage in Advance(p, |events| + 1, e).lineages
    ensures var q := Advance(p, |events| + 1, e);
            q.lineages[lineage].lineage == lineage && LineageMatches(q.lineages[lineage], events + [e])
  {
    if lineage == e.body.lineage {
      OwnLineageStep(p, events, e);
    } else {
      OtherLineageStep(p.lineages[lineage], events, e);
    }
  }

  lemma KeysStep(p: Projection, events: seq<Event>, e: Event)
    requires forall lineage :: lineage in p.lineages <==> Occurs(events, lineage)
    ensures forall lineage :: lineage in Advance(p, |events| + 1, e).lineages <==> Occurs(events + [e], lineage)
  {
    forall lineage ensures Occurs(events + [e], lineage) <==> Occurs(events, lineage) || e.body.lineage == lineage {
      OccursSnoc(events, e, lineage);
    }
  }

  lemma AllLineagesStep(p: Projection, events: seq<Event>, e: Event)
    requires Reflects(p, events) && e.id !in p.processed
    ensures LineagesMatch(Advance(p, |events| + 1, e).lineages, events + [e])
  {
    var q := Advance(p, |events| + 1, e);
    forall lineage | lineage in q.lineages
      ensures q.lineages[lineage].lineage == lineage && LineageMatches(q.lineages[lineage], events + [e])
    {
      LineagesStep(p, events, e, lineage);
    }
  }

  /** Projecting the next event keeps the state the projection of the events so far. */
  lemma AdvanceReflects(p: Projection, events: seq<Event>, e: Event)
    requires Reflects(p, events) && e.id !in p.processed
    ensures Reflects(Advance(p, |events| + 1, e), events + [e])
  {
    KeysStep(p, events, e);
    AllLineagesStep(p, events, e);
  }
}
