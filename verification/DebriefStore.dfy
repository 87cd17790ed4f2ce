/** The append-only event store of experimental/daily_debrief_event_store.py. Event i has sequence i + 1. */
module DebriefStore {
  import opened Wrappers
  import opened DebriefAdapter

  datatype AppendStatus = Appended | DuplicateNoop

  datatype AppendResult = AppendResult(status: AppendStatus, id: EventId, sequence: nat)

  datatype StoreError = InvalidEvent | NegativeExpected | Conflict | Corruption

  datatype StoredEvent = StoredEvent(sequence: nat, event: Event)

  /** SELECT ... WHERE event_id = ?: the id column is unique. */
  function Find(events: seq<Event>, id: EventId): (r: Option<nat>)
    ensures r.Some? ==> r.value < |events| && events[r.value].id == id
    ensures r.None? ==> forall i | 0 <= i < |events| :: events[i].id != id
  {
    if events == [] then None
    else if events[|events| - 1].id == id then Some(|events| - 1)
    else Find(events[..|events| - 1], id)
  }

  function Append(events: seq<Event>, e: Event, expected: Option<int>): (Result<AppendResult, StoreError>, seq<Event>) {
    if !ValidEvent(e) then (Err(InvalidEvent), events)
    else if expected.Some? && expected.value < 0 then (Err(NegativeExpected), events)
    else
      match Find(events, e.id)
      case Some(i) =>
        if events[i] != e then (Err(Corruption), events)
        else (Ok(AppendResult(DuplicateNoop, e.id, i + 1)), events)
      case None =>
        if expected.Some? && expected.value != |events| then (Err(Conflict), events)
        else (Ok(AppendResult(Appended, e.id, |events| + 1)), events + [e])
  }

  ghost predicate AllValid(events: seq<Event>) {
    forall i | 0 <= i < |events| :: ValidEvent(events[i])
  }

  ghost predicate DistinctIds(events: seq<Event>) {
    forall i, j | 0 <= i < j < |events| :: events[i].id != events[j].id
  }

  /** What every reachable store satisfies. */
  ghost predicate StoreOk(events: seq<Event>) {
    AllValid(events) && DistinctIds(events)
  }

  class EventStore {
    var events: seq<Event>

    constructor ()
      ensures events == []
    {
      events := [];
    }

    /** One transaction: it commits whole or leaves the table as it was. */
    method AppendEvent(e: Event, expected: Option<int>) returns (r: Result<AppendResult, StoreError>)
      modifies this
      ensures (r, events) == Append(old(events), e, expected)
    {
      hide ValidEvent;
      if !ValidEvent(e) {
        return Err(InvalidEvent);
      }
      if expected.Some? && expected.value < 0 {
        return Err(NegativeExpected);
      }
      var duplicate := Find(events, e.id);
      if duplicate.Some? {
        if events[duplicate.value] != e {
          return Err(Corruption);
        }
        return Ok(AppendResult(DuplicateNoop, e.id, duplicate.value + 1));
      }
      var current := |events|;
      if expected.Some? && expected.value != current {
        return Err(Conflict);
      }
      events := events + [e];
      return Ok(AppendResult(Appended, e.id, |events|));
    }

    method LastSequence() returns (n: nat)
      ensures n == |events|
    {
      return |events|;
    }

    /** The rows in order of sequence, those after a number only. */
    method IterEvents(after: nat) returns (r: seq<StoredEvent>)
      ensures r == StoredAfter(events, after)
    {
      r := [];
      for i := 0 to |events|
        invariant r == StoredAfter(events[..i], after)
      {
        if i + 1 > after {
          r := r + [StoredEvent(i + 1, events[i])];
        }
      }
      assert events[..|events|] == events;
    }
  }

  function StoredAfter(events: seq<Event>, after: nat): seq<StoredEvent> {
    if after >= |events| then []
    else seq(|events| - after, i requires 0 <= i < |events| - after => StoredEvent(after + i + 1, events[after + i]))
  }

  /** A reader that resumes after the last sequence it has seen misses nothing and reads nothing twice. */
  lemma ReadingResumes(events: seq<Event>, more: seq<Event>, after: nat)
    requires after <= |events|
    ensures StoredAfter(events + more, after) == StoredAfter(events, after) + StoredAfter(events + more, |events|)
    ensures |StoredAfter(events + more, |events|)| == |more|
    ensures forall i | 0 <= i < |more| ::
              StoredAfter(events + more, |events|)[i] == StoredEvent(|events| + i + 1, more[i])
  {
  }

  // ----- what appending keeps -----

  /** A valid event is determined by its id. */
  lemma IdDeterminesEvent(a: Event, b: Event)
    requires ValidEvent(a) && ValidEvent(b) && a.id == b.id
    ensures a == b
  {
  }

  lemma SnocKeeps(events: seq<Event>, e: Event)
    requires StoreOk(events) && ValidEvent(e) && Find(events, e.id).None?
    ensures StoreOk(events + [e])
  {
    hide ValidBody;
  }

  lemma FoundIsStored(events: seq<Event>, e: Event)
    requires StoreOk(events) && ValidEvent(e)
    ensures Find(events, e.id).Some? <==> e in events
    ensures Find(events, e.id).Some? ==> events[Find(events, e.id).value] == e
  {
    hide ValidBody;
    if Find(events, e.id).Some? {
      IdDeterminesEvent(events[Find(events, e.id).value], e);
    }
  }

  lemma AppendFound(events: seq<Event>, e: Event, expected: Option<int>)
    requires ValidEvent(e) && Find(events, e.id).Some? && events[Find(events, e.id).value] == e
    ensures Append(events, e, expected) ==
            (if expected.Some? && expected.value < 0 then Err(NegativeExpected)
             else Ok(AppendResult(DuplicateNoop, e.id, Find(events, e.id).value + 1)), events)
  {
    hide ValidBody;
  }

  lemma AppendDuplicate(events: seq<Event>, e: Event, expected: Option<int>)
    requires StoreOk(events) && ValidEvent(e) && e in events
    ensures var (r, after) := Append(events, e, expected);
            && after == events && r != Err(Corruption)
            && (r.Ok? <==> !(expected.Some? && expected.value < 0))
            && (r.Ok? ==> r.value.status == DuplicateNoop && r.value.id == e.id && 0 < r.value.sequence <= |events|
                          && events[r.value.sequence - 1] == e)
  {
    hide ValidBody;
    FoundIsStored(events, e);
    AppendFound(events, e, expected);
  }

  lemma AppendNew(events: seq<Event>, e: Event, expected: Option<int>)
    requires StoreOk(events) && ValidEvent(e) && e !in events
    ensures var (r, after) := Append(events, e, expected);
            && StoreOk(after) && r != Err(Corruption)
            && (if r.Ok? then r.value == AppendResult(Appended, e.id, |events| + 1) && after == events + [e]
                else after == events)
            && (r.Ok? <==> expected.None? || expected.value == |events|)
            && (r == Err(NegativeExpected) <==> expected.Some? && expected.value < 0)
            && (r == Err(Conflict) <==> expected.Some? && 0 <= expected.value && expected.value != |events|)
  {
    hide ValidBody;
    FoundIsStored(events, e);
    SnocKeeps(events, e);
  }

  /** Appending keeps the store sound and its past, and adds at most the offered event, only when it is new. */
  lemma AppendKeeps(events: seq<Event>, e: Event, expected: Option<int>)
    requires StoreOk(events)
    ensures StoreOk(Append(events, e, expected).1)
    ensures events <= Append(events, e, expected).1
    ensures Append(events, e, expected).0 != Err(Corruption)
    ensures Append(events, e, expected).0 == Err(InvalidEvent) <==> !ValidEvent(e)
  {
    hide ValidBody;
    if ValidEvent(e) {
      if e in events {
        AppendDuplicate(events, e, expected);
      } else {
        AppendNew(events, e, expected);
      }
    }
  }

  // An append by anyone: the event offered and the sequence the caller read earlier.
  datatype Attempt = Attempt(event: Event, expected: Option<int>)

  function RunAttempts(events: seq<Event>, attempts: seq<Attempt>): seq<Event> {
    if attempts == [] then events
    else
      var last := attempts[|attempts| - 1];
      Append(RunAttempts(events, attempts[..|attempts| - 1]), last.event, last.expected).1
  }

  /** Every reachable store holds valid events under distinct ids, and never loses or renumbers one. */
  lemma {:induction false} ReachableStoreOk(events: seq<Event>, attempts: seq<Attempt>)
    requires StoreOk(events)
    ensures StoreOk(RunAttempts(events, attempts)) && events <= RunAttempts(events, attempts)
  {
    hide ValidBody;
    if attempts != [] {
      var n := |attempts| - 1;
      ReachableStoreOk(events, attempts[..n]);
      AppendKeeps(RunAttempts(events, attempts[..n]), attempts[n].event, attempts[n].expected);
    }
  }

  // ----- content addressing -----

  ghost predicate DistinctBodies(events: seq<Event>) {
    forall i, j | 0 <= i < j < |events| :: events[i].body != events[j].body
  }

  /** An id with nothing around its digest. */
  ghost predicate Unpadded(e: Event) {
    e.id == ContentId(e.body)
  }

  /** Unpadded ids make distinct ids and distinct contents the same thing. */
  lemma UnpaddedBodiesDiffer(events: seq<Event>)
    requires StoreOk(events) && forall i | 0 <= i < |events| :: Unpadded(events[i])
    ensures DistinctBodies(events)
  {
  }

  lemma NewIdIsAppended(events: seq<Event>, e: Event)
    requires ValidEvent(e) && forall i | 0 <= i < |events| :: events[i].id != e.id
    ensures Append(events, e, None).1 == events + [e]
  {
  }

  /** The event with the same content under its bare digest. */
  function Plain(e: Event): Event {
    Event(ContentId(e.body), e.body)
  }

  lemma PlainIsValid(e: Event)
    requires ValidEvent(e)
    ensures ValidEvent(Plain(e)) && Unpadded(Plain(e)) && (Plain(e) == e <==> Unpadded(e))
  {
  }

  /**
   * The store keys on the id as given, the validator strips it: offered beside its bare form, a content is stored once
   * exactly when the id is unpadded, and otherwise twice.
   */
  lemma StoredOnceIffUnpadded(e: Event)
    requires ValidEvent(e)
    ensures var events := Append(Append([], Plain(e), None).1, e, None).1;
            && events == (if Unpadded(e) then [e] else [Plain(e), e])
            && (DistinctBodies(events) <==> Unpadded(e))
  {
    hide ValidBody;
    PlainIsValid(e);
    NewIdIsAppended([], Plain(e));
    if Unpadded(e) {
      AppendDuplicate([Plain(e)], e, None);
    } else {
      NewIdIsAppended([Plain(e)], e);
      assert [Plain(e), e][0].body == [Plain(e), e][1].body;
    }
  }

  lemma {:induction false} StoredWasOffered(attempts: seq<Attempt>)
    ensures forall e | e in RunAttempts([], attempts) :: exists i | 0 <= i < |attempts| :: attempts[i].event == e
  {
    if attempts != [] {
      var n := |attempts| - 1;
      StoredWasOffered(attempts[..n]);
      forall e | e in RunAttempts([], attempts) ensures exists i | 0 <= i < |attempts| :: attempts[i].event == e {
        if e in RunAttempts([], attempts[..n]) {
          var i :| 0 <= i < n && attempts[..n][i].event == e;
          assert attempts[i].event == e;
        } else {
          assert attempts[n].event == e;
        }
      }
    }
  }

  /** Over any attempts whose ids are unpadded, no content is ever stored twice. */
  lemma {:induction false} UnpaddedRunStoresOnce(attempts: seq<Attempt>)
    requires forall i | 0 <= i < |attempts| :: Unpadded(attempts[i].event)
    ensures DistinctBodies(RunAttempts([], attempts))
  {
    hide ValidBody, Append;
    ReachableStoreOk([], attempts);
    StoredWasOffered(attempts);
    var events := RunAttempts([], attempts);
    forall i | 0 <= i < |events| ensures Unpadded(events[i]) {
      assert events[i] in events;
    }
    UnpaddedBodiesDiffer(events);
  }

  /** Every padded id, whatever its white space, has a run that stores its content twice. */
  lemma PaddedIdStoresTwice(e: Event)
    requires ValidEvent(e) && !Unpadded(e)
    ensures RunAttempts([], [Attempt(Plain(e), None), Attempt(e, None)]) == [Plain(e), e]
    ensures !DistinctBodies(RunAttempts([], [Attempt(Plain(e), None), Attempt(e, None)]))
  {
    hide ValidBody, ValidEvent, Append;
    var attempts := [Attempt(Plain(e), None), Attempt(e, None)];
    assert attempts[..1][..0] == [] && RunAttempts([], attempts[..1][..0]) == [];
    assert RunAttempts([], attempts[..1]) == Append([], Plain(e), None).1;
    StoredOnceIffUnpadded(e);
  }
}
