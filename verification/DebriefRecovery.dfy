/** Ingestion and checkpoint recovery: experimental/daily_debrief_recovery.py and the projection's envelope. */
module DebriefRecovery {
  import opened Wrappers
  import opened Collections
  import opened Text
  import opened DebriefAdapter
  import opened DebriefStore
  import opened DebriefProjection

  // ----- the checkpoint envelope -----

  const PROJECTION_SCHEMA := "daily-debrief-digest-projection/v1"

  // A lineage as the dictionary it is serialized to; a key may be missing, and extra says whether another is present.
  datatype Raw = Raw(
    lineage: Option<string>, firstSeen: Option<string>, lastSeen: Option<string>, eventIds: Option<seq<EventId>>,
    sourceIds: Option<seq<string>>, dispositions: Option<seq<string>>, consequences: Option<seq<string>>,
    remaining: Option<seq<string>>, resolved: Option<seq<string>>, simulationPasses: Option<nat>,
    liveVerified: Option<nat>, extra: bool)

  // A serialized projection without its digest; any of its keys may be missing.
  datatype Payload = Payload(
    schema: Option<string>, revision: Option<int>, last: Option<int>, processed: Option<seq<EventId>>,
    lineages: Option<map<string, Raw>>)

  // The digest is SHA-256 over the payload, taken as injective: the payload it was computed from.
  datatype Envelope = Envelope(payload: Payload, digest: Option<Payload>)

  // LineageRejected: a raw lineage does not construct, or its name is not its key.
  datatype RecoveryError =
    | DigestMismatch | UnsupportedSchema | UnsupportedRevision | SequenceInvalid | DuplicateIds | CountMismatch
    | LineageRejected | AheadOfStore | Projecting(error: ProjectionError)

  /** asdict. */
  function ToRaw(l: Lineage): Raw {
    Raw(Some(l.lineage), Some(l.firstSeen), Some(l.lastSeen), Some(l.eventIds), Some(l.sourceIds), Some(l.dispositions),
        Some(l.consequences), Some(l.remaining), Some(l.resolved), Some(l.simulationPasses), Some(l.liveVerified),
        false)
  }

  function OrElse<T>(o: Option<T>, default: T): T {
    if o.Some? then o.value else default
  }

  /** ProjectionLineage(**raw): three keys are required, the others have defaults, and an unknown one raises. */
  function FromRaw(r: Raw): Option<Lineage> {
    if r.extra || r.lineage.None? || r.firstSeen.None? || r.lastSeen.None? then None
    else
      Some(Lineage(r.lineage.value, r.firstSeen.value, r.lastSeen.value, OrElse(r.eventIds, []),
                   OrElse(r.sourceIds, []), OrElse(r.dispositions, []), OrElse(r.consequences, []),
                   OrElse(r.remaining, []), OrElse(r.resolved, []), OrElse(r.simulationPasses, 0),
                   OrElse(r.liveVerified, 0)))
  }

  function ToEnvelope(p: Projection): Envelope {
    var raws := map key | key in p.lineages :: ToRaw(p.lineages[key]);
    var payload := Payload(Some(PROJECTION_SCHEMA), Some(1), Some(p.last), Some(p.processed), Some(raws));
    Envelope(payload, Some(payload))
  }

  predicate Constructs(raws: map<string, Raw>) {
    forall key | key in raws :: FromRaw(raws[key]).Some? && FromRaw(raws[key]).value.lineage == key
  }

  function FromDict(e: Envelope): Result<Projection, RecoveryError> {
    var p := e.payload;
    var last := OrElse(p.last, 0);
    var processed := OrElse(p.processed, []);
    var raws := OrElse(p.lineages, map[]);
    if e.digest.Some? && e.digest.value != p then Err(DigestMismatch)
    else if p.schema != Some(PROJECTION_SCHEMA) then Err(UnsupportedSchema)
    else if OrElse(p.revision, 1) != 1 then Err(UnsupportedRevision)
    else if last < 0 then Err(SequenceInvalid)
    else if !Distinct(processed) then Err(DuplicateIds)
    else if |processed| != last then Err(CountMismatch)
    else if !Constructs(raws) then Err(LineageRejected)
    else Ok(Projection(last, processed, map key | key in raws :: FromRaw(raws[key]).value))
  }

  ghost predicate Restorable(p: Projection) {
    && Distinct(p.processed) && |p.processed| == p.last
    && forall key | key in p.lineages :: p.lineages[key].lineage == key
  }

  lemma RawRoundTrip(l: Lineage)
    ensures FromRaw(ToRaw(l)) == Some(l)
  {
  }

  /** A raw lineage says this of a lineage: a key it leaves out stands for an empty list or a zero. */
  ghost predicate Says(r: Raw, l: Lineage) {
    && !r.extra && r.lineage == Some(l.lineage) && r.firstSeen == Some(l.firstSeen) && r.lastSeen == Some(l.lastSeen)
    && (r.eventIds == Some(l.eventIds) || (r.eventIds.None? && l.eventIds == []))
    && (r.sourceIds == Some(l.sourceIds) || (r.sourceIds.None? && l.sourceIds == []))
    && (r.dispositions == Some(l.dispositions) || (r.dispositions.None? && l.dispositions == []))
    && (r.consequences == Some(l.consequences) || (r.consequences.None? && l.consequences == []))
    && (r.remaining == Some(l.remaining) || (r.remaining.None? && l.remaining == []))
    && (r.resolved == Some(l.resolved) || (r.resolved.None? && l.resolved == []))
    && (r.simulationPasses == Some(l.simulationPasses) || (r.simulationPasses.None? && l.simulationPasses == 0))
    && (r.liveVerified == Some(l.liveVerified) || (r.liveVerified.None? && l.liveVerified == 0))
  }

  lemma FromRawMeans(r: Raw, l: Lineage)
    ensures FromRaw(r) == Some(l) <==> Says(r, l)
    ensures FromRaw(r).None? <==> r.extra || r.lineage.None? || r.firstSeen.None? || r.lastSeen.None?
    ensures Says(ToRaw(l), l)
  {
  }

  /** A payload of the supported schema and revision that describes a projection, each lineage under its own name. */
  ghost predicate Describes(p: Payload, q: Projection) {
    && p.schema == Some("daily-debrief-digest-projection/v1") && (p.revision == Some(1) || p.revision.None?)
    && (p.last == Some(q.last) || (p.last.None? && q.last == 0))
    && (p.processed == Some(q.processed) || (p.processed.None? && q.processed == []))
    && |q.processed| == q.last
    && (forall i, j | 0 <= i < j < |q.processed| :: q.processed[i] != q.processed[j])
    && (p.lineages.None? ==> q.lineages == map[])
    && (p.lineages.Some? ==>
          && (forall key :: key in q.lineages <==> key in p.lineages.value)
          && (forall key | key in q.lineages ::
                q.lineages[key].lineage == key && Says(p.lineages.value[key], q.lineages[key])))
  }

  lemma ReadIsDescribed(e: Envelope)
    requires FromDict(e).Ok?
    ensures Describes(e.payload, FromDict(e).value)
  {
    hide FromRaw, ToRaw;
    var q := FromDict(e).value;
    forall key | key in q.lineages ensures Says(e.payload.lineages.value[key], q.lineages[key]) {
      FromRawMeans(e.payload.lineages.value[key], q.lineages[key]);
    }
  }

  lemma DescribedIsRead(e: Envelope, q: Projection)
    requires Describes(e.payload, q) && (e.digest.None? || e.digest == Some(e.payload))
    ensures FromDict(e) == Ok(q)
  {
    hide FromRaw, ToRaw;
    var raws := OrElse(e.payload.lineages, map[]);
    forall key | key in raws ensures FromRaw(raws[key]) == Some(q.lineages[key]) {
      FromRawMeans(raws[key], q.lineages[key]);
    }
    assert Constructs(raws);
    assert FromDict(e).value.lineages == q.lineages;
  }

  /**
   * The reader accepts an envelope exactly when its digest, if it carries one, is that of its payload, and the payload
   * describes a projection; and it returns that projection. A digest that differs is always reported as such.
   */
  lemma AcceptedMeans(e: Envelope, q: Projection)
    ensures FromDict(e) == Ok(q) <==> (e.digest.None? || e.digest == Some(e.payload)) && Describes(e.payload, q)
    ensures FromDict(e) == Err(DigestMismatch) <==> e.digest.Some? && e.digest.value != e.payload
    ensures FromDict(e) != Err(AheadOfStore)
  {
    hide Describes;
    if FromDict(e) == Ok(q) {
      ReadIsDescribed(e);
    }
    if Describes(e.payload, q) && (e.digest.None? || e.digest == Some(e.payload)) {
      DescribedIsRead(e, q);
    }
  }

  /** Whatever is put in place of a written payload, the digest beside it gives the change away. */
  lemma TamperingIsCaught(p: Projection, forged: Payload)
    ensures Describes(ToEnvelope(p).payload, p) <==> Restorable(p)
    ensures FromDict(Envelope(forged, ToEnvelope(p).digest)) == Err(DigestMismatch) <==> forged != ToEnvelope(p).payload
  {
    hide FromRaw, ToRaw;
    forall key | key in p.lineages ensures Says(ToRaw(p.lineages[key]), p.lineages[key]) {
      FromRawMeans(ToRaw(p.lineages[key]), p.lineages[key]);
    }
  }

  /** Every key is written out, as asdict does. */
  ghost predicate Complete(p: Payload) {
    && p.revision.Some? && p.last.Some? && p.processed.Some? && p.lineages.Some?
    && forall key | key in p.lineages.value :: exists l :: p.lineages.value[key] == ToRaw(l)
  }

  /**
   * Reading inverts writing on exactly the restorable states. What is read is restorable, and writing it gives back a
   * payload that was complete.
   */
  lemma EnvelopeRoundTrip(p: Projection, e: Envelope)
    ensures FromDict(ToEnvelope(p)) == Ok(p) <==> Restorable(p)
    ensures FromDict(ToEnvelope(p)).Ok? <==> Restorable(p)
    ensures FromDict(e).Ok? ==> Restorable(FromDict(e).value)
    ensures FromDict(e).Ok? && Complete(e.payload) ==> ToEnvelope(FromDict(e).value).payload == e.payload
  {
    hide ToRaw, FromRaw, Distinct;
    forall key | key in p.lineages ensures FromRaw(ToRaw(p.lineages[key])) == Some(p.lineages[key]) {
      RawRoundTrip(p.lineages[key]);
    }
    if FromDict(ToEnvelope(p)).Ok? {
      assert FromDict(ToEnvelope(p)).value.lineages == p.lineages;
    }
    if FromDict(e).Ok? && Complete(e.payload) {
      var raws := e.payload.lineages.value;
      forall key | key in raws ensures ToRaw(FromRaw(raws[key]).value) == raws[key] {
        var l :| raws[key] == ToRaw(l);
        RawRoundTrip(l);
      }
      assert ToEnvelope(FromDict(e).value).payload.lineages.value == raws;
    }
  }

  // ----- replay -----

  lemma {:induction false} FoldAppend(p: Projection, a: seq<StoredEvent>, b: seq<StoredEvent>)
    ensures Fold(p, a + b) == match Fold(p, a) case Err(e) => Err(e) case Ok(q) => Fold(q, b)
    decreases |a|
  {
    if a == [] {
      assert a + b == b;
    } else {
      assert (a + b)[0] == a[0] && (a + b)[1..] == a[1..] + b;
      match Project(p, a[0])
      case Err(e) =>
      case Ok(q) => FoldAppend(q, a[1..], b);
    }
  }

  lemma StoredSplit(events: seq<Event>, k: nat)
    requires k <= |events|
    ensures StoredAfter(events, 0) == StoredAfter(events[..k], 0) + StoredAfter(events, k)
  {
  }

  ghost predicate NoNulls(events: seq<Event>) {
    forall i | 0 <= i < |events| :: !HasNull(events[i].body)
  }

  lemma RebuildSnoc(events: seq<Event>, e: Event)
    ensures Rebuild(events + [e]) ==
            match Rebuild(events) case Err(x) => Err(x) case Ok(p) => Project(p, StoredEvent(|events| + 1, e))
  {
    hide ValidBody;
    var all := events + [e];
    StoredSplit(all, |events|);
    assert all[..|events|] == events;
    FoldAppend(EMPTY, StoredAfter(events, 0), StoredAfter(all, |events|));
    assert StoredAfter(all, |events|) == [StoredEvent(|events| + 1, e)];
    match Rebuild(events)
    case Err(x) =>
    case Ok(p) =>
      match Project(p, StoredEvent(|events| + 1, e))
      case Err(x) =>
      case Ok(q) => assert Fold(q, []) == Ok(q);
  }

  lemma EmptyReflects()
    ensures Reflects(EMPTY, [])
  {
  }

  lemma ProjectNext(p: Projection, events: seq<Event>, e: Event)
    requires Reflects(p, events) && ValidEvent(e) && forall i | 0 <= i < |events| :: events[i].id != e.id
    ensures Project(p, StoredEvent(|events| + 1, e)) ==
            if HasNull(e.body) then Err(NotIterable) else Ok(Advance(p, |events| + 1, e))
    ensures e.id !in p.processed
  {
  }

  /** Rebuilding a sound store fails only on an explicit null list, and otherwise gives the projection of its events. */
  lemma {:induction false} RebuildSucceeds(events: seq<Event>)
    requires StoreOk(events)
    ensures NoNulls(events) ==> Rebuild(events).Ok? && Reflects(Rebuild(events).value, events)
    ensures !NoNulls(events) ==> Rebuild(events) == Err(NotIterable)
  {
    hide ValidBody;
    if events == [] {
      EmptyReflects();
    } else {
      var n := |events| - 1;
      var before, e := events[..n], events[n];
      assert before + [e] == events;
      assert NoNulls(events) <==> NoNulls(before) && !HasNull(e.body);
      RebuildSucceeds(before);
      RebuildSnoc(before, e);
      if NoNulls(before) {
        ProjectNext(Rebuild(before).value, before, e);
        if !HasNull(e.body) {
          AdvanceReflects(Rebuild(before).value, before, e);
        }
      }
    }
  }

  /** The list check normalizes a raw id into the list it accepts. */
  lemma RawIdIsListed(f: IdField, id: string)
    requires IdentifierList(FieldJson(f)).Some? && id in FieldIds(f)
    ensures Strip(id) in IdentifierList(FieldJson(f)).value
  {
    var items := FieldJson(f).items;
    IdentifiersFacts(items);
    var ids := Identifiers(items).value;
    var i :| 0 <= i < |f.ids| && f.ids[i] == id;
    assert items[i] == Str(id) && Identifier(items[i]) == Some(ids[i]);
    SortedHasSame(ids);
  }

  lemma ValidListsAreDisjoint(b: Body)
    requires ValidBody(b)
    ensures DisjointIds(FieldIds(b.remaining), FieldIds(b.resolved))
  {
    hide ValidTexts;
    forall id | id in FieldIds(b.remaining) ensures id !in FieldIds(b.resolved) {
      RawIdIsListed(b.remaining, id);
      if id in FieldIds(b.resolved) {
        RawIdIsListed(b.resolved, id);
        assert false;
      }
    }
  }

  lemma {:induction false} IdsInMeans(events: seq<Event>, lineage: string, id: EventId)
    ensures id in IdsIn(events, lineage) <==>
            exists i | 0 <= i < |events| :: events[i].id == id && events[i].body.lineage == lineage
  {
    if events != [] {
      var n := |events| - 1;
      IdsInMeans(events[..n], lineage, id);
      assert forall i | 0 <= i < n :: events[..n][i] == events[i];
    }
  }

  lemma {:induction false} PassesAreCounted(events: seq<Event>, lineage: string)
    ensures |Passes(events, lineage, false)| + |Passes(events, lineage, true)| <= |IdsIn(events, lineage)|
  {
    hide SaysPass, SaysLive, Passes;
    if events == [] {
      NoPasses(lineage);
    } else {
      var n := |events| - 1;
      assert events == events[..n] + [events[n]];
      PassesAreCounted(events[..n], lineage);
      PassesSnoc(events[..n], events[n], lineage, true);
      PassesSnoc(events[..n], events[n], lineage, false);
    }
  }

  lemma NoPasses(lineage: string)
    ensures Passes([], lineage, false) == {} && Passes([], lineage, true) == {}
  {
  }

  /** Every processed event id is in the list of exactly one lineage, which passes at most as often as it has events. */
  lemma LineagesPartitionEvents(p: Projection, events: seq<Event>, i: nat, lineage: string)
    requires Reflects(p, events) && DistinctIds(events) && i < |events| && lineage in p.lineages
    ensures events[i].body.lineage in p.lineages
    ensures p.processed[i] in p.lineages[lineage].eventIds <==> lineage == events[i].body.lineage
    ensures p.lineages[lineage].simulationPasses + p.lineages[lineage].liveVerified <= |p.lineages[lineage].eventIds|
  {
    hide TestsMatch, DatesMatch, TextsMatch;
    assert Occurs(events, events[i].body.lineage);
    IdsInMeans(events, lineage, events[i].id);
    PassesAreCounted(events, lineage);
    assert LineageMatches(p.lineages[lineage], events);
  }

  /** Last writer wins: a test id is remaining (resolved) exactly when the latest event mentioning it lists it so. */
  lemma LastWriterWins(events: seq<Event>, lineage: string, id: string)
    requires StoreOk(events) && NoNulls(events)
    ensures Rebuild(events).Ok?
    ensures lineage in Rebuild(events).value.lineages <==> Occurs(events, lineage)
    ensures lineage in Rebuild(events).value.lineages ==>
              var l := Rebuild(events).value.lineages[lineage];
              && (id in l.remaining <==> exists k :: Decides(events, lineage, id, true, k))
              && (id in l.resolved <==> exists k :: Decides(events, lineage, id, false, k))
              && !(id in l.remaining && id in l.resolved)
  {
    hide ValidBody, Decides, Project, Fold;
    RebuildSucceeds(events);
    assert AllDisjoint(events) by {
      forall i | 0 <= i < |events|
        ensures DisjointIds(FieldIds(events[i].body.remaining), FieldIds(events[i].body.resolved))
      {
        assert ValidEvent(events[i]);
        ValidListsAreDisjoint(events[i].body);
      }
    }
    LatestMeans(events, lineage, id, true);
    LatestMeans(events, lineage, id, false);
  }

  lemma NullListIsValid(b: Body)
    requires ValidBody(b) && b.remaining == Ids([])
    ensures ValidBody(b.(remaining := NullList))
  {
  }

  /** An explicit null list passes validation and is stored, but no projection can get past it. */
  lemma NullListBlocksReplay(b: Body)
    requires ValidBody(b) && b.remaining == Ids([])
    ensures var n := b.(remaining := NullList);
            var e := Event(ContentId(n), n);
            Append([], e, None).1 == [e] && Rebuild([e]) == Err(NotIterable)
  {
    hide ValidBody;
    NullListIsValid(b);
    var n := b.(remaining := NullList);
    var e := Event(ContentId(n), n);
    UnpaddedIsValid(n);
    NewIdIsAppended([], e);
    assert StoreOk([e]);
    assert HasNull([e][0].body);
    RebuildSucceeds([e]);
  }

  lemma UnpaddedIsValid(b: Body)
    requires ValidBody(b)
    ensures ValidEvent(Event(ContentId(b), b))
  {
  }

  /** Every state rebuilt from a sound store can be checkpointed. */
  lemma ReachableIsRestorable(p: Projection, events: seq<Event>)
    requires DistinctIds(events) && Reflects(p, events)
    ensures Restorable(p)
  {
  }

  // ----- recovery -----

  function Recover(events: seq<Event>, checkpoint: Option<Envelope>): Result<Projection, RecoveryError> {
    var start := if checkpoint.None? then Ok(EMPTY) else FromDict(checkpoint.value);
    match start
    case Err(e) => Err(e)
    case Ok(p) =>
      if p.last > |events| then Err(AheadOfStore)
      else
        match Fold(p, StoredAfter(events, p.last))
        case Err(e) => Err(Projecting(e))
        case Ok(q) => Ok(q)
  }

  method RecoverProjection(store: EventStore, checkpoint: Option<Envelope>)
      returns (error: Option<RecoveryError>, state: ProjectionState)
    ensures fresh(state)
    ensures match Recover(store.events, checkpoint)
            case Ok(p) => error == None && state.View() == p
            case Err(e) => error == Some(e)
    ensures error == Some(DigestMismatch) <==>
              checkpoint.Some? && checkpoint.value.digest.Some?
              && checkpoint.value.digest.value != checkpoint.value.payload
  {
    state := new ProjectionState(EMPTY);
    if checkpoint.Some? {
      var start := FromDict(checkpoint.value);
      if start.Err? {
        return Some(start.error), state;
      }
      state := new ProjectionState(start.value);
    }
    var durableLast := store.LastSequence();
    if state.last > durableLast {
      return Some(AheadOfStore), state;
    }
    var events := store.IterEvents(state.last);
    var failed := state.ProjectAll(events);
    if failed.Some? {
      error := Some(Projecting(failed.value));
    } else {
      error := None;
    }
  }

  /**
   * A successful recovery from a checkpoint folded the rest of the store onto exactly the projection its payload
   * describes, which is the payload that was digested when a digest came with it.
   */
  lemma RecoveryStartsFrom(events: seq<Event>, e: Envelope, q: Projection)
    ensures Recover(events, Some(e)) == Ok(q) <==>
            && (e.digest.None? || e.digest == Some(e.payload))
            && exists start ::
                 && Describes(e.payload, start) && start.last <= |events|
                 && Fold(start, StoredAfter(events, start.last)) == Ok(q)
    ensures Recover(events, Some(e)) == Err(DigestMismatch) <==> e.digest.Some? && e.digest.value != e.payload
    ensures Recover(events, Some(e)) == Err(AheadOfStore) <==>
            && (e.digest.None? || e.digest == Some(e.payload))
            && exists start :: Describes(e.payload, start) && start.last > |events|
  {
    hide Describes, FromDict, Fold;
    AcceptedMeans(e, EMPTY);
    if FromDict(e).Ok? {
      AcceptedMeans(e, FromDict(e).value);
    }
    forall start | Describes(e.payload, start) && (e.digest.None? || e.digest == Some(e.payload))
      ensures FromDict(e) == Ok(start)
    {
      AcceptedMeans(e, start);
    }
  }

  /** Replay equivalence: from the checkpoint of any prefix, recovery ends where a full rebuild ends. */
  lemma RecoveryEqualsRebuild(events: seq<Event>, k: nat)
    requires StoreOk(events) && k <= |events| && NoNulls(events[..k])
    ensures Rebuild(events[..k]).Ok?
    ensures Recover(events, Some(ToEnvelope(Rebuild(events[..k]).value))) ==
            match Rebuild(events) case Ok(p) => Ok(p) case Err(e) => Err(Projecting(e))
    ensures Recover(events, None) == match Rebuild(events) case Ok(p) => Ok(p) case Err(e) => Err(Projecting(e))
  {
    hide ValidBody;
    var before := events[..k];
    RebuildSucceeds(before);
    var p := Rebuild(before).value;
    ReachableIsRestorable(p, before);
    EnvelopeRoundTrip(p, ToEnvelope(p));
    StoredSplit(events, k);
    FoldAppend(EMPTY, StoredAfter(before, 0), StoredAfter(events, k));
  }

  /** On a store that only ingestion writes to, recovery from any prefix's checkpoint always succeeds. */
  lemma RecoveryNeverFails(events: seq<Event>, k: nat)
    requires StoreOk(events) && AllCanonical(events) && k <= |events|
    ensures Rebuild(events[..k]).Ok? && Rebuild(events).Ok?
    ensures Recover(events, Some(ToEnvelope(Rebuild(events[..k]).value))) == Ok(Rebuild(events).value)
    ensures Reflects(Rebuild(events).value, events)
  {
    hide ValidBody;
    forall i | 0 <= i < |events| ensures !HasNull(events[i].body) {
      assert Canonical(events[i]);
    }
    RebuildSucceeds(events);
    RecoveryEqualsRebuild(events, k);
  }

  // ----- ingestion -----

  datatype IngestStatus = Quarantined | Accepted | NothingNew

  datatype IngestResult = IngestResult(status: IngestStatus, appended: seq<AppendResult>)

  /** The store after each event is offered with the sequence just read. */
  function IngestAll(events: seq<Event>, offered: seq<Event>): seq<Event> {
    if offered == [] then events
    else
      var before := IngestAll(events, offered[..|offered| - 1]);
      Append(before, offered[|offered| - 1], Some(|before|)).1
  }

  /** The offered events that are not stored yet, in order, each once. */
  ghost function NewOnes(events: seq<Event>, offered: seq<Event>): seq<Event> {
    if offered == [] then []
    else
      var before := NewOnes(events, offered[..|offered| - 1]);
      var e := offered[|offered| - 1];
      if e in events || e in before then before else before + [e]
  }

  /** A complete ingest adds exactly the new events, in order, and keeps the store sound. */
  lemma {:induction false} IngestAddsNewOnes(events: seq<Event>, offered: seq<Event>)
    requires StoreOk(events) && AllCanonical(offered)
    ensures IngestAll(events, offered) == events + NewOnes(events, offered)
    ensures StoreOk(IngestAll(events, offered))
    ensures forall e | e in offered :: e in IngestAll(events, offered)
  {
    hide Append, ValidEvent;
    if offered == [] {
      assert events + [] == events;
    } else {
      var n := |offered| - 1;
      IngestAddsNewOnes(events, offered[..n]);
      var before, e := IngestAll(events, offered[..n]), offered[n];
      if e in before {
        AppendDuplicate(before, e, Some(|before|));
      } else {
        AppendNew(before, e, Some(|before|));
      }
      assert offered == offered[..n] + [e];
    }
  }

  lemma {:induction false} NothingNewToAdd(events: seq<Event>, offered: seq<Event>)
    requires forall e | e in offered :: e in events
    ensures NewOnes(events, offered) == []
  {
    if offered != [] {
      NothingNewToAdd(events, offered[..|offered| - 1]);
    }
  }

  ghost predicate StoredOnce(events: seq<Event>, e: Event) {
    exists i | 0 <= i < |events| ::
      events[i] == e && forall j | 0 <= j < |events| && j != i :: events[j].id != e.id
  }

  lemma DistinctIsOnce(events: seq<Event>, e: Event)
    requires DistinctIds(events) && e in events
    ensures StoredOnce(events, e)
  {
  }

  /**
   * Exactly once. After any appends by anyone (ingests cut short by a crash or a conflict among them), one complete
   * ingest keeps every stored event where it was, stores each of its events once, and a second one changes nothing.
   */
  lemma ExactlyOnce(attempts: seq<Attempt>, payload: Json)
    requires Adapt(payload).Some?
    ensures var offered := Adapt(payload).value;
            var before := RunAttempts([], attempts);
            var after := IngestAll(before, offered);
            && before <= after && StoreOk(after)
            && (forall e | e in offered :: StoredOnce(after, e))
            && (forall e | e in after :: e in before || e in offered)
            && IngestAll(after, offered) == after
  {
    hide Append, Canonical, Adapt;
    var offered := Adapt(payload).value;
    var before := RunAttempts([], attempts);
    AdaptedEventsAreValid(payload);
    ReachableStoreOk([], attempts);
    IngestAddsNewOnes(before, offered);
    var after := IngestAll(before, offered);
    forall e | e in offered ensures StoredOnce(after, e) {
      DistinctIsOnce(after, e);
    }
    NewOnesAreOffered(before, offered);
    IngestAddsNewOnes(after, offered);
    NothingNewToAdd(after, offered);
  }

  lemma {:induction false} NewOnesAreOffered(events: seq<Event>, offered: seq<Event>)
    ensures forall e | e in NewOnes(events, offered) :: e in offered
  {
    if offered != [] {
      NewOnesAreOffered(events, offered[..|offered| - 1]);
      assert offered == offered[..|offered| - 1] + [offered[|offered| - 1]];
    }
  }

  /** A crash after m events, then a retry: the same store as one undisturbed ingest. */
  lemma RetryAfterCrash(events: seq<Event>, offered: seq<Event>, m: nat)
    requires StoreOk(events) && AllCanonical(offered) && m <= |offered|
    ensures IngestAll(IngestAll(events, offered[..m]), offered) == IngestAll(events, offered)
    decreases |offered| - m
  {
    hide Append, Canonical;
    if m == 0 {
      assert offered[..0] == [];
    } else {
      var cut := IngestAll(events, offered[..m]);
      IngestAddsNewOnes(events, offered[..m]);
      ResumeFrom(events, offered, m, |offered|);
      assert offered[..|offered|] == offered;
    }
  }

  lemma {:induction false} ResumeFrom(events: seq<Event>, offered: seq<Event>, m: nat, n: nat)
    requires StoreOk(events) && AllCanonical(offered) && m <= n <= |offered|
    ensures IngestAll(IngestAll(events, offered[..m]), offered[..n]) == IngestAll(events, offered[..n])
    decreases n
  {
    hide Append, Canonical;
    var cut := IngestAll(events, offered[..m]);
    IngestAddsNewOnes(events, offered[..m]);
    if m == n {
      IngestAddsNewOnes(cut, offered[..m]);
      NothingNewToAdd(cut, offered[..m]);
      assert cut + [] == cut;
    } else {
      ResumeFrom(events, offered, m, n - 1);
      assert offered[..n][..n - 1] == offered[..n - 1];
    }
  }

  // ----- ingestion beside other writers -----

  // What others append before the sequence is read, and between that and the append.
  datatype Others = Others(beforeRead: seq<Attempt>, beforeAppend: seq<Attempt>)

  const NOBODY := Others([], [])

  function OthersAt(others: seq<Others>, i: nat): Others {
    if i < |others| then others[i] else NOBODY
  }

  function Offered(events: seq<Event>, e: Event, o: Others): (Result<AppendResult, StoreError>, seq<Event>) {
    var read := RunAttempts(events, o.beforeRead);
    Append(RunAttempts(read, o.beforeAppend), e, Some(|read|))
  }

  /** The loop over events, which a conflict ends; the flag says whether it went through. */
  function IngestBeside(events: seq<Event>, offered: seq<Event>, others: seq<Others>): (bool, seq<Event>) {
    if offered == [] then (true, events)
    else
      var n := |offered| - 1;
      var (through, before) := IngestBeside(events, offered[..n], others);
      if !through then (false, before)
      else
        var (r, after) := Offered(before, offered[n], OthersAt(others, n));
        (r.Ok?, after)
  }

  /** An offer conflicts exactly when the event is new and somebody appended after the sequence was read. */
  lemma OfferMeans(events: seq<Event>, e: Event, o: Others)
    requires StoreOk(events) && ValidEvent(e)
    ensures var read := RunAttempts(events, o.beforeRead);
            var grown := RunAttempts(read, o.beforeAppend);
            var (r, after) := Offered(events, e, o);
            && StoreOk(grown) && StoreOk(after) && events <= read <= grown <= after
            && (r.Ok? <==> e in grown || grown == read)
            && (r.Ok? ==> after == (if e in grown then grown else grown + [e])
                          && (r.value.status == DuplicateNoop <==> e in grown) && r.value.id == e.id
                          && 0 < r.value.sequence <= |after| && after[r.value.sequence - 1] == e)
            && (r.Err? ==> r.error == Conflict && after == grown)
  {
    hide Append, ValidEvent, RunAttempts;
    var read := RunAttempts(events, o.beforeRead);
    var grown := RunAttempts(read, o.beforeAppend);
    ReachableStoreOk(events, o.beforeRead);
    ReachableStoreOk(read, o.beforeAppend);
    assert grown == read <==> |grown| == |read|;
    if e in grown {
      AppendDuplicate(grown, e, Some(|read|));
    } else {
      AppendNew(grown, e, Some(|read|));
      ConflictOnly(grown, e, |read|);
    }
  }

  lemma AloneMeans(events: seq<Event>, e: Event, i: nat)
    requires StoreOk(events) && ValidEvent(e)
    ensures var (r, after) := Offered(events, e, OthersAt([], i));
            && r.Ok? && (r.value.status == DuplicateNoop <==> after == events) && |events| <= |after|
  {
    hide Append, ValidEvent;
    OfferMeans(events, e, NOBODY);
  }

  lemma ConflictOnly(events: seq<Event>, e: Event, expected: nat)
    requires StoreOk(events) && ValidEvent(e) && e !in events
    ensures expected != |events| ==> Append(events, e, Some(expected)).0 == Err(Conflict)
  {
    hide ValidBody;
    FoundIsStored(events, e);
  }

  /** An ingest that goes through has stored every event, whoever wrote in between; nothing stored is ever lost. */
  lemma {:induction false} IngestBesideStores(events: seq<Event>, offered: seq<Event>, others: seq<Others>)
    requires StoreOk(events) && AllCanonical(offered)
    ensures var (through, after) := IngestBeside(events, offered, others);
            && StoreOk(after) && events <= after
            && (through ==> forall e | e in offered :: StoredOnce(after, e))
  {
    hide Offered, Canonical, ValidEvent;
    if offered != [] {
      var n := |offered| - 1;
      var (through, before) := IngestBeside(events, offered[..n], others);
      IngestBesideStores(events, offered[..n], others);
      if through {
        CanonicalAt(offered, n);
        OfferMeans(before, offered[n], OthersAt(others, n));
        var after := Offered(before, offered[n], OthersAt(others, n)).1;
        forall e | e in offered && Offered(before, offered[n], OthersAt(others, n)).0.Ok? ensures StoredOnce(after, e) {
          assert e in after by {
            if e != offered[n] {
              assert e in offered[..n] && e in before;
            }
          }
          DistinctIsOnce(after, e);
        }
      }
    }
  }

  /** With nobody else writing, an ingest always goes through and adds just its new events. */
  lemma {:induction false} IngestAlone(events: seq<Event>, offered: seq<Event>)
    requires StoreOk(events) && AllCanonical(offered)
    ensures IngestBeside(events, offered, []) == (true, IngestAll(events, offered))
  {
    hide Canonical, ValidEvent, Append;
    if offered != [] {
      var n := |offered| - 1;
      IngestAlone(events, offered[..n]);
      IngestAddsNewOnes(events, offered[..n]);
      CanonicalAt(offered, n);
      OfferMeans(IngestAll(events, offered[..n]), offered[n], NOBODY);
    }
  }

  /**
   * Exactly once, under any interleaving: in any history of appends by anyone in which each event of a payload was
   * appended with success at some point, in whatever order and with whatever in between, the store ends with each of
   * them once, and ingesting the payload again changes nothing.
   */
  lemma ExactlyOnceInterleaved(attempts: seq<Attempt>, payload: Json, at: seq<nat>)
    requires Adapt(payload).Some? && |at| == |Adapt(payload).value|
    requires forall i | 0 <= i < |at| :: SucceedsAt(attempts, Adapt(payload).value[i], at[i])
    ensures var offered := Adapt(payload).value;
            var events := RunAttempts([], attempts);
            && StoreOk(events) && (forall e | e in offered :: StoredOnce(events, e))
            && IngestAll(events, offered) == events
  {
    hide Append, Canonical, Adapt;
    var offered := Adapt(payload).value;
    var events := RunAttempts([], attempts);
    AdaptedEventsAreValid(payload);
    ReachableStoreOk([], attempts);
    forall e | e in offered ensures e in events && StoredOnce(events, e) {
      var i :| 0 <= i < |offered| && offered[i] == e;
      CanonicalAt(offered, i);
      SuccessStays(attempts, e, at[i]);
      DistinctIsOnce(events, e);
    }
    IngestAddsNewOnes(events, offered);
    NothingNewToAdd(events, offered);
    assert events + [] == events;
  }

  /** Attempt k of the history offers e and succeeds. */
  ghost predicate SucceedsAt(attempts: seq<Attempt>, e: Event, k: nat) {
    && k < |attempts| && attempts[k].event == e
    && Append(RunAttempts([], attempts[..k]), e, attempts[k].expected).0.Ok?
  }

  lemma {:induction false} SuccessStays(attempts: seq<Attempt>, e: Event, k: nat)
    requires ValidEvent(e) && SucceedsAt(attempts, e, k)
    ensures e in RunAttempts([], attempts)
    decreases |attempts|
  {
    hide ValidEvent, Append;
    var n := |attempts| - 1;
    var before := RunAttempts([], attempts[..n]);
    ReachableStoreOk([], attempts[..n]);
    if k < n {
      assert attempts[..n][..k] == attempts[..k];
      SuccessStays(attempts[..n], e, k);
      AppendKeeps(before, attempts[n].event, attempts[n].expected);
    } else if e in before {
      AppendDuplicate(before, e, attempts[n].expected);
    } else {
      AppendNew(before, e, attempts[n].expected);
    }
  }

  // ----- the ingest method -----

  // Where each offered event is stored, as reported to the caller.
  ghost predicate Acknowledges(results: seq<AppendResult>, offered: seq<Event>, events: seq<Event>) {
    && |results| == |offered|
    && forall i | 0 <= i < |offered| ::
         && results[i].id == offered[i].id && 0 < results[i].sequence <= |events|
         && events[results[i].sequence - 1] == offered[i]
  }

  method Intervene(attempts: seq<Attempt>, store: EventStore)
    modifies store
    ensures store.events == RunAttempts(old(store.events), attempts)
  {
    hide Append;
    for i := 0 to |attempts|
      invariant store.events == RunAttempts(old(store.events), attempts[..i])
    {
      assert attempts[..i + 1][..i] == attempts[..i];
      var r := store.AppendEvent(attempts[i].event, attempts[i].expected);
    }
    assert attempts[..|attempts|] == attempts;
  }

  /** One event is offered with the sequence just read, and others write before and in between. */
  method OfferOne(e: Event, store: EventStore, others: Others) returns (r: Result<AppendResult, StoreError>)
    modifies store
    ensures (r, store.events) == Offered(old(store.events), e, others)
  {
    hide Append, RunAttempts;
    Intervene(others.beforeRead, store);
    var expected := store.LastSequence();
    Intervene(others.beforeAppend, store);
    r := store.AppendEvent(e, Some(expected));
  }

  /** A conflict is raised to the caller; what was appended until then stays. */
  method OfferAll(offered: seq<Event>, store: EventStore, others: seq<Others>)
      returns (r: Result<IngestResult, StoreError>)
    requires StoreOk(store.events) && AllCanonical(offered)
    modifies store
    ensures (r.Ok?, store.events) == IngestBeside(old(store.events), offered, others)
    ensures StoreOk(store.events) && old(store.events) <= store.events
    ensures r.Ok? ==> Acknowledges(r.value.appended, offered, store.events)
    ensures r.Ok? ==> r.value.status == if forall x | x in r.value.appended :: x.status == DuplicateNoop
                                        then NothingNew else Accepted
    ensures r.Ok? && others == [] ==> (r.value.status == NothingNew <==> store.events == old(store.events))
    ensures r.Err? ==> r.error == Conflict
  {
    hide *;
    NothingAcknowledged(store.events, others);
    var results: seq<AppendResult> := [];
    for i := 0 to |offered|
      invariant IngestBeside(old(store.events), offered[..i], others) == (true, store.events)
      invariant StoreOk(store.events) && old(store.events) <= store.events
      invariant Acknowledges(results, offered[..i], store.events)
      invariant others == [] ==>
                  ((forall x | x in results :: x.status == DuplicateNoop) <==> store.events == old(store.events))
    {
      ghost var before := store.events;
      assert offered[..i + 1] == offered[..i] + [offered[i]];
      CanonicalAt(offered, i);
      AloneMeans(before, offered[i], i);
      OfferMeans(before, offered[i], OthersAt(others, i));
      var result := OfferOne(offered[i], store, OthersAt(others, i));
      IngestBesideSnoc(old(store.events), offered[..i], offered[i], others);
      if result.Err? {
        StoppedStays(old(store.events), offered, others, i + 1);
        return Err(result.error);
      }
      AcknowledgeOneMore(results, offered[..i], before, store.events, result.value, offered[i]);
      results := results + [result.value];
    }
    assert offered[..|offered|] == offered;
    var duplicates := forall x | x in results :: x.status == DuplicateNoop;
    return Ok(IngestResult(if duplicates then NothingNew else Accepted, results));
  }

  lemma NothingAcknowledged(events: seq<Event>, others: seq<Others>)
    ensures IngestBeside(events, [], others) == (true, events) && Acknowledges([], [], events)
  {
  }

  lemma AcknowledgeOneMore(results: seq<AppendResult>, offered: seq<Event>, before: seq<Event>, after: seq<Event>,
                           r: AppendResult, e: Event)
    requires Acknowledges(results, offered, before) && before <= after
    requires r.id == e.id && 0 < r.sequence <= |after| && after[r.sequence - 1] == e
    ensures Acknowledges(results + [r], offered + [e], after)
  {
  }

  lemma IngestBesideSnoc(events: seq<Event>, offered: seq<Event>, e: Event, others: seq<Others>)
    ensures IngestBeside(events, offered + [e], others) ==
            var (through, before) := IngestBeside(events, offered, others);
            if !through then (false, before)
            else var (r, after) := Offered(before, e, OthersAt(others, |offered|)); (r.Ok?, after)
  {
    assert (offered + [e])[..|offered|] == offered;
  }

  lemma {:induction false} StoppedStays(events: seq<Event>, offered: seq<Event>, others: seq<Others>, n: nat)
    requires n <= |offered| && !IngestBeside(events, offered[..n], others).0
    ensures IngestBeside(events, offered, others) == IngestBeside(events, offered[..n], others)
    decreases |offered| - n
  {
    if n == |offered| {
      assert offered[..n] == offered;
    } else {
      assert offered[..n + 1][..n] == offered[..n];
      StoppedStays(events, offered, others, n + 1);
    }
  }

  /** All or nothing at validation: a quarantined payload adds no event, an accepted one is offered event by event. */
  method IngestStructuredDebrief(payload: Json, store: EventStore, others: seq<Others>)
      returns (r: Result<IngestResult, StoreError>)
    requires StoreOk(store.events)
    modifies store
    ensures Adapt(payload).None? ==> r == Ok(IngestResult(Quarantined, [])) && store.events == old(store.events)
    ensures Adapt(payload).Some? ==>
              && (r.Ok?, store.events) == IngestBeside(old(store.events), Adapt(payload).value, others)
              && (r.Ok? ==> Acknowledges(r.value.appended, Adapt(payload).value, store.events))
              && (r.Ok? ==> r.value.status != Quarantined)
              && (others == [] ==> r.Ok? && (r.value.status == NothingNew <==> store.events == old(store.events)))
    ensures StoreOk(store.events) && old(store.events) <= store.events
    ensures r.Err? ==> r.error == Conflict
  {
    hide *;
    var adapted := AdaptStructuredDebrief(payload);
    if adapted.None? {
      return Ok(IngestResult(Quarantined, []));
    }
    AdaptedEventsAreValid(payload);
    IngestAlone(store.events, adapted.value);
    r := OfferAll(adapted.value, store, others);
  }
}
