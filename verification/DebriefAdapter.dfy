/** Payloads to events: experimental/daily_debrief_adapter.py. */
module DebriefAdapter {
  import opened Wrappers
  import opened Collections
  import opened Text

  // The keys the adapter looks at. AuthorityClaim stands for each name in FORBIDDEN_AUTHORITY_KEYS.
  datatype Key =
    | SchemaKey | ProviderKey | SourceIdKey | RevisionKey | DigestKey | DateKey | ScopeKey | FindingsKey
    | FindingIdKey | LineageKey | TitleKey | DispositionKey | ConfidenceKey | ConsequenceKey | ValidationKey
    | RemainingKey | ResolvedKey
    | AuthorityClaim(name: string) | OtherKey(name: string)

  // A JSON value as Python reads it; the kind of number does not matter here.
  datatype Json =
    Null | Bool(bool) | Number(int) | Str(text: string) | List(items: seq<Json>) | Object(fields: map<Key, Json>)

  const INPUT_SCHEMA := "daily-debrief-structured/v1"
  const EVENT_SCHEMA := "daily-debrief-finding-event/v1"
  const EVENT_TYPE := "daily_debrief.finding"

  // ----- field checks -----

  /** dict.get: a missing key and an explicit null look the same. */
  function Get(o: Json, key: Key): Json {
    if o.Object? && key in o.fields then o.fields[key] else Null
  }

  /** The stripped text of a string that is not blank. */
  function NonemptyString(v: Json): Option<string> {
    if v.Str? && NonBlank(v.text) then Some(Strip(v.text)) else None
  }

  predicate IsAlphanumeric(c: char) {
    'A' <= c <= 'Z' || 'a' <= c <= 'z' || '0' <= c <= '9'
  }

  predicate IsIdentifier(s: string) {
    && 1 <= |s| <= 128 && IsAlphanumeric(s[0])
    && forall i | 0 <= i < |s| :: IsAlphanumeric(s[i]) || s[i] in {'.', '_', ':', '/', '-'}
  }

  predicate IsHexDigest(s: string) {
    |s| == 64 && forall i | 0 <= i < |s| :: '0' <= s[i] <= '9' || 'a' <= s[i] <= 'f'
  }

  function Identifier(v: Json): Option<string> {
    match NonemptyString(v)
    case None => None
    case Some(s) => if IsIdentifier(s) then Some(s) else None
  }

  function Sha256(v: Json): Option<string> {
    match NonemptyString(v)
    case None => None
    case Some(s) => if IsHexDigest(Lower(s)) then Some(Lower(s)) else None
  }

  /** The stripped identifiers of a list, when all are identifiers and no two agree. */
  function Identifiers(items: seq<Json>): Option<seq<string>> {
    if items == [] then Some([])
    else
      match (Identifiers(items[..|items| - 1]), Identifier(items[|items| - 1]))
      case (Some(ids), Some(id)) => if id in ids then None else Some(ids + [id])
      case _ => None
  }

  function IdentifierList(v: Json): Option<seq<string>> {
    match v
    case Null => Some([])
    case List(items) => (match Identifiers(items) case None => None case Some(ids) => Some(Sorted(ids)))
    case _ => None
  }

  lemma {:induction false} IdentifiersFacts(items: seq<Json>)
    requires Identifiers(items).Some?
    ensures var ids := Identifiers(items).value;
            |ids| == |items| && Distinct(ids)
            && forall i | 0 <= i < |ids| :: Identifier(items[i]) == Some(ids[i])
  {
    if items != [] {
      IdentifiersFacts(items[..|items| - 1]);
    }
  }

  method RequireIdentifierList(v: Json) returns (r: Option<seq<string>>)
    ensures r == IdentifierList(v)
    ensures r.Some? <==> IsIdList(v)
  {
    hide Identifier, DifferentIds;
    ListAcceptedIff(v);
    if v.Null? {
      return Some([]);
    }
    if !v.List? {
      return None;
    }
    var normalized: seq<string> := [];
    var seen: set<string> := {};
    for i := 0 to |v.items|
      invariant Identifiers(v.items[..i]) == Some(normalized)
      invariant seen == set id | id in normalized
    {
      assert v.items[..i + 1][..i] == v.items[..i];
      var id := Identifier(v.items[i]);
      if id.None? || id.value in seen {
        StaysRejected(v.items, i + 1);
        return None;
      }
      seen := seen + {id.value};
      normalized := normalized + [id.value];
    }
    assert v.items[..|v.items|] == v.items;
    return Some(Sorted(normalized));
  }

  lemma {:induction false} StaysRejected(items: seq<Json>, n: nat)
    requires n <= |items| && Identifiers(items[..n]).None?
    ensures Identifiers(items).None?
    decreases |items| - n
  {
    if n == |items| {
      assert items[..n] == items;
    } else {
      assert items[..n + 1][..n] == items[..n];
      StaysRejected(items, n + 1);
    }
  }

  /** No object inside v has an authority key. */
  predicate Clean(v: Json) {
    match v
    case Object(fields) =>
      && (forall k | k in fields :: !k.AuthorityClaim?)
      && forall k | k in fields :: Clean(fields[k])
    case List(items) => forall i | 0 <= i < |items| :: Clean(items[i])
    case _ => true
  }

  // ----- events -----

  // The id-list fields of a stored event: absent, an explicit null, or the listed strings.
  datatype IdField = Absent | NullList | Ids(ids: seq<string>)

  datatype Body = Body(
    schema: string, kind: string, provider: string, sourceId: string, revision: string, digest: string, date: string,
    scope: string, findingId: string, lineage: string, title: string, disposition: string, confidence: string,
    consequence: string, validation: string, remaining: IdField, resolved: IdField)

  // SHA-256 over canonical JSON, taken as injective: the digest text of a body, with whatever surrounds it.
  datatype EventId = DigestOf(left: string, body: Body, right: string) | OtherText(text: string)

  datatype Event = Event(id: EventId, body: Body)

  function ContentId(b: Body): EventId {
    DigestOf("", b, "")
  }

  function FieldIds(f: IdField): seq<string> {
    if f.Ids? then f.ids else []
  }

  function FieldJson(f: IdField): Json {
    if f.Ids? then List(seq(|f.ids|, i requires 0 <= i < |f.ids| => Str(f.ids[i]))) else Null
  }

  predicate Blank(s: string) {
    !NonBlank(s)
  }

  predicate ValidTexts(b: Body) {
    && NonBlank(b.provider) && NonBlank(b.sourceId) && NonBlank(b.revision) && NonBlank(b.date) && NonBlank(b.title)
    && NonBlank(b.disposition) && NonBlank(b.confidence) && NonBlank(b.consequence) && NonBlank(b.validation)
    && Sha256(Str(b.digest)).Some?
    && Identifier(Str(b.scope)).Some? && Identifier(Str(b.findingId)).Some? && Identifier(Str(b.lineage)).Some?
  }

  predicate DisjointIds(remaining: seq<string>, resolved: seq<string>) {
    forall id | id in remaining :: id !in resolved
  }

  predicate ValidBody(b: Body) {
    && b.schema == EVENT_SCHEMA && b.kind == EVENT_TYPE && ValidTexts(b)
    && IdentifierList(FieldJson(b.remaining)).Some? && IdentifierList(FieldJson(b.resolved)).Some?
    && DisjointIds(IdentifierList(FieldJson(b.remaining)).value, IdentifierList(FieldJson(b.resolved)).value)
  }

  /** The validator strips the id before comparing it with the digest of the rest. */
  predicate ValidEvent(e: Event) {
    ValidBody(e.body) && e.id.DigestOf? && Blank(e.id.left) && Blank(e.id.right) && e.id.body == e.body
  }

  // ----- adaptation -----

  // What validation reads out of a payload and of each finding, stripped.
  datatype Source = Source(
    provider: string, sourceId: string, revision: string, digest: string, date: string, scope: string)

  datatype Finding = Finding(
    id: string, lineage: string, title: string, disposition: string, confidence: string, consequence: string,
    validation: string, remaining: seq<string>, resolved: seq<string>)

  function ParseSource(p: Json): Option<Source> {
    if !p.Object? || Get(p, SchemaKey) != Str(INPUT_SCHEMA) || !Clean(p) then None
    else
      var provider, sourceId := NonemptyString(Get(p, ProviderKey)), NonemptyString(Get(p, SourceIdKey));
      var revision, digest := NonemptyString(Get(p, RevisionKey)), Sha256(Get(p, DigestKey));
      var date, scope := NonemptyString(Get(p, DateKey)), Identifier(Get(p, ScopeKey));
      if provider.None? || sourceId.None? || revision.None? || digest.None? || date.None? || scope.None? then None
      else Some(Source(provider.value, sourceId.value, revision.value, digest.value, date.value, scope.value))
  }

  function ParseFinding(f: Json): Option<Finding> {
    if !f.Object? || !Clean(f) then None
    else
      var id, lineage := Identifier(Get(f, FindingIdKey)), Identifier(Get(f, LineageKey));
      var title, disposition := NonemptyString(Get(f, TitleKey)), NonemptyString(Get(f, DispositionKey));
      var confidence, consequence := NonemptyString(Get(f, ConfidenceKey)), NonemptyString(Get(f, ConsequenceKey));
      var validation := NonemptyString(Get(f, ValidationKey));
      var remaining, resolved := IdentifierList(Get(f, RemainingKey)), IdentifierList(Get(f, ResolvedKey));
      if id.None? || lineage.None? || title.None? || disposition.None? || confidence.None? || consequence.None?
         || validation.None? || remaining.None? || resolved.None? then None
      else Some(Finding(id.value, lineage.value, title.value, disposition.value, confidence.value, consequence.value,
                        validation.value, remaining.value, resolved.value))
  }

  function FindingIds(findings: seq<Finding>): set<string> {
    set f | f in findings :: f.id
  }

  /** All findings are valid and no two share an id. */
  function ParseFindings(items: seq<Json>): Option<seq<Finding>> {
    if items == [] then Some([])
    else
      match (ParseFindings(items[..|items| - 1]), ParseFinding(items[|items| - 1]))
      case (Some(before), Some(f)) => if f.id in FindingIds(before) then None else Some(before + [f])
      case _ => None
  }

  function Parse(p: Json): Option<(Source, seq<Finding>)> {
    if !Get(p, FindingsKey).List? then None
    else
      match (ParseSource(p), ParseFindings(Get(p, FindingsKey).items))
      case (Some(source), Some(findings)) => Some((source, findings))
      case _ => None
  }

  method CheckFindings(items: seq<Json>) returns (r: Option<seq<Finding>>)
    ensures r == ParseFindings(items)
    ensures r.Some? <==> AreFindings(items)
  {
    hide ParseFinding, AreFindings;
    FindingsAcceptedIff(items);
    var findings: seq<Finding> := [];
    var seenFindingIds: set<string> := {};
    for i := 0 to |items|
      invariant ParseFindings(items[..i]) == Some(findings)
      invariant seenFindingIds == FindingIds(findings)
    {
      ParseOneMore(items, i);
      var finding := ParseFinding(items[i]);
      if finding.None? || finding.value.id in seenFindingIds {
        StaysInvalid(items, i + 1);
        return None;
      }
      IdsGrow(findings, finding.value);
      seenFindingIds := seenFindingIds + {finding.value.id};
      findings := findings + [finding.value];
    }
    assert items[..|items|] == items;
    return Some(findings);
  }

  lemma IdsGrow(findings: seq<Finding>, f: Finding)
    ensures FindingIds(findings + [f]) == FindingIds(findings) + {f.id}
  {
  }

  lemma ParseOneMore(items: seq<Json>, i: nat)
    requires i < |items|
    ensures ParseFindings(items[..i + 1]) ==
            match (ParseFindings(items[..i]), ParseFinding(items[i]))
            case (Some(before), Some(f)) => if f.id in FindingIds(before) then None else Some(before + [f])
            case _ => None
  {
    assert items[..i + 1][..i] == items[..i] && items[..i + 1][i] == items[i];
  }

  lemma {:induction false} StaysInvalid(items: seq<Json>, n: nat)
    requires n <= |items| && ParseFindings(items[..n]).None?
    ensures ParseFindings(items).None?
    decreases |items| - n
  {
    if n == |items| {
      assert items[..n] == items;
    } else {
      assert items[..n + 1][..n] == items[..n];
      StaysInvalid(items, n + 1);
    }
  }

  method ValidateStructuredDebrief(p: Json) returns (r: Option<(Source, seq<Finding>)>)
    ensures r == Parse(p)
    ensures r.Some? <==> IsSource(p) && Get(p, FindingsKey).List? && AreFindings(Get(p, FindingsKey).items)
  {
    hide ParseSource, IsSource, AreFindings;
    SourceAcceptedIff(p);
    var source := ParseSource(p);
    if source.None? || !Get(p, FindingsKey).List? {
      return None;
    }
    var findings := CheckFindings(Get(p, FindingsKey).items);
    if findings.None? {
      return None;
    }
    return Some((source.value, findings.value));
  }

  function BodyOf(source: Source, f: Finding): Body {
    Body(EVENT_SCHEMA, EVENT_TYPE, source.provider, source.sourceId, source.revision, source.digest, source.date,
         source.scope, f.id, f.lineage, f.title, f.disposition, f.confidence, f.consequence, f.validation,
         Ids(f.remaining), Ids(f.resolved))
  }

  /** The event of one finding, or None when a test id is listed as both remaining and resolved. */
  function EventOf(source: Source, f: Finding): Option<Event> {
    if !DisjointIds(f.remaining, f.resolved) then None
    else Some(Event(ContentId(BodyOf(source, f)), BodyOf(source, f)))
  }

  function EventsOf(source: Source, findings: seq<Finding>): Option<seq<Event>> {
    if findings == [] then Some([])
    else
      match (EventsOf(source, findings[..|findings| - 1]), EventOf(source, findings[|findings| - 1]))
      case (Some(events), Some(e)) => Some(events + [e])
      case _ => None
  }

  function Adapt(p: Json): Option<seq<Event>> {
    match Parse(p) case None => None case Some((source, findings)) => EventsOf(source, findings)
  }

  method AdaptStructuredDebrief(p: Json) returns (r: Option<seq<Event>>)
    ensures r == Adapt(p)
  {
    var parsed := ValidateStructuredDebrief(p);
    if parsed.None? {
      return None;
    }
    var (source, findings) := parsed.value;
    r := BuildEvents(source, findings);
  }

  method BuildEvents(source: Source, findings: seq<Finding>) returns (r: Option<seq<Event>>)
    ensures r == EventsOf(source, findings)
  {
    var events: seq<Event> := [];
    for i := 0 to |findings|
      invariant EventsOf(source, findings[..i]) == Some(events)
    {
      EventsOneMore(source, findings, i);
      var event := EventOf(source, findings[i]);
      if event.None? {
        StaysConflicted(source, findings, i + 1);
        return None;
      }
      events := events + [event.value];
    }
    assert findings[..|findings|] == findings;
    return Some(events);
  }

  lemma EventsOneMore(source: Source, findings: seq<Finding>, i: nat)
    requires i < |findings|
    ensures EventsOf(source, findings[..i + 1]) ==
            match (EventsOf(source, findings[..i]), EventOf(source, findings[i]))
            case (Some(events), Some(e)) => Some(events + [e])
            case _ => None
  {
    assert findings[..i + 1][..i] == findings[..i] && findings[..i + 1][i] == findings[i];
  }

  lemma {:induction false} StaysConflicted(source: Source, findings: seq<Finding>, n: nat)
    requires n <= |findings| && EventsOf(source, findings[..n]).None?
    ensures EventsOf(source, findings).None?
    decreases |findings| - n
  {
    if n == |findings| {
      assert findings[..n] == findings;
    } else {
      assert findings[..n + 1][..n] == findings[..n];
      StaysConflicted(source, findings, n + 1);
    }
  }

  // ----- every adapted event is valid -----

  /** A stripped text is accepted as it is. */
  ghost predicate Settled(s: string) {
    NonBlank(s) && Strip(s) == s
  }

  lemma NonemptyIsSettled(v: Json)
    requires NonemptyString(v).Some?
    ensures Settled(NonemptyString(v).value)
  {
    StripTrims(v.text);
    TrimmedIsFixed(Strip(v.text));
  }

  ghost predicate GoodSource(s: Source) {
    && Settled(s.provider) && Settled(s.sourceId) && Settled(s.revision) && Settled(s.date)
    && IsHexDigest(s.digest) && IsIdentifier(s.scope)
  }

  ghost predicate GoodIds(ids: seq<string>) {
    Distinct(ids) && forall i | 0 <= i < |ids| :: IsIdentifier(ids[i])
  }

  ghost predicate GoodFinding(f: Finding) {
    && IsIdentifier(f.id) && IsIdentifier(f.lineage) && Settled(f.title) && Settled(f.disposition)
    && Settled(f.confidence) && Settled(f.consequence) && Settled(f.validation)
    && GoodIds(f.remaining) && GoodIds(f.resolved)
  }

  lemma SourceIsGood(p: Json)
    requires ParseSource(p).Some?
    ensures GoodSource(ParseSource(p).value)
  {
    NonemptyIsSettled(Get(p, ProviderKey));
    NonemptyIsSettled(Get(p, SourceIdKey));
    NonemptyIsSettled(Get(p, RevisionKey));
    NonemptyIsSettled(Get(p, DateKey));
  }

  lemma FindingIsGood(f: Json)
    requires ParseFinding(f).Some?
    ensures GoodFinding(ParseFinding(f).value)
  {
    NonemptyIsSettled(Get(f, TitleKey));
    NonemptyIsSettled(Get(f, DispositionKey));
    NonemptyIsSettled(Get(f, ConfidenceKey));
    NonemptyIsSettled(Get(f, ConsequenceKey));
    NonemptyIsSettled(Get(f, ValidationKey));
    ListedAreIdentifiers(Get(f, RemainingKey));
    ListedAreIdentifiers(Get(f, ResolvedKey));
  }

  lemma IdentifierIsFixed(id: string)
    requires IsIdentifier(id)
    ensures Identifier(Str(id)) == Some(id)
  {
  }

  lemma DigestIsFixed(d: string)
    requires IsHexDigest(d)
    ensures Sha256(Str(d)) == Some(d)
  {
    assert !IsSpace(d[0]) && !IsSpace(d[63]);
    TrimmedIsFixed(d);
    assert Lower(d) == d;
  }

  lemma ListedAreIdentifiers(v: Json)
    requires IdentifierList(v).Some?
    ensures var ids := IdentifierList(v).value;
            GoodIds(ids)
  {
    if v.List? {
      var ids := Identifiers(v.items).value;
      IdentifiersFacts(v.items);
      SortedHasSame(ids);
      DistinctSorted(ids);
      forall i | 0 <= i < |Sorted(ids)| ensures IsIdentifier(Sorted(ids)[i]) {
        assert Sorted(ids)[i] in ids;
      }
    }
  }

  lemma SortedHasSame(ids: seq<string>)
    ensures forall id :: id in Sorted(ids) <==> id in ids
  {
    SortedFacts(ids);
    forall id ensures id in Sorted(ids) <==> id in ids {
      assert id in multiset(Sorted(ids)) <==> id in multiset(ids);
    }
  }

  lemma DistinctSorted(s: seq<string>)
    requires Distinct(s)
    ensures Distinct(Sorted(s))
  {
    SortedFacts(s);
    PermutedStaysDistinct(s, Sorted(s));
  }

  /** A list of distinct identifiers passes the list check again. */
  lemma {:induction false} RelistedIdentifiers(ids: seq<string>)
    requires Distinct(ids) && forall i | 0 <= i < |ids| :: IsIdentifier(ids[i])
    ensures Identifiers(FieldJson(Ids(ids)).items) == Some(ids)
  {
    if ids != [] {
      var n := |ids| - 1;
      var items := FieldJson(Ids(ids)).items;
      RelistedIdentifiers(ids[..n]);
      assert items[..n] == FieldJson(Ids(ids[..n])).items;
      IdentifierIsFixed(ids[n]);
      assert ids == ids[..n] + [ids[n]];
    }
  }

  lemma RelistedKeepsElements(ids: seq<string>)
    requires GoodIds(ids)
    ensures IdentifierList(FieldJson(Ids(ids))) == Some(Sorted(ids))
    ensures forall id :: id in Sorted(ids) <==> id in ids
  {
    RelistedIdentifiers(ids);
    SortedHasSame(ids);
  }

  /** Every event of an accepted payload is valid, named by its content, and lists its test ids. */
  ghost predicate Canonical(e: Event) {
    ValidEvent(e) && e.id == ContentId(e.body) && e.body.remaining.Ids? && e.body.resolved.Ids?
  }

  ghost predicate AllCanonical(events: seq<Event>) {
    forall i | 0 <= i < |events| :: Canonical(events[i])
  }

  lemma TextsAreValid(source: Source, f: Finding)
    requires GoodSource(source) && GoodFinding(f)
    ensures ValidTexts(BodyOf(source, f))
  {
    DigestIsFixed(source.digest);
    IdentifierIsFixed(source.scope);
    IdentifierIsFixed(f.id);
    IdentifierIsFixed(f.lineage);
  }

  lemma EventIsCanonical(source: Source, f: Finding)
    requires GoodSource(source) && GoodFinding(f) && EventOf(source, f).Some?
    ensures Canonical(EventOf(source, f).value)
  {
    TextsAreValid(source, f);
    RelistedKeepsElements(f.remaining);
    RelistedKeepsElements(f.resolved);
  }

  lemma CanonicalSnoc(events: seq<Event>, e: Event)
    requires AllCanonical(events) && Canonical(e)
    ensures AllCanonical(events + [e])
  {
  }

  lemma CanonicalAt(events: seq<Event>, i: nat)
    requires AllCanonical(events) && i < |events|
    ensures ValidEvent(events[i])
  {
  }

  lemma {:induction false} EventsAreCanonical(source: Source, items: seq<Json>)
    requires GoodSource(source) && ParseFindings(items).Some? && EventsOf(source, ParseFindings(items).value).Some?
    ensures AllCanonical(EventsOf(source, ParseFindings(items).value).value)
    ensures |EventsOf(source, ParseFindings(items).value).value| == |items|
  {
    hide AllCanonical, GoodSource, GoodFinding, EventOf, ParseFinding;
    if items == [] {
      NothingIsCanonical();
    } else {
      var n := |items| - 1;
      var findings := ParseFindings(items).value;
      var f := findings[|findings| - 1];
      assert findings[..|findings| - 1] == ParseFindings(items[..n]).value;
      EventsAreCanonical(source, items[..n]);
      FindingIsGood(items[n]);
      EventIsCanonical(source, f);
      CanonicalSnoc(EventsOf(source, findings[..|findings| - 1]).value, EventOf(source, f).value);
    }
  }

  lemma NothingIsCanonical()
    ensures AllCanonical([])
  {
  }

  lemma {:induction false} EventsAreDistinct(source: Source, items: seq<Json>)
    requires ParseFindings(items).Some? && EventsOf(source, ParseFindings(items).value).Some?
    ensures Distinct(EventsOf(source, ParseFindings(items).value).value)
    ensures forall e | e in EventsOf(source, ParseFindings(items).value).value ::
              e.body.findingId in FindingIds(ParseFindings(items).value)
  {
    if items != [] {
      var n := |items| - 1;
      var findings := ParseFindings(items).value;
      assert findings[..|findings| - 1] == ParseFindings(items[..n]).value;
      EventsAreDistinct(source, items[..n]);
      var before := EventsOf(source, findings[..|findings| - 1]).value;
      var e := EventOf(source, findings[|findings| - 1]).value;
      assert e.body.findingId == findings[|findings| - 1].id;
      assert EventsOf(source, findings).value == before + [e];
    }
  }

  /** All-or-nothing: an accepted payload yields one valid, canonical event per finding, all different. */
  lemma AdaptedEventsAreValid(p: Json)
    requires Adapt(p).Some?
    ensures AllCanonical(Adapt(p).value) && Distinct(Adapt(p).value)
    ensures |Adapt(p).value| == |Get(p, FindingsKey).items|
  {
    var (source, findings) := Parse(p).value;
    SourceIsGood(p);
    EventsAreCanonical(source, Get(p, FindingsKey).items);
    EventsAreDistinct(source, Get(p, FindingsKey).items);
  }

  // ----- which payloads are accepted -----

  predicate IsText(v: Json) {
    v.Str? && NonBlank(v.text)
  }

  predicate IsId(v: Json) {
    v.Str? && IsIdentifier(Strip(v.text))
  }

  predicate IsDigest(v: Json) {
    v.Str? && IsHexDigest(Lower(Strip(v.text)))
  }

  /** Identifiers, no two of them the same once stripped. */
  ghost predicate DifferentIds(items: seq<Json>) {
    && (forall i | 0 <= i < |items| :: IsId(items[i]))
    && forall i, j | 0 <= i < j < |items| :: Strip(items[i].text) != Strip(items[j].text)
  }

  ghost predicate IsIdList(v: Json) {
    v.Null? || (v.List? && DifferentIds(v.items))
  }

  ghost predicate IsFinding(f: Json) {
    && f.Object? && Clean(f) && IsId(Get(f, FindingIdKey)) && IsId(Get(f, LineageKey))
    && IsText(Get(f, TitleKey)) && IsText(Get(f, DispositionKey)) && IsText(Get(f, ConfidenceKey))
    && IsText(Get(f, ConsequenceKey)) && IsText(Get(f, ValidationKey))
    && IsIdList(Get(f, RemainingKey)) && IsIdList(Get(f, ResolvedKey))
  }

  ghost predicate IsSource(p: Json) {
    && p.Object? && Get(p, SchemaKey) == Str(INPUT_SCHEMA) && Clean(p)
    && IsText(Get(p, ProviderKey)) && IsText(Get(p, SourceIdKey)) && IsText(Get(p, RevisionKey))
    && IsDigest(Get(p, DigestKey)) && IsText(Get(p, DateKey)) && IsId(Get(p, ScopeKey))
  }

  ghost predicate AreFindings(items: seq<Json>) {
    && (forall i | 0 <= i < |items| :: IsFinding(items[i]))
    && forall i, j | 0 <= i < j < |items| ::
         Strip(Get(items[i], FindingIdKey).text) != Strip(Get(items[j], FindingIdKey).text)
  }

  /** No test id is listed both as remaining and as resolved. */
  ghost predicate ListsApart(f: Json) {
    Get(f, RemainingKey).List? && Get(f, ResolvedKey).List? ==>
      forall x, y | x in Get(f, RemainingKey).items && y in Get(f, ResolvedKey).items && x.Str? && y.Str? ::
        Strip(x.text) != Strip(y.text)
  }

  lemma FieldAcceptedIff(v: Json)
    ensures NonemptyString(v).Some? <==> IsText(v)
    ensures Identifier(v).Some? <==> IsId(v)
    ensures IsId(v) ==> v.Str?
    ensures Identifier(v).Some? ==> Identifier(v).value == Strip(v.text)
    ensures Sha256(v).Some? <==> IsDigest(v)
  {
    if v.Str? {
      StripTrims(v.text);
    }
  }

  /** A list of test ids is accepted exactly when it is missing or holds identifiers that differ once stripped. */
  lemma {:induction false} IdentifiersAcceptedIff(items: seq<Json>)
    ensures Identifiers(items).Some? <==> DifferentIds(items)
  {
    hide Identifier, NonemptyString, IsIdentifier, IsId, Strip;
    if items != [] {
      var n := |items| - 1;
      var init, last := items[..n], items[n];
      IdentifiersAcceptedIff(init);
      FieldAcceptedIff(last);
      if DifferentIds(init) && IsId(last) {
        IdentifiersFacts(init);
        var ids := Identifiers(init).value;
        forall i | 0 <= i < n ensures items[i].Str? && ids[i] == Strip(items[i].text) {
          FieldAcceptedIff(init[i]);
        }
      }
      assert DifferentIds(items) ==> DifferentIds(init);
    }
  }

  lemma ListAcceptedIff(v: Json)
    ensures IdentifierList(v).Some? <==> IsIdList(v)
  {
    if v.List? {
      IdentifiersAcceptedIff(v.items);
    }
  }

  lemma FindingAcceptedIff(f: Json)
    ensures ParseFinding(f).Some? <==> IsFinding(f)
    ensures ParseFinding(f).Some? ==> Get(f, FindingIdKey).Str?
                                      && ParseFinding(f).value.id == Strip(Get(f, FindingIdKey).text)
  {
    hide IsText, IsId, IsIdList, IdentifierList, Identifier, NonemptyString, Clean;
    FieldAcceptedIff(Get(f, FindingIdKey));
    FieldAcceptedIff(Get(f, LineageKey));
    FieldAcceptedIff(Get(f, TitleKey));
    FieldAcceptedIff(Get(f, DispositionKey));
    FieldAcceptedIff(Get(f, ConfidenceKey));
    FieldAcceptedIff(Get(f, ConsequenceKey));
    FieldAcceptedIff(Get(f, ValidationKey));
    ListAcceptedIff(Get(f, RemainingKey));
    ListAcceptedIff(Get(f, ResolvedKey));
  }

  lemma SourceAcceptedIff(p: Json)
    ensures ParseSource(p).Some? <==> IsSource(p)
  {
    hide IsText, IsId, IsDigest, Identifier, NonemptyString, Sha256, Clean;
    FieldAcceptedIff(Get(p, ProviderKey));
    FieldAcceptedIff(Get(p, SourceIdKey));
    FieldAcceptedIff(Get(p, RevisionKey));
    FieldAcceptedIff(Get(p, DigestKey));
    FieldAcceptedIff(Get(p, DateKey));
    FieldAcceptedIff(Get(p, ScopeKey));
  }

  /** Findings are accepted exactly when each is well-formed and no two share an id. */
  lemma {:induction false} FindingsAcceptedIff(items: seq<Json>)
    ensures ParseFindings(items).Some? <==> AreFindings(items)
    ensures ParseFindings(items).Some? ==>
              forall id :: id in FindingIds(ParseFindings(items).value) <==>
                           exists i | 0 <= i < |items| :: FindingIdIs(items[i], id)
  {
    hide ParseFinding, IsFinding, Get, Strip;
    if items != [] {
      var n := |items| - 1;
      var init, last := items[..n], items[n];
      FindingsAcceptedIff(init);
      FindingAcceptedIff(last);
      assert AreFindings(items) ==> AreFindings(init);
      if AreFindings(init) && IsFinding(last) {
        forall i | 0 <= i < n ensures init[i] == items[i] && Get(items[i], FindingIdKey).Str? {
          FindingAcceptedIff(init[i]);
        }
        IdsGrow(ParseFindings(init).value, ParseFinding(last).value);
        assert FindingIdIs(last, ParseFinding(last).value.id);
      }
    }
  }

  ghost predicate FindingIdIs(f: Json, id: string) {
    Get(f, FindingIdKey).Str? && Strip(Get(f, FindingIdKey).text) == id
  }

  // ----- an event says what its finding said -----

  /** The field is a string, and text is what stripping leaves of it. */
  ghost predicate Says(o: Json, key: Key, text: string) {
    Get(o, key).Str? && text == Strip(Get(o, key).text)
  }

  /** The field lists exactly these test ids, up to surrounding white space; a missing list lists none. */
  ghost predicate Lists(o: Json, key: Key, field: IdField) {
    && field.Ids? && (Get(o, key).Null? ==> field.ids == [])
    && (Get(o, key).List? ==>
          forall id :: id in field.ids <==>
                       exists j :: 0 <= j < |Get(o, key).items| && Get(o, key).items[j].Str?
                                   && Strip(Get(o, key).items[j].text) == id)
  }

  ghost predicate SaysFinding(f: Json, b: Body) {
    && Says(f, FindingIdKey, b.findingId) && Says(f, LineageKey, b.lineage) && Says(f, TitleKey, b.title)
    && Says(f, DispositionKey, b.disposition) && Says(f, ConfidenceKey, b.confidence)
    && Says(f, ConsequenceKey, b.consequence) && Says(f, ValidationKey, b.validation)
    && Lists(f, RemainingKey, b.remaining) && Lists(f, ResolvedKey, b.resolved)
  }

  ghost predicate SaysSource(p: Json, b: Body) {
    && Says(p, ProviderKey, b.provider) && Says(p, SourceIdKey, b.sourceId) && Says(p, RevisionKey, b.revision)
    && Says(p, DateKey, b.date) && Says(p, ScopeKey, b.scope)
    && Get(p, DigestKey).Str? && b.digest == Lower(Strip(Get(p, DigestKey).text))
  }

  lemma ListedAsGiven(o: Json, key: Key)
    requires IdentifierList(Get(o, key)).Some?
    ensures Lists(o, key, Ids(IdentifierList(Get(o, key)).value))
  {
    if Get(o, key).List? {
      var items := Get(o, key).items;
      var ids := Identifiers(items).value;
      IdentifiersFacts(items);
      SortedHasSame(ids);
      forall id ensures id in ids <==> exists j :: 0 <= j < |items| && items[j].Str? && Strip(items[j].text) == id {
        if id in ids {
          var j :| 0 <= j < |ids| && ids[j] == id;
          assert Identifier(items[j]) == Some(id);
        }
        if j :| 0 <= j < |items| && items[j].Str? && Strip(items[j].text) == id {
          assert Identifier(items[j]) == Some(ids[j]);
        }
      }
    }
  }

  lemma ApartIffDisjoint(f: Json)
    requires ParseFinding(f).Some?
    ensures ListsApart(f) <==> DisjointIds(ParseFinding(f).value.remaining, ParseFinding(f).value.resolved)
  {
    hide IdentifierList, Clean, Identifier, NonemptyString;
    var remaining, resolved := Get(f, RemainingKey), Get(f, ResolvedKey);
    ListAcceptedIff(remaining);
    ListAcceptedIff(resolved);
    ListedAsGiven(f, RemainingKey);
    ListedAsGiven(f, ResolvedKey);
    if remaining.List? && resolved.List? {
      ApartIffNoneShared(f, ParseFinding(f).value.remaining, ParseFinding(f).value.resolved);
    }
  }

  lemma ApartIffNoneShared(f: Json, remaining: seq<string>, resolved: seq<string>)
    requires Get(f, RemainingKey).List? && Get(f, ResolvedKey).List?
    requires Lists(f, RemainingKey, Ids(remaining)) && Lists(f, ResolvedKey, Ids(resolved))
    ensures ListsApart(f) <==> DisjointIds(remaining, resolved)
  {
    var xs, ys := Get(f, RemainingKey).items, Get(f, ResolvedKey).items;
    if ListsApart(f) {
      forall id | id in remaining ensures id !in resolved {
        var i :| 0 <= i < |xs| && xs[i].Str? && Strip(xs[i].text) == id;
        assert xs[i] in xs;
      }
    }
    if DisjointIds(remaining, resolved) {
      forall x, y | x in xs && y in ys && x.Str? && y.Str? ensures Strip(x.text) != Strip(y.text) {
        assert Strip(x.text) in remaining;
        assert Strip(y.text) in resolved;
      }
    }
  }

  lemma {:induction false} EventsBuildIff(source: Source, items: seq<Json>)
    requires ParseFindings(items).Some?
    ensures EventsOf(source, ParseFindings(items).value).Some? <==> forall i | 0 <= i < |items| :: ListsApart(items[i])
  {
    hide ParseFinding, ListsApart, BodyOf, DisjointIds;
    if items != [] {
      var n := |items| - 1;
      var findings := ParseFindings(items).value;
      assert findings[..|findings| - 1] == ParseFindings(items[..n]).value;
      EventsBuildIff(source, items[..n]);
      ApartIffDisjoint(items[n]);
      assert forall i | 0 <= i < n :: items[..n][i] == items[i];
    }
  }

  /**
   * A payload becomes events exactly when its source fields are in order, its findings are well-formed with ids that
   * differ, and no finding lists a test id on both sides.
   */
  lemma AdaptedExactlyWhen(p: Json)
    ensures Adapt(p).Some? <==>
            && IsSource(p) && Get(p, FindingsKey).List? && AreFindings(Get(p, FindingsKey).items)
            && forall f | f in Get(p, FindingsKey).items :: ListsApart(f)
  {
    hide ParseSource, IsSource, ParseFindings, AreFindings, ListsApart, EventsOf;
    SourceAcceptedIff(p);
    if Get(p, FindingsKey).List? {
      var items := Get(p, FindingsKey).items;
      FindingsAcceptedIff(items);
      if ParseSource(p).Some? && ParseFindings(items).Some? {
        EventsBuildIff(ParseSource(p).value, items);
      }
    }
  }

  lemma EventSaysFinding(source: Source, f: Json)
    requires ParseFinding(f).Some? && EventOf(source, ParseFinding(f).value).Some?
    ensures SaysFinding(f, EventOf(source, ParseFinding(f).value).value.body)
  {
    hide Lists, IdentifierList;
    ListedAsGiven(f, RemainingKey);
    ListedAsGiven(f, ResolvedKey);
  }

  lemma EventSaysSource(p: Json, f: Finding)
    requires ParseSource(p).Some? && EventOf(ParseSource(p).value, f).Some?
    ensures SaysSource(p, EventOf(ParseSource(p).value, f).value.body)
  {
  }

  lemma {:induction false} EventAt(source: Source, items: seq<Json>, i: nat)
    requires ParseFindings(items).Some? && EventsOf(source, ParseFindings(items).value).Some? && i < |items|
    ensures var events := EventsOf(source, ParseFindings(items).value).value;
            && |events| == |items| && ParseFinding(items[i]).Some?
            && Some(events[i]) == EventOf(source, ParseFinding(items[i]).value)
  {
    hide EventOf, ParseFinding;
    var n := |items| - 1;
    var findings := ParseFindings(items).value;
    assert findings[..|findings| - 1] == ParseFindings(items[..n]).value;
    if i < n {
      EventAt(source, items[..n], i);
    } else if n > 0 {
      EventAt(source, items[..n], 0);
    }
  }

  /** The i-th event carries the i-th finding and the payload's own source fields. */
  lemma AdaptedSaysWhatWasFound(p: Json, i: nat)
    requires Adapt(p).Some? && i < |Get(p, FindingsKey).items|
    ensures i < |Adapt(p).value|
    ensures SaysFinding(Get(p, FindingsKey).items[i], Adapt(p).value[i].body)
    ensures SaysSource(p, Adapt(p).value[i].body)
  {
    hide ParseSource, ParseFinding, EventOf, SaysFinding, SaysSource;
    var items := Get(p, FindingsKey).items;
    var (source, findings) := Parse(p).value;
    EventAt(source, items, i);
    EventSaysFinding(source, items[i]);
    EventSaysSource(p, ParseFinding(items[i]).value);
  }

  lemma NamedInBoth(a: seq<Json>, b: seq<Json>, id: string)
    requires Identifiers(a).Some? && Identifiers(b).Some? && multiset(a) == multiset(b)
    requires id in Identifiers(a).value
    ensures id in Identifiers(b).value
  {
    IdentifiersFacts(a);
    IdentifiersFacts(b);
    var x, y := Identifiers(a).value, Identifiers(b).value;
    var i :| 0 <= i < |x| && x[i] == id;
    assert a[i] in multiset(a);
    assert a[i] in multiset(b);
    var j :| 0 <= j < |b| && b[j] == a[i];
    assert y[j] == id;
  }

  /** Listing the same test ids in another order normalizes to the same list, hence to the same event and id. */
  lemma ListOrderIsForgotten(a: seq<Json>, b: seq<Json>)
    requires IdentifierList(List(a)).Some? && IdentifierList(List(b)).Some? && multiset(a) == multiset(b)
    ensures IdentifierList(List(a)) == IdentifierList(List(b))
  {
    hide Identifiers;
    IdentifiersFacts(a);
    IdentifiersFacts(b);
    var x, y := Identifiers(a).value, Identifiers(b).value;
    forall id ensures multiset(x)[id] == multiset(y)[id] {
      CountsOnce(x, id);
      CountsOnce(y, id);
      if id in x {
        NamedInBoth(a, b, id);
      }
      if id in y {
        NamedInBoth(b, a, id);
      }
    }
    SortedIgnoresOrder(x, y);
  }
}
