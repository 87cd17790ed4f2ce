/** The cognition receipt builder and its validator: cognition_receipt.py. */
module Receipts {
  import opened Wrappers
  import Trajectory

  // A name carried by an event payload: a derived packet id, any other text, or an explicit null.
  datatype Name = Packet(id: Trajectory.PacketId) | Text(text: string) | Null

  // An event type with the payload fields the validator looks at; None is an absent field.
  datatype Kind =
    | IntentReceived | IntentClassified
    | ScopeConsidered(scope: Option<Name>) | ScopeResolved(scope: Option<Name>)
    | AuthorityConsidered(authority: Option<Name>) | AuthoritySelected(authority: Option<Name>)
    | PacketConsidered(packet: Option<Name>) | PacketSelected(packet: Option<Name>)
    | PacketRejected(packet: Option<Name>)
    | ConflictDetected | ConflictResolutionProposed
    | PacketComposed(context: Option<Name>, packets: seq<Name>)
    | AnswerGenerated(context: Option<Name>)
    | OutcomeObserved | ExecutionRequested | EligibilityEvaluated
    | ToolInvoked(tool: Option<Name>) | ToolCompleted(tool: Option<Name>) | ToolFailed(tool: Option<Name>)
    | ToolBlocked | ReceiptCreated | UnknownKind

  datatype Evidence = Evidence(id: Name, embedsRecord: bool, transfersAuthority: bool)

  datatype Content = Content(
    sequence: int, kind: Kind, at: string, actor: string, scope: string, evidence: seq<Evidence>)

  // The id is SHA-256 of the content, taken as injective.
  datatype EventId = EventId(content: Content)

  datatype Event = Event(content: Content, id: EventId)

  datatype Mode = ReadOnly | Simulation | Replay | Write | OtherMode(text: string)

  datatype Status = Completed | Failed | Blocked | ApprovalRequired | OtherStatus

  datatype Receipt = Receipt(
    scope: string, mode: Mode, status: Status, events: seq<Event>, claimsEffects: bool, transfersAuthority: bool)

  datatype ReceiptError =
    | EmptyMode | UnsupportedStatus | UnsupportedMode | ClaimsEffects | TransfersAuthority
    | BrokenSequence | ForeignScope | UnknownEvent | WrongId | DuplicateId
    | NotConsidered | NotSelected | NotComposed | NotInvoked
    | NoIntent | AnswerWithoutPacket | ManyTerminals

  // ----- what a valid receipt is -----

  // A fact that an event establishes for the events after it.
  datatype Fact =
    Scope(n: Name) | Authority(n: Name) | Seen(n: Name) | Chosen(n: Name) | Context(n: Name) | Tool(n: Name)

  function OrEmpty(n: Option<Name>): Name {
    if n.Some? then n.value else Text([])
  }

  /** payload.get(key): what a resolution, decision, answer or tool end looks up when it leaves its name out. */
  function OrNull(n: Option<Name>): Name {
    if n.Some? then n.value else Null
  }

  function Provides(k: Kind): Option<Fact> {
    match k
    case ScopeConsidered(n) => Some(Scope(OrEmpty(n)))
    case AuthorityConsidered(n) => Some(Authority(OrEmpty(n)))
    case PacketConsidered(n) => Some(Seen(OrEmpty(n)))
    case PacketSelected(n) => Some(Chosen(OrNull(n)))
    case PacketComposed(n, _) => Some(Context(OrEmpty(n)))
    case ToolInvoked(n) => Some(Tool(OrEmpty(n)))
    case _ => None
  }

  ghost predicate Provided(before: seq<Kind>, f: Fact) {
    exists j :: 0 <= j < |before| && Provides(before[j]) == Some(f)
  }

  /** What event k relies on was established by an earlier event. */
  ghost predicate Grounded(before: seq<Kind>, k: Kind) {
    match k
    case ScopeResolved(n) => Provided(before, Scope(OrNull(n)))
    case AuthoritySelected(n) => Provided(before, Authority(OrNull(n)))
    case PacketSelected(n) => Provided(before, Seen(OrNull(n)))
    case PacketRejected(n) => Provided(before, Seen(OrNull(n)))
    case PacketComposed(_, ps) => forall p | p in ps :: Provided(before, Chosen(p))
    case AnswerGenerated(n) => Provided(before, Context(OrNull(n)))
    case ToolCompleted(n) => Provided(before, Tool(OrNull(n)))
    case ToolFailed(n) => Provided(before, Tool(OrNull(n)))
    case UnknownKind => false
    case _ => true
  }

  ghost predicate AllGrounded(ks: seq<Kind>) {
    forall i | 0 <= i < |ks| :: Grounded(ks[..i], ks[i])
  }

  predicate IsTerminal(k: Kind) {
    k.ToolCompleted? || k.ToolFailed? || k.ToolBlocked?
  }

  function Terminals(ks: seq<Kind>): nat {
    if ks == [] then 0 else Terminals(ks[..|ks| - 1]) + if IsTerminal(ks[|ks| - 1]) then 1 else 0
  }

  function Kinds(es: seq<Event>): (ks: seq<Kind>)
    ensures |ks| == |es| && forall i | 0 <= i < |es| :: ks[i] == es[i].content.kind
  {
    seq(|es|, i requires 0 <= i < |es| => es[i].content.kind)
  }

  /** Numbered from zero, of one scope, with ids that match the contents. */
  predicate Sealed(es: seq<Event>, scope: string) {
    forall i | 0 <= i < |es| ::
      es[i].content.sequence == i && es[i].content.scope == scope && es[i].id == EventId(es[i].content)
  }

  predicate HeaderOk(r: Receipt) {
    && r.mode != OtherMode([]) && !r.status.OtherStatus?
    && (r.mode.OtherMode? ==> r.status.Blocked? || r.status.ApprovalRequired?)
    && !r.claimsEffects && !r.transfersAuthority
  }

  ghost predicate ValidReceipt(r: Receipt) {
    && HeaderOk(r) && Sealed(r.events, r.scope) && AllGrounded(Kinds(r.events))
    && IntentReceived in Kinds(r.events) && Terminals(Kinds(r.events)) <= 1
  }

  // ----- small facts about facts -----

  lemma ProvidedAfter(before: seq<Kind>, k: Kind, f: Fact)
    ensures Provided(before + [k], f) <==> Provided(before, f) || Provides(k) == Some(f)
  {
    if Provided(before, f) {
      var j :| 0 <= j < |before| && Provides(before[j]) == Some(f);
      assert (before + [k])[j] == before[j];
    }
    if Provides(k) == Some(f) {
      assert (before + [k])[|before|] == k;
    }
  }

  lemma GroundedAfter(ks: seq<Kind>, k: Kind)
    ensures AllGrounded(ks + [k]) <==> AllGrounded(ks) && Grounded(ks, k)
  {
    var all := ks + [k];
    assert all[..|ks|] == ks && all[|ks|] == k;
    forall i | 0 <= i < |ks| ensures all[..i] == ks[..i] && all[i] == ks[i] {
    }
    if AllGrounded(all) {
      forall i | 0 <= i < |ks| ensures Grounded(ks[..i], ks[i]) {
        assert Grounded(all[..i], all[i]);
      }
      assert Grounded(all[..|ks|], all[|ks|]);
    }
  }

  lemma AnswersFollowPackets(ks: seq<Kind>, i: nat)
    requires AllGrounded(ks) && i < |ks| && ks[i].AnswerGenerated?
    ensures exists j :: 0 <= j < |ks| && ks[j].PacketComposed?
  {
  }

  lemma BreaksAll(ks: seq<Kind>, i: nat)
    requires i < |ks| && !Grounded(ks[..i], ks[i])
    ensures !AllGrounded(ks)
  {
  }

  /** An earlier event of this kind names n; one that names nothing stands for the empty text. */
  ghost predicate Named(before: seq<Kind>, named: Kind, unnamed: Kind, n: Name) {
    named in before || (n == Text("") && unnamed in before)
  }

  /** What resolutions, selections and tool ends need before them, in terms of the events themselves. */
  lemma GroundedByName(before: seq<Kind>, m: Option<Name>)
    ensures var n := if m.Some? then m.value else Null;
            && (Grounded(before, ScopeResolved(m)) <==>
                Named(before, ScopeConsidered(Some(n)), ScopeConsidered(None), n))
            && (Grounded(before, AuthoritySelected(m)) <==>
                Named(before, AuthorityConsidered(Some(n)), AuthorityConsidered(None), n))
            && (Grounded(before, PacketSelected(m)) <==>
                Named(before, PacketConsidered(Some(n)), PacketConsidered(None), n))
            && (Grounded(before, PacketRejected(m)) <==>
                Named(before, PacketConsidered(Some(n)), PacketConsidered(None), n))
            && (Grounded(before, ToolCompleted(m)) <==> Named(before, ToolInvoked(Some(n)), ToolInvoked(None), n))
            && (Grounded(before, ToolFailed(m)) <==> Named(before, ToolInvoked(Some(n)), ToolInvoked(None), n))
  {
    hide Provided, Named;
    var n := OrNull(m);
    NameIsProvided(before, Scope(n), ScopeConsidered(Some(n)), ScopeConsidered(None), n);
    NameIsProvided(before, Authority(n), AuthorityConsidered(Some(n)), AuthorityConsidered(None), n);
    NameIsProvided(before, Seen(n), PacketConsidered(Some(n)), PacketConsidered(None), n);
    NameIsProvided(before, Tool(n), ToolInvoked(Some(n)), ToolInvoked(None), n);
  }

  /** An earlier selection of p; one that names nothing selects null. */
  ghost predicate SelectedBefore(before: seq<Kind>, p: Name) {
    PacketSelected(Some(p)) in before || (p == Null && PacketSelected(None) in before)
  }

  /**
   * A composition needs the selections of all its packets, an answer the composition of its context; one of an unknown
   * kind never passes, and the others need nothing.
   */
  lemma GroundedMeans(before: seq<Kind>, k: Kind)
    ensures k.PacketComposed? ==> (Grounded(before, k) <==> forall p | p in k.packets :: SelectedBefore(before, p))
    ensures k.AnswerGenerated? ==>
              (Grounded(before, k) <==> ComposedBefore(before, if k.context.Some? then k.context.value else Null))
    ensures k.UnknownKind? ==> !Grounded(before, k)
    ensures Independent(k) ==> Grounded(before, k)
  {
    if k.PacketComposed? {
      forall p ensures Provided(before, Chosen(p)) <==> SelectedBefore(before, p) {
        ChosenIsSelected(before, p);
      }
    } else if k.AnswerGenerated? {
      ContextIsComposed(before, OrNull(k.context));
    }
  }

  /** An earlier composition of the context n; one that names nothing stands for the empty text. */
  ghost predicate ComposedBefore(before: seq<Kind>, n: Name) {
    exists c: Option<Name>, ps :: PacketComposed(c, ps) in before && (c == Some(n) || (c == None && n == Text("")))
  }

  /**
   * A decision that leaves its packet out is not always refused: it stands for null, and passes exactly when a packet
   * of the name null was considered before.
   */
  lemma MissingNameIsNull(before: seq<Kind>)
    ensures Grounded(before, PacketSelected(None)) <==> PacketConsidered(Some(Null)) in before
  {
    GroundedByName(before, None);
  }

  ghost predicate Independent(k: Kind) {
    || k.IntentReceived? || k.IntentClassified? || k.ScopeConsidered? || k.AuthorityConsidered? || k.PacketConsidered?
    || k.ConflictDetected? || k.ConflictResolutionProposed? || k.OutcomeObserved? || k.ExecutionRequested?
    || k.EligibilityEvaluated? || k.ToolInvoked? || k.ToolBlocked? || k.ReceiptCreated?
  }

  lemma NameIsProvided(before: seq<Kind>, f: Fact, named: Kind, unnamed: Kind, n: Name)
    requires forall k :: Provides(k) == Some(f) <==> k == named || (n == Text("") && k == unnamed)
    ensures Provided(before, f) <==> Named(before, named, unnamed, n)
  {
    if Provided(before, f) {
      var j :| 0 <= j < |before| && Provides(before[j]) == Some(f);
      assert before[j] in before;
    }
    if Named(before, named, unnamed, n) {
      var k := if named in before then named else unnamed;
      var j :| 0 <= j < |before| && before[j] == k;
    }
  }

  lemma ChosenIsSelected(before: seq<Kind>, p: Name)
    ensures Provided(before, Chosen(p)) <==> SelectedBefore(before, p)
  {
    if Provided(before, Chosen(p)) {
      var j :| 0 <= j < |before| && Provides(before[j]) == Some(Chosen(p));
      assert before[j] in before;
    }
    if SelectedBefore(before, p) {
      var k := PacketSelected(if PacketSelected(Some(p)) in before then Some(p) else None);
      var j :| 0 <= j < |before| && before[j] == k;
    }
  }

  lemma ContextIsComposed(before: seq<Kind>, n: Name)
    ensures Provided(before, Context(n)) <==> ComposedBefore(before, n)
  {
    if Provided(before, Context(n)) {
      var j :| 0 <= j < |before| && Provides(before[j]) == Some(Context(n));
      assert before[j] == PacketComposed(before[j].context, before[j].packets) && before[j] in before;
    }
    if c: Option<Name>, qs :| PacketComposed(c, qs) in before && (c == Some(n) || (c == None && n == Text(""))) {
      var j :| 0 <= j < |before| && before[j] == PacketComposed(c, qs);
    }
  }

  // ----- the validator -----

  // The sets the validator keeps while it walks the events.
  datatype Ledger = Ledger(
    scopes: set<Name>, authorities: set<Name>, seen: set<Name>, chosen: set<Name>, contexts: set<Name>,
    tools: set<Name>)

  predicate Holds(l: Ledger, f: Fact) {
    match f
    case Scope(n) => n in l.scopes
    case Authority(n) => n in l.authorities
    case Seen(n) => n in l.seen
    case Chosen(n) => n in l.chosen
    case Context(n) => n in l.contexts
    case Tool(n) => n in l.tools
  }

  ghost predicate Reflects(l: Ledger, before: seq<Kind>) {
    forall f: Fact :: Holds(l, f) <==> Provided(before, f)
  }

  /** One event's branch of the validator: it passes exactly when the event is grounded. */
  method CheckEvent(l: Ledger, k: Kind, ghost before: seq<Kind>) returns (error: Option<ReceiptError>, next: Ledger)
    requires Reflects(l, before)
    ensures error.None? <==> Grounded(before, k)
    ensures error.None? ==> Reflects(next, before + [k])
    ensures error != Some(DuplicateId) && error != Some(AnswerWithoutPacket)
  {
    next := l;
    error := None;
    match k {
      case ScopeConsidered(n) => next := l.(scopes := l.scopes + {OrEmpty(n)});
      case ScopeResolved(n) => error := Unless(OrNull(n) in l.scopes, NotConsidered);
      case AuthorityConsidered(n) => next := l.(authorities := l.authorities + {OrEmpty(n)});
      case AuthoritySelected(n) => error := Unless(OrNull(n) in l.authorities, NotConsidered);
      case PacketConsidered(n) => next := l.(seen := l.seen + {OrEmpty(n)});
      case PacketSelected(n) =>
        error := Unless(OrNull(n) in l.seen, NotConsidered);
        next := l.(chosen := l.chosen + {OrNull(n)});
      case PacketRejected(n) => error := Unless(OrNull(n) in l.seen, NotConsidered);
      case PacketComposed(n, ps) =>
        error := Unless(forall p | p in ps :: p in l.chosen, NotSelected);
        next := l.(contexts := l.contexts + {OrEmpty(n)});
      case AnswerGenerated(n) => error := Unless(OrNull(n) in l.contexts, NotComposed);
      case ToolInvoked(n) => next := l.(tools := l.tools + {OrEmpty(n)});
      case ToolCompleted(n) => error := Unless(OrNull(n) in l.tools, NotInvoked);
      case ToolFailed(n) => error := Unless(OrNull(n) in l.tools, NotInvoked);
      case UnknownKind => error := Some(UnknownEvent);
      case _ =>
    }
    ReadsLedger(l, before, k);
    forall f: Fact ensures Holds(next, f) <==> Holds(l, f) || Provides(k) == Some(f) {
    }
    forall f: Fact ensures Provided(before + [k], f) <==> Provided(before, f) || Provides(k) == Some(f) {
      ProvidedAfter(before, k, f);
    }
  }

  function Unless(ok: bool, e: ReceiptError): Option<ReceiptError> {
    if ok then None else Some(e)
  }

  predicate Cleared(l: Ledger, k: Kind) {
    match k
    case ScopeResolved(n) => Holds(l, Scope(OrNull(n)))
    case AuthoritySelected(n) => Holds(l, Authority(OrNull(n)))
    case PacketSelected(n) => Holds(l, Seen(OrNull(n)))
    case PacketRejected(n) => Holds(l, Seen(OrNull(n)))
    case PacketComposed(_, ps) => forall p | p in ps :: Holds(l, Chosen(p))
    case AnswerGenerated(n) => Holds(l, Context(OrNull(n)))
    case ToolCompleted(n) => Holds(l, Tool(OrNull(n)))
    case ToolFailed(n) => Holds(l, Tool(OrNull(n)))
    case UnknownKind => false
    case _ => true
  }

  lemma ReadsLedger(l: Ledger, before: seq<Kind>, k: Kind)
    requires Reflects(l, before)
    ensures Cleared(l, k) <==> Grounded(before, k)
  {
  }

  lemma UnknownIsUngrounded(before: seq<Kind>)
    ensures !Grounded(before, UnknownKind)
  {
  }

  lemma NothingYet(l: Ledger)
    requires l == Ledger({}, {}, {}, {}, {}, {})
    ensures Reflects(l, [])
  {
  }

  lemma SealedGrows(es: seq<Event>, scope: string, i: nat)
    requires i < |es|
    ensures Sealed(es[..i + 1], scope) <==>
            Sealed(es[..i], scope) && es[i].content.sequence == i && es[i].content.scope == scope
            && es[i].id == EventId(es[i].content)
    ensures !Sealed(es[..i + 1], scope) ==> !Sealed(es, scope)
  {
    if Sealed(es[..i], scope) && es[i].content.sequence == i && es[i].content.scope == scope
       && es[i].id == EventId(es[i].content) {
      forall j | 0 <= j < i ensures es[j].content.sequence == j && es[j].content.scope == scope
        ensures es[j].id == EventId(es[j].content)
      {
        assert es[..i][j] == es[j];
      }
    }
    if Sealed(es[..i + 1], scope) {
      assert es[..i + 1][i] == es[i];
      forall j | 0 <= j < i ensures es[..i][j] == es[..i + 1][j] {
      }
    }
    if Sealed(es, scope) {
      forall j | 0 <= j <= i ensures es[..i + 1][j] == es[j] {
      }
    }
  }

  lemma NoneSealed(scope: string)
    ensures Sealed([], scope)
  {
  }

  /**
   * Accepts exactly the valid receipts. Two of its checks never fire: duplicate ids, because contents
   * are numbered, and an answer without a packet, because every answer is grounded.
   */
  method ValidateCognitionReceipt(r: Receipt) returns (error: Option<ReceiptError>)
    ensures error.None? <==> ValidReceipt(r)
    ensures error != Some(DuplicateId) && error != Some(AnswerWithoutPacket)
  {
    hide Provided, Grounded, Reflects, Kinds, Terminals, Sealed;
    if r.mode == OtherMode([]) {
      return Some(EmptyMode);
    }
    if r.status.OtherStatus? {
      return Some(UnsupportedStatus);
    }
    if !r.status.Blocked? && !r.status.ApprovalRequired? && r.mode.OtherMode? {
      return Some(UnsupportedMode);
    }
    if r.claimsEffects {
      return Some(ClaimsEffects);
    }
    if r.transfersAuthority {
      return Some(TransfersAuthority);
    }
    ghost var ks := Kinds(r.events);
    var seenIds: set<EventId> := {};
    var seenTypes: seq<Kind> := [];
    var ledger := Ledger({}, {}, {}, {}, {}, {});
    NothingYet(ledger);
    NoneSealed(r.scope);
    assert r.events[..0] == [];
    for i := 0 to |r.events|
      invariant Sealed(r.events[..i], r.scope)
      invariant forall id | id in seenIds :: id.content.sequence < i
      invariant seenTypes == ks[..i] && AllGrounded(seenTypes) && Reflects(ledger, seenTypes)
    {
      var event := r.events[i];
      SealedGrows(r.events, r.scope, i);
      if event.content.sequence != i {
        return Some(BrokenSequence);
      }
      if event.content.scope != r.scope {
        return Some(ForeignScope);
      }
      if event.content.kind.UnknownKind? {
        UnknownIsUngrounded(ks[..i]);
        BreaksAll(ks, i);
        return Some(UnknownEvent);
      }
      if event.id != EventId(event.content) {
        return Some(WrongId);
      }
      if event.id in seenIds {
        return Some(DuplicateId);
      }
      seenIds := seenIds + {event.id};
      var failed, next := CheckEvent(ledger, event.content.kind, seenTypes);
      if failed.Some? {
        BreaksAll(ks, i);
        return failed;
      }
      GroundedAfter(seenTypes, event.content.kind);
      assert ks[..i + 1] == ks[..i] + [ks[i]];
      ledger := next;
      seenTypes := seenTypes + [event.content.kind];
    }
    assert ks[..|ks|] == ks && r.events[..|r.events|] == r.events;
    if IntentReceived !in seenTypes {
      return Some(NoIntent);
    }
    if (exists k :: k in seenTypes && k.AnswerGenerated?) && !(exists k :: k in seenTypes && k.PacketComposed?) {
      var i :| 0 <= i < |seenTypes| && seenTypes[i].AnswerGenerated?;
      AnswersFollowPackets(seenTypes, i);
      return Some(AnswerWithoutPacket);
    }
    if Terminals(seenTypes) > 1 {
      return Some(ManyTerminals);
    }
    return None;
  }

  // ----- the builder -----

  class CognitionReceiptBuilder {
    const scope: string
    const mode: Mode
    var events: seq<Event>

    ghost predicate Valid()
      reads this
    {
      Sealed(events, scope)
    }

    constructor (scope: string, mode: Mode)
      ensures Valid() && events == [] && this.scope == scope && this.mode == mode
    {
      this.scope, this.mode, events := scope, mode, [];
    }

    method Append(kind: Kind, at: string, actor: string, evidence: seq<Evidence>)
      requires Valid()
      modifies this`events
      ensures Valid() && |events| == |old(events)| + 1 && events[..|old(events)|] == old(events)
      ensures Kinds(events) == Kinds(old(events)) + [kind]
      ensures events[|old(events)|].content == Content(|old(events)|, kind, at, actor, scope, evidence)
    {
      var content := Content(|events|, kind, at, actor, scope, evidence);
      events := events + [Event(content, EventId(content))];
    }

    method Finalize(status: Status) returns (r: Result<Receipt, ReceiptError>)
      requires Valid()
      ensures r.Ok? <==> ValidReceipt(Receipt(scope, mode, status, events, false, false))
      ensures r.Ok? ==> r.value == Receipt(scope, mode, status, events, false, false)
    {
      var receipt := Receipt(scope, mode, status, events, false, false);
      var error := ValidateCognitionReceipt(receipt);
      if error.Some? {
        return Err(error.value);
      }
      return Ok(receipt);
    }
  }
}
