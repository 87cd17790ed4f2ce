/**
 * The packet workflow, which replays a retrieval trajectory into a cognition receipt:
 * context_expansion_workflow.py.
 */
module ContextWorkflow {
  import opened Wrappers
  import opened Receipts
  import PyText = Text
  import T = Trajectory

  datatype Record = Record(id: Name, scope: string, packet: Name)

  const WORKFLOW_ID := "context-expansion.packet-read-only"
  const WORKFLOW_VERSION := "0.1"

  datatype WorkflowResult = WorkflowResult(
    workflow: string, version: string, status: Status, claimsEffects: bool, transfersAuthority: bool,
    scope: string, record: Record, receipt: Receipt)

  datatype WorkflowError =
    BlankRequest | BadTrajectory | NotFinalized | DecisionRefused | ReceiptRefused(error: ReceiptError) | ResultRefused

  // ----- the result validator -----

  ghost predicate EvidenceOk(es: seq<Event>, record: Name) {
    && (exists i, e :: 0 <= i < |es| && e in es[i].content.evidence && e.id == record)
    && (forall i, e :: 0 <= i < |es| && e in es[i].content.evidence ==>
          !e.embedsRecord && (e.id == record ==> !e.transfersAuthority))
  }

  predicate HeadOk(w: WorkflowResult) {
    && w.workflow == WORKFLOW_ID && w.version == WORKFLOW_VERSION && w.status == Completed
    && !w.claimsEffects && !w.transfersAuthority
  }

  /** The workflow's identity, one scope, a record that is pointed at but not embedded, and a valid receipt. */
  ghost predicate ValidResult(w: WorkflowResult) {
    && HeadOk(w)
    && w.record.scope == w.scope && w.receipt.scope == w.scope
    && EvidenceOk(w.receipt.events, w.record.id) && ValidReceipt(w.receipt)
  }

  method ValidateWorkflowResult(w: WorkflowResult) returns (ok: bool)
    ensures ok <==> ValidResult(w)
  {
    hide ValidReceipt;
    if w.workflow != WORKFLOW_ID || w.version != WORKFLOW_VERSION || w.status != Completed {
      return false;
    }
    if w.claimsEffects || w.transfersAuthority {
      return false;
    }
    if w.record.scope != w.scope || w.receipt.scope != w.scope {
      return false;
    }
    var matching := false;
    for i := 0 to |w.receipt.events|
      invariant matching <==>
                exists j, e :: 0 <= j < i && e in w.receipt.events[j].content.evidence && e.id == w.record.id
      invariant forall j, e :: 0 <= j < i && e in w.receipt.events[j].content.evidence ==>
                  !e.embedsRecord && (e.id == w.record.id ==> !e.transfersAuthority)
    {
      var evidence := w.receipt.events[i].content.evidence;
      if exists e :: e in evidence && (e.embedsRecord || (e.id == w.record.id && e.transfersAuthority)) {
        return false;
      }
      matching := matching || exists e :: e in evidence && e.id == w.record.id;
    }
    if !matching {
      return false;
    }
    var error := ValidateCognitionReceipt(w.receipt);
    return error.None?;
  }

  // ----- what is replayed -----

  function KindOf(e: T.PacketEvent): Kind {
    match e
    case Considered(id) => PacketConsidered(Some(Packet(id)))
    case Decided(id, selected) =>
      if selected then PacketSelected(Some(Packet(id))) else PacketRejected(Some(Packet(id)))
    case Composed(p) =>
      PacketComposed(Some(Text(p.id)), seq(|p.packets|, i requires 0 <= i < |p.packets| => Packet(p.packets[i])))
  }

  function Replayed(es: seq<T.PacketEvent>): seq<Kind> {
    if es == [] then [] else Replayed(es[..|es| - 1]) + [KindOf(es[|es| - 1])]
  }

  function Preamble(scope: string): seq<Kind> {
    [IntentReceived, IntentClassified, ScopeConsidered(Some(Text(scope))), ScopeResolved(Some(Text(scope)))]
  }

  function Closing(): seq<Kind> {
    [OutcomeObserved, ReceiptCreated]
  }

  // ----- the frame of the receipt does not matter -----

  predicate AboutPackets(k: Kind) {
    k.PacketConsidered? || k.PacketSelected? || k.PacketRejected? || k.PacketComposed?
  }

  lemma ProvidedJoin(a: seq<Kind>, b: seq<Kind>, f: Fact)
    ensures Provided(a + b, f) <==> Provided(a, f) || Provided(b, f)
  {
    if Provided(a, f) {
      var j :| 0 <= j < |a| && Provides(a[j]) == Some(f);
      assert (a + b)[j] == a[j];
    }
    if Provided(b, f) {
      var j :| 0 <= j < |b| && Provides(b[j]) == Some(f);
      assert (a + b)[|a| + j] == b[j];
    }
  }

  lemma SameGround(scope: string, before: seq<Kind>, k: Kind)
    requires AboutPackets(k)
    ensures Grounded(Preamble(scope) + before, k) <==> Grounded(before, k)
  {
    forall f: Fact | f.Seen? || f.Chosen?
      ensures Provided(Preamble(scope) + before, f) <==> Provided(before, f)
    {
      ProvidedJoin(Preamble(scope), before, f);
    }
  }

  lemma PreambleIsGrounded(scope: string)
    ensures AllGrounded(Preamble(scope))
  {
    var ks := Preamble(scope);
    assert Provides(ks[..3][2]) == Some(Scope(Text(scope)));
    assert Provided(ks[..3], Scope(Text(scope)));
    forall i | 0 <= i < |ks| ensures Grounded(ks[..i], ks[i]) {
    }
  }

  lemma {:induction false} FrameKeepsGround(scope: string, ks: seq<Kind>)
    requires forall k | k in ks :: AboutPackets(k)
    ensures AllGrounded(Preamble(scope) + ks) <==> AllGrounded(ks)
  {
    if ks == [] {
      PreambleIsGrounded(scope);
      assert Preamble(scope) + ks == Preamble(scope);
    } else {
      var init, last := ks[..|ks| - 1], ks[|ks| - 1];
      FrameKeepsGround(scope, init);
      assert ks == init + [last] && Preamble(scope) + ks == (Preamble(scope) + init) + [last];
      GroundedAfter(init, last);
      GroundedAfter(Preamble(scope) + init, last);
      SameGround(scope, init, last);
    }
  }

  lemma {:induction false} ReplaysPackets(es: seq<T.PacketEvent>)
    ensures |Replayed(es)| == |es| && forall k | k in Replayed(es) :: AboutPackets(k)
  {
    if es != [] {
      ReplaysPackets(es[..|es| - 1]);
    }
  }

  lemma {:induction false} NoTerminals(ks: seq<Kind>)
    requires forall k | k in ks :: !IsTerminal(k)
    ensures Terminals(ks) == 0
  {
    if ks != [] {
      NoTerminals(ks[..|ks| - 1]);
    }
  }

  /** Around any replayed packet events, only their own order decides whether the receipt is valid. */
  lemma FrameIsValid(scope: string, es: seq<T.PacketEvent>)
    ensures var ks := Preamble(scope) + Replayed(es) + Closing();
            && (AllGrounded(ks) <==> AllGrounded(Replayed(es)))
            && IntentReceived in ks && Terminals(ks) == 0
  {
    var body := Preamble(scope) + Replayed(es);
    var ks := body + Closing();
    ReplaysPackets(es);
    FrameKeepsGround(scope, Replayed(es));
    GroundedAfter(body, OutcomeObserved);
    GroundedAfter(body + [OutcomeObserved], ReceiptCreated);
    assert ks == body + [OutcomeObserved] + [ReceiptCreated];
    assert ks[0] == IntentReceived;
    forall k | k in ks ensures !IsTerminal(k) {
      assert k in Preamble(scope) || k in Replayed(es) || k in Closing();
    }
    NoTerminals(ks);
  }

  // ----- a finalized trajectory replays -----

  lemma ReplayedAfter(es: seq<T.PacketEvent>, e: T.PacketEvent)
    ensures Replayed(es + [e]) == Replayed(es) + [KindOf(e)]
  {
  }

  lemma {:induction false} CandidatesReplay(cs: seq<T.Candidate>)
    ensures AllGrounded(Replayed(T.CandidateEvents(cs)))
    ensures forall c | c in cs && T.IsSelected(c) :: Provided(Replayed(T.CandidateEvents(cs)), Chosen(Packet(c.id)))
  {
    if cs != [] {
      var init, c := cs[..|cs| - 1], cs[|cs| - 1];
      CandidatesReplay(init);
      var before := T.CandidateEvents(init);
      var considered, decided := T.Considered(c.id), T.Decided(c.id, T.IsSelected(c));
      assert T.CandidateEvents(cs) == before + [considered] + [decided];
      ReplayedAfter(before, considered);
      ReplayedAfter(before + [considered], decided);
      var ks := Replayed(before);
      var ks' := ks + [KindOf(considered)];
      GroundedAfter(ks, KindOf(considered));
      ProvidedAfter(ks, KindOf(considered), Seen(Packet(c.id)));
      GroundedAfter(ks', KindOf(decided));
      forall x | x in cs && T.IsSelected(x) ensures Provided(ks' + [KindOf(decided)], Chosen(Packet(x.id))) {
        ProvidedAfter(ks, KindOf(considered), Chosen(Packet(x.id)));
        ProvidedAfter(ks', KindOf(decided), Chosen(Packet(x.id)));
        assert x in init || x == c;
      }
    }
  }

  /** Every trajectory the builder finalizes replays: each event finds what it relies on before it. */
  lemma FinalizedReplays(t: T.Trajectory)
    requires T.Finalized(t)
    ensures AllGrounded(Replayed(t.events))
  {
    var events := T.CandidateEvents(t.candidates);
    CandidatesReplay(t.candidates);
    if t.packet.Some? {
      var composed := T.Composed(t.packet.value);
      assert t.events == events + [composed];
      ReplayedAfter(events, composed);
      GroundedAfter(Replayed(events), KindOf(composed));
      forall p | p in KindOf(composed).packets ensures Provided(Replayed(events), Chosen(p)) {
        assert p.Packet? && p.id in t.packet.value.packets;
        assert p.id in T.SelectedIds(t.candidates);
      }
    } else {
      assert t.events == events;
    }
  }

  // ----- what a replayed receipt says -----

  /** Each packet event becomes the receipt event of the same kind, at the same place, about the same packets. */
  lemma {:induction false} ReplayedAt(es: seq<T.PacketEvent>, i: nat)
    requires i < |es|
    ensures |Replayed(es)| == |es|
    ensures match es[i]
            case Considered(id) => Replayed(es)[i] == PacketConsidered(Some(Packet(id)))
            case Decided(id, true) => Replayed(es)[i] == PacketSelected(Some(Packet(id)))
            case Decided(id, false) => Replayed(es)[i] == PacketRejected(Some(Packet(id)))
            case Composed(p) =>
              && Replayed(es)[i].PacketComposed? && Replayed(es)[i].context == Some(Text(p.id))
              && |Replayed(es)[i].packets| == |p.packets|
              && forall k | 0 <= k < |p.packets| :: Replayed(es)[i].packets[k] == Packet(p.packets[k])
  {
    ReplaysPackets(es);
    ReplaysPackets(es[..|es| - 1]);
    if i < |es| - 1 {
      ReplayedAt(es[..|es| - 1], i);
    }
  }

  /**
   * The receipt tells what was retrieved: it has a considered packet for every candidate and no other, a selected one
   * for exactly the selected candidates, a rejected one for exactly the rejected ones, and the packet composed.
   */
  ghost predicate Tells(ks: seq<Kind>, t: T.Trajectory) {
    && (forall id :: PacketConsidered(Some(Packet(id))) in ks <==> exists c :: c in t.candidates && c.id == id)
    && (forall id :: PacketSelected(Some(Packet(id))) in ks <==>
                     exists c :: c in t.candidates && c.id == id && c.disposition == Some(T.Selected))
    && (forall id :: PacketRejected(Some(Packet(id))) in ks <==>
                     exists c :: c in t.candidates && c.id == id && c.disposition == Some(T.Rejected))
    && (t.packet.Some? ==> exists k :: k in ks && Composes(k, t.packet.value))
  }

  ghost predicate Composes(k: Kind, p: T.Packet) {
    && k.PacketComposed? && k.context == Some(Text(p.id)) && |k.packets| == |p.packets|
    && forall i | 0 <= i < |p.packets| :: k.packets[i] == Packet(p.packets[i])
  }

  lemma {:induction false} CandidateEventsAre(cs: seq<T.Candidate>, e: T.PacketEvent)
    ensures e in T.CandidateEvents(cs) <==>
            exists c :: c in cs && (e == T.Considered(c.id) || e == T.Decided(c.id, c.disposition == Some(T.Selected)))
  {
    if cs != [] {
      var init, c := cs[..|cs| - 1], cs[|cs| - 1];
      CandidateEventsAre(init, e);
      assert cs == init + [c];
    }
  }

  lemma {:induction false} ReplayedAre(es: seq<T.PacketEvent>, k: Kind)
    ensures k in Replayed(es) <==> exists e :: e in es && KindOf(e) == k
  {
    if es != [] {
      ReplayedAre(es[..|es| - 1], k);
      assert es == es[..|es| - 1] + [es[|es| - 1]];
    }
  }

  lemma FramedKinds(scope: string, es: seq<T.PacketEvent>, k: Kind)
    requires AboutPackets(k)
    ensures k in Preamble(scope) + Replayed(es) + Closing() <==> k in Replayed(es)
  {
  }

  lemma KindsOfPacket(id: T.PacketId, e: T.PacketEvent)
    ensures KindOf(e) == PacketConsidered(Some(Packet(id))) <==> e == T.Considered(id)
    ensures KindOf(e) == PacketSelected(Some(Packet(id))) <==> e == T.Decided(id, true)
    ensures KindOf(e) == PacketRejected(Some(Packet(id))) <==> e == T.Decided(id, false)
  {
  }

  lemma PacketKinds(t: T.Trajectory, id: T.PacketId)
    requires T.Finalized(t)
    ensures PacketConsidered(Some(Packet(id))) in Replayed(t.events) <==> T.Considered(id) in t.events
    ensures PacketSelected(Some(Packet(id))) in Replayed(t.events) <==> T.Decided(id, true) in t.events
    ensures PacketRejected(Some(Packet(id))) in Replayed(t.events) <==> T.Decided(id, false) in t.events
  {
    hide KindOf, Replayed, T.Finalized;
    ReplayedAre(t.events, PacketConsidered(Some(Packet(id))));
    ReplayedAre(t.events, PacketSelected(Some(Packet(id))));
    ReplayedAre(t.events, PacketRejected(Some(Packet(id))));
    forall e ensures KindOf(e) == PacketConsidered(Some(Packet(id))) <==> e == T.Considered(id)
      ensures KindOf(e) == PacketSelected(Some(Packet(id))) <==> e == T.Decided(id, true)
      ensures KindOf(e) == PacketRejected(Some(Packet(id))) <==> e == T.Decided(id, false)
    {
      KindsOfPacket(id, e);
    }
  }

  lemma CandidateIsListed(t: T.Trajectory, id: T.PacketId)
    requires T.Finalized(t)
    ensures T.Considered(id) in t.events <==> exists c :: c in t.candidates && c.id == id
    ensures T.Decided(id, true) in t.events <==>
            exists c :: c in t.candidates && c.id == id && c.disposition == Some(T.Selected)
    ensures T.Decided(id, false) in t.events <==>
            exists c :: c in t.candidates && c.id == id && c.disposition == Some(T.Rejected)
  {
    CandidateEventsAre(t.candidates, T.Considered(id));
    CandidateEventsAre(t.candidates, T.Decided(id, true));
    CandidateEventsAre(t.candidates, T.Decided(id, false));
    forall c | c in t.candidates ensures T.ValidCandidate(c) {
    }
  }

  lemma ReplayTells(t: T.Trajectory)
    requires T.Finalized(t)
    ensures Tells(Preamble(t.scope) + Replayed(t.events) + Closing(), t)
  {
    hide KindOf, Replayed, T.Finalized, Preamble;
    var ks := Preamble(t.scope) + Replayed(t.events) + Closing();
    forall id
      ensures PacketConsidered(Some(Packet(id))) in ks <==> exists c :: c in t.candidates && c.id == id
      ensures PacketSelected(Some(Packet(id))) in ks <==>
              exists c :: c in t.candidates && c.id == id && c.disposition == Some(T.Selected)
      ensures PacketRejected(Some(Packet(id))) in ks <==>
              exists c :: c in t.candidates && c.id == id && c.disposition == Some(T.Rejected)
    {
      FramedKinds(t.scope, t.events, PacketConsidered(Some(Packet(id))));
      FramedKinds(t.scope, t.events, PacketSelected(Some(Packet(id))));
      FramedKinds(t.scope, t.events, PacketRejected(Some(Packet(id))));
      PacketKinds(t, id);
      CandidateIsListed(t, id);
    }
    if t.packet.Some? {
      ComposedIsReplayed(t);
    }
  }

  lemma ComposedIsReplayed(t: T.Trajectory)
    requires T.Finalized(t) && t.packet.Some?
    ensures exists k :: k in Preamble(t.scope) + Replayed(t.events) + Closing() && Composes(k, t.packet.value)
  {
    var n := |t.events| - 1;
    assert t.events[n] == T.Composed(t.packet.value);
    ReplayedAt(t.events, n);
    var k := Replayed(t.events)[n];
    assert k in Replayed(t.events);
    FramedKinds(t.scope, t.events, k);
    assert Composes(k, t.packet.value);
  }

  // ----- the workflow -----

  /** The builder calls of the workflow, in order. */
  method AssembleEvents(t: T.Trajectory, pointer: Evidence, startedAt: string, completedAt: string, requester: string,
                        actor: string)
    returns (builder: CognitionReceiptBuilder)
    ensures fresh(builder) && builder.Valid() && builder.scope == t.scope && builder.mode == ReadOnly
    ensures Kinds(builder.events) == Preamble(t.scope) + Replayed(t.events) + Closing()
    ensures OnlyPoints(builder.events, pointer)
    ensures builder.events[|builder.events| - 1].content.evidence == [pointer]
  {
    hide Sealed, Kinds, Replayed;
    builder := new CognitionReceiptBuilder(t.scope, ReadOnly);
    NoEvents();
    builder.Append(IntentReceived, startedAt, requester, []);
    builder.Append(IntentClassified, startedAt, actor, []);
    builder.Append(ScopeConsidered(Some(Text(t.scope))), startedAt, actor, []);
    builder.Append(ScopeResolved(Some(Text(t.scope))), startedAt, actor, []);
    assert Kinds(builder.events) == Preamble(t.scope);
    assert t.events[..0] == [];
    for i := 0 to |t.events|
      invariant builder.Valid() && fresh(builder)
      invariant Kinds(builder.events) == Preamble(t.scope) + Replayed(t.events[..i])
      invariant OnlyPoints(builder.events, pointer)
    {
      assert t.events[..i + 1] == t.events[..i] + [t.events[i]];
      ReplayedAfter(t.events[..i], t.events[i]);
      builder.Append(KindOf(t.events[i]), completedAt, actor, if t.events[i].Composed? then [pointer] else []);
    }
    assert t.events[..|t.events|] == t.events;
    builder.Append(OutcomeObserved, completedAt, actor, [pointer]);
    builder.Append(ReceiptCreated, completedAt, actor, [pointer]);
  }

  lemma NoEvents()
    ensures Kinds([]) == [] && Replayed([]) == []
  {
  }

  /**
   * decisionBuilds says whether the decision record's own field checks pass, recordId is its digest,
   * and hasId whether the trajectory carries an id.
   */
  method RunPacketWorkflow(requestId: string, t: T.Trajectory, hasId: bool, decisionBuilds: bool, recordId: string,
                           startedAt: string, completedAt: string, requester: string, actor: string)
    returns (r: Result<WorkflowResult, WorkflowError>)
    ensures r.Ok? <==> PyText.NonBlank(requestId) && T.ValidTrajectory(t) && hasId && t.packet.Some? && decisionBuilds
                       && AllGrounded(Replayed(t.events))
    ensures r.Ok? ==> ValidResult(r.value) && r.value.scope == t.scope
                      && Kinds(r.value.receipt.events) == Preamble(t.scope) + Replayed(t.events) + Closing()
    ensures T.Finalized(t) && PyText.NonBlank(requestId) && hasId && t.packet.Some? && decisionBuilds ==> r.Ok?
    ensures T.Finalized(t) && r.Ok? ==> Tells(Kinds(r.value.receipt.events), t)
    ensures r.Ok? ==> r.value.record == Record(Text(recordId), t.scope, Text(t.packet.value.id))
    ensures r == Err(BlankRequest) <==> !PyText.NonBlank(requestId)
    ensures r == Err(BadTrajectory) <==> PyText.NonBlank(requestId) && !T.ValidTrajectory(t)
    ensures r == Err(NotFinalized) <==> PyText.NonBlank(requestId) && T.ValidTrajectory(t) && !hasId
    ensures r == Err(DecisionRefused) <==>
            PyText.NonBlank(requestId) && T.ValidTrajectory(t) && hasId && (t.packet.None? || !decisionBuilds)
  {
    hide Tells;
    hide T.ValidTrajectory, AllGrounded, Replayed, Kinds, EvidenceOk, Terminals, Sealed, OnlyPoints;
    if T.Finalized(t) {
      FinalizedReplays(t);
      ReplayTells(t);
    }
    if !PyText.NonBlank(requestId) {
      return Err(BlankRequest);
    }
    var valid := T.ValidateRetrievalTrajectory(t);
    if !valid {
      return Err(BadTrajectory);
    }
    if !hasId {
      return Err(NotFinalized);
    }
    if t.packet.None? || !decisionBuilds {
      return Err(DecisionRefused);
    }
    var record := Record(Text(recordId), t.scope, Text(t.packet.value.id));
    var pointer := Evidence(record.id, false, false);
    var builder := AssembleEvents(t, pointer, startedAt, completedAt, requester, actor);
    FrameIsValid(t.scope, t.events);
    var receipt := builder.Finalize(Completed);
    if receipt.Err? {
      return Err(ReceiptRefused(receipt.error));
    }
    var result := WorkflowResult(
      WORKFLOW_ID, WORKFLOW_VERSION, Completed, false, false, t.scope, record, receipt.value);
    PointedAt(receipt.value.events, pointer, |receipt.value.events| - 1);
    var ok := ValidateWorkflowResult(result);
    if !ok {
      return Err(ResultRefused);
    }
    return Ok(result);
  }

  ghost predicate OnlyPoints(es: seq<Event>, pointer: Evidence) {
    forall i, e :: 0 <= i < |es| && e in es[i].content.evidence ==> e == pointer
  }

  lemma PointedAt(es: seq<Event>, pointer: Evidence, i: nat)
    requires OnlyPoints(es, pointer) && i < |es| && pointer in es[i].content.evidence
    requires !pointer.embedsRecord && !pointer.transfersAuthority
    ensures EvidenceOk(es, pointer.id)
  {
  }
}
