/** The retrieval trajectory builder and its validator: retrieval_trajectory.py. */
module Trajectory {
  import opened Wrappers
  import opened Collections

  // The id is SHA-256 of system and reference, taken as injective.
  datatype PacketId = PacketId(system: string, ref: string)

  datatype Role = Authoritative | DriveShadow | Implementation | Evidence | Unresolved | UnknownRole

  datatype Disposition = Selected | Rejected | OtherDisposition

  // forbidden says whether one of the content-bearing keys is present, in any spelling of its case.
  datatype Candidate = Candidate(
    id: PacketId, system: string, ref: string, role: Role, rank: int, disposition: Option<Disposition>, reason: string,
    forbidden: bool)

  datatype Packet = Packet(id: string, packets: seq<PacketId>, tokens: int)

  datatype PacketEvent =
    | Considered(id: PacketId)
    | Decided(id: PacketId, selected: bool)
    | Composed(packet: Packet)

  datatype Trajectory = Trajectory(
    scope: string, query: string, candidates: seq<Candidate>, packet: Option<Packet>, events: seq<PacketEvent>,
    claimsEffects: bool, transfersAuthority: bool, forbidden: bool)

  datatype TrajectoryError =
    | UnsupportedRole | NegativeRank | AlreadyConsidered | UnsupportedDisposition | NoReason | NotConsidered
    | AlreadyDecided | AlreadyComposed | NegativeTokens | DuplicatePackets | NotSelected
    | NoCandidates | Undecided | NoPacket | InvalidTrajectory

  // ----- the validator -----

  predicate ValidCandidate(c: Candidate) {
    && !c.forbidden && c.id == PacketId(c.system, c.ref) && c.role != UnknownRole
    && c.disposition.Some? && c.disposition.value != OtherDisposition && c.reason != []
  }

  predicate DistinctIds(cs: seq<Candidate>) {
    forall i, j | 0 <= i < j < |cs| :: cs[i].id != cs[j].id
  }

  predicate IsSelected(c: Candidate) {
    c.disposition == Some(Selected)
  }

  function SelectedIds(cs: seq<Candidate>): set<PacketId> {
    set c | c in cs && IsSelected(c) :: c.id
  }

  predicate PacketMatches(cs: seq<Candidate>, packet: Option<Packet>) {
    if SelectedIds(cs) != {} then packet.Some? && (set id | id in packet.value.packets) == SelectedIds(cs)
    else packet.Some? ==> packet.value.packets == []
  }

  /** Candidates are distinct and decided, and the packet holds exactly the selected ones. */
  predicate ValidTrajectory(t: Trajectory) {
    && !t.claimsEffects && !t.transfersAuthority && !t.forbidden
    && (forall i | 0 <= i < |t.candidates| :: ValidCandidate(t.candidates[i]))
    && DistinctIds(t.candidates)
    && PacketMatches(t.candidates, t.packet)
  }

  ghost predicate Picks(cs: seq<Candidate>, id: PacketId) {
    exists c :: c in cs && c.id == id && c.disposition == Some(Selected)
  }

  /** Acceptance candidate by candidate, and packet by packet. */
  lemma ValidMeans(t: Trajectory)
    ensures ValidTrajectory(t) <==>
            && !t.claimsEffects && !t.transfersAuthority && !t.forbidden
            && (forall c | c in t.candidates ::
                  && !c.forbidden && c.id.system == c.system && c.id.ref == c.ref && c.role != UnknownRole
                  && (c.disposition == Some(Selected) || c.disposition == Some(Rejected)) && c.reason != "")
            && DistinctIds(t.candidates)
            && (t.packet.None? ==> forall id :: !Picks(t.candidates, id))
            && (t.packet.Some? ==> forall id :: id in t.packet.value.packets <==> Picks(t.candidates, id))
  {
    forall id ensures id in SelectedIds(t.candidates) <==> Picks(t.candidates, id) {
    }
    assert (forall c | c in t.candidates :: ValidCandidate(c)) <==>
           forall i | 0 <= i < |t.candidates| :: ValidCandidate(t.candidates[i]);
    if t.packet.Some? {
      ListedAre(t.packet.value.packets, SelectedIds(t.candidates));
    }
  }

  lemma ListedAre(ids: seq<PacketId>, s: set<PacketId>)
    ensures (set id | id in ids) == s <==> forall id :: id in ids <==> id in s
    ensures ids == [] <==> forall id :: id !in ids
  {
    assert ids != [] ==> ids[0] in ids;
  }

  method ValidateRetrievalTrajectory(t: Trajectory) returns (ok: bool)
    ensures ok == ValidTrajectory(t)
  {
    if t.claimsEffects || t.transfersAuthority || t.forbidden {
      return false;
    }
    var seen: set<PacketId> := {};
    var selected: set<PacketId> := {};
    for i := 0 to |t.candidates|
      invariant forall j | 0 <= j < i :: ValidCandidate(t.candidates[j])
      invariant DistinctIds(t.candidates[..i])
      invariant seen == set c | c in t.candidates[..i] :: c.id
      invariant selected == SelectedIds(t.candidates[..i])
    {
      var c := t.candidates[i];
      assert t.candidates[..i + 1] == t.candidates[..i] + [c];
      if c.forbidden || c.id in seen {
        return false;
      }
      seen := seen + {c.id};
      if c.id != PacketId(c.system, c.ref) || c.role == UnknownRole {
        return false;
      }
      if c.disposition.None? || c.disposition.value == OtherDisposition || c.reason == [] {
        return false;
      }
      if c.disposition.value == Selected {
        selected := selected + {c.id};
      }
    }
    assert t.candidates[..|t.candidates|] == t.candidates;
    if selected != {} {
      return t.packet.Some? && (set id | id in t.packet.value.packets) == selected;
    }
    return t.packet.None? || t.packet.value.packets == [];
  }

  // ----- the events of a trajectory -----

  function CandidateEvents(cs: seq<Candidate>): seq<PacketEvent> {
    if cs == [] then []
    else
      var c := cs[|cs| - 1];
      CandidateEvents(cs[..|cs| - 1]) + [Considered(c.id), Decided(c.id, IsSelected(c))]
  }

  function EventsOf(cs: seq<Candidate>, packet: Option<Packet>): seq<PacketEvent> {
    CandidateEvents(cs) + if packet.Some? then [Composed(packet.value)] else []
  }

  /** A trajectory as finalize returns it. */
  ghost predicate Finalized(t: Trajectory) {
    ValidTrajectory(t) && t.candidates != [] && t.events == EventsOf(t.candidates, t.packet)
  }

  // ----- the builder -----

  function FindCandidate(cs: seq<Candidate>, id: PacketId): (r: Option<nat>)
    ensures r.Some? ==> r.value < |cs| && cs[r.value].id == id
    ensures r.None? ==> forall i | 0 <= i < |cs| :: cs[i].id != id
  {
    if cs == [] then None
    else if cs[0].id == id then Some(0)
    else
      match FindCandidate(cs[1..], id)
      case None => None
      case Some(i) => Some(i + 1)
  }

  ghost predicate Building(cs: seq<Candidate>, packet: Option<Packet>) {
    && DistinctIds(cs)
    && (forall i | 0 <= i < |cs| ::
          && !cs[i].forbidden && cs[i].id == PacketId(cs[i].system, cs[i].ref) && cs[i].role != UnknownRole
          && (cs[i].disposition.Some? ==> cs[i].disposition.value != OtherDisposition && cs[i].reason != []))
    && (packet.Some? ==> Distinct(packet.value.packets))
    && (packet.Some? ==> forall id | id in packet.value.packets :: id in SelectedIds(cs))
  }

  class RetrievalTrajectoryBuilder {
    const scope: string
    const query: string
    var candidates: seq<Candidate>
    var packet: Option<Packet>

    ghost predicate Valid()
      reads this
    {
      Building(candidates, packet)
    }

    constructor (scope: string, query: string)
      ensures Valid() && candidates == [] && packet == None && this.scope == scope && this.query == query
    {
      this.scope, this.query := scope, query;
      candidates, packet := [], None;
    }

    method Consider(system: string, ref: string, role: Role, rank: int) returns (r: Result<PacketId, TrajectoryError>)
      requires Valid()
      modifies this`candidates
      ensures Valid()
      ensures r.Ok? <==> role != UnknownRole && rank >= 0
                         && FindCandidate(old(candidates), PacketId(system, ref)).None?
      ensures r.Ok? ==> r.value == PacketId(system, ref)
                        && candidates == old(candidates)
                                         + [Candidate(r.value, system, ref, role, rank, None, "", false)]
      ensures r.Err? ==> candidates == old(candidates)
    {
      if role == UnknownRole {
        return Err(UnsupportedRole);
      }
      if rank < 0 {
        return Err(NegativeRank);
      }
      var id := PacketId(system, ref);
      if FindCandidate(candidates, id).Some? {
        return Err(AlreadyConsidered);
      }
      KeepsSelected(candidates, Candidate(id, system, ref, role, rank, None, "", false));
      candidates := candidates + [Candidate(id, system, ref, role, rank, None, "", false)];
      return Ok(id);
    }

    method Decide(id: PacketId, disposition: Disposition, reason: string) returns (error: Option<TrajectoryError>)
      requires Valid()
      modifies this`candidates
      ensures Valid() && |candidates| == |old(candidates)|
      ensures error.Some? ==> candidates == old(candidates)
      ensures error.None? <==>
                && disposition != OtherDisposition && reason != [] && FindCandidate(old(candidates), id).Some?
                && old(candidates)[FindCandidate(old(candidates), id).value].disposition.None?
      ensures error.None? ==>
                var i := FindCandidate(old(candidates), id).value;
                candidates == old(candidates)[i := old(candidates)[i].(disposition := Some(disposition),
                                                                             reason := reason)]
    {
      if disposition == OtherDisposition {
        return Some(UnsupportedDisposition);
      }
      if reason == [] {
        return Some(NoReason);
      }
      var found := FindCandidate(candidates, id);
      if found.None? {
        return Some(NotConsidered);
      }
      var i := found.value;
      if candidates[i].disposition.Some? {
        return Some(AlreadyDecided);
      }
      DecidingKeepsSelected(candidates, i, candidates[i].(disposition := Some(disposition), reason := reason));
      candidates := candidates[i := candidates[i].(disposition := Some(disposition), reason := reason)];
      return None;
    }

    method Compose(id: string, packets: seq<PacketId>, tokens: int) returns (error: Option<TrajectoryError>)
      requires Valid()
      modifies this`packet
      ensures Valid()
      ensures error.None? <==> old(packet).None? && tokens >= 0 && Distinct(packets)
                               && forall p | p in packets :: p in SelectedIds(candidates)
      ensures packet == if error.None? then Some(Packet(id, packets, tokens)) else old(packet)
    {
      if packet.Some? {
        return Some(AlreadyComposed);
      }
      if tokens < 0 {
        return Some(NegativeTokens);
      }
      if !Distinct(packets) {
        return Some(DuplicatePackets);
      }
      for i := 0 to |packets|
        invariant forall j | 0 <= j < i :: packets[j] in SelectedIds(candidates)
      {
        var found := FindCandidate(candidates, packets[i]);
        if found.None? {
          UnknownIsUnselected(candidates, packets[i]);
          return Some(NotConsidered);
        }
        if !IsSelected(candidates[found.value]) {
          OnlyOneCandidate(candidates, found.value);
          return Some(NotSelected);
        }
        assert candidates[found.value] in candidates;
      }
      packet := Some(Packet(id, packets, tokens));
      return None;
    }

    /** ordered is the candidates sorted by rank and id. */
    method Finalize(ordered: seq<Candidate>) returns (r: Result<Trajectory, TrajectoryError>)
      requires Valid() && multiset(ordered) == multiset(candidates)
      ensures r.Ok? ==> Finalized(r.value) && r.value.scope == scope && r.value.candidates == ordered
                        && r.value.packet == packet
      ensures r.Ok? <==> candidates != [] && (forall c | c in candidates :: c.disposition.Some?)
                         && PacketMatches(ordered, packet)
    {
      if candidates == [] {
        return Err(NoCandidates);
      }
      SameCandidates(ordered, candidates);
      if exists c :: c in candidates && c.disposition.None? {
        return Err(Undecided);
      }
      if (exists c :: c in candidates && IsSelected(c)) && packet.None? {
        SelectionIsNonempty(ordered);
        return Err(NoPacket);
      }
      var t := Trajectory(scope, query, ordered, packet, EventsOf(ordered, packet), false, false, false);
      OrderedStaysValid(candidates, ordered, packet);
      var ok := ValidateRetrievalTrajectory(t);
      if !ok {
        return Err(InvalidTrajectory);
      }
      return Ok(t);
    }
  }

  lemma KeepsSelected(cs: seq<Candidate>, c: Candidate)
    requires !IsSelected(c)
    ensures SelectedIds(cs + [c]) == SelectedIds(cs)
  {
  }

  lemma DecidingKeepsSelected(cs: seq<Candidate>, i: nat, c: Candidate)
    requires i < |cs| && !IsSelected(cs[i]) && c.id == cs[i].id
    ensures SelectedIds(cs) <= SelectedIds(cs[i := c])
  {
    forall id | id in SelectedIds(cs) ensures id in SelectedIds(cs[i := c]) {
      var x :| x in cs && IsSelected(x) && x.id == id;
      var j :| 0 <= j < |cs| && cs[j] == x;
      assert cs[i := c][j] == x;
    }
  }

  lemma UnknownIsUnselected(cs: seq<Candidate>, id: PacketId)
    requires FindCandidate(cs, id).None?
    ensures id !in SelectedIds(cs)
  {
  }

  lemma SelectionIsNonempty(cs: seq<Candidate>)
    requires exists c :: c in cs && IsSelected(c)
    ensures SelectedIds(cs) != {}
  {
    var c :| c in cs && IsSelected(c);
    assert c.id in SelectedIds(cs);
  }

  lemma OnlyOneCandidate(cs: seq<Candidate>, i: nat)
    requires DistinctIds(cs) && i < |cs| && !IsSelected(cs[i])
    ensures cs[i].id !in SelectedIds(cs)
  {
  }

  lemma SameCandidates(a: seq<Candidate>, b: seq<Candidate>)
    requires multiset(a) == multiset(b)
    ensures |a| == |b| && (forall c :: c in a <==> c in b) && SelectedIds(a) == SelectedIds(b)
  {
    assert |multiset(a)| == |a| && |multiset(b)| == |b|;
    forall c ensures c in a <==> c in b {
      assert c in multiset(a) <==> c in multiset(b);
    }
  }

  lemma OrderedStaysValid(cs: seq<Candidate>, ordered: seq<Candidate>, packet: Option<Packet>)
    requires Building(cs, packet) && multiset(cs) == multiset(ordered)
    requires forall c | c in cs :: c.disposition.Some?
    ensures DistinctIds(ordered) && forall i | 0 <= i < |ordered| :: ValidCandidate(ordered[i])
  {
    SameCandidates(ordered, cs);
    PermutedStaysDistinct(cs, ordered);
    forall i | 0 <= i < |ordered| ensures ValidCandidate(ordered[i]) {
      assert ordered[i] in cs;
    }
    forall i, j | 0 <= i < j < |ordered| ensures ordered[i].id != ordered[j].id {
      assert ordered[i] in cs && ordered[j] in cs;
      assert ordered[i] != ordered[j];
    }
  }
}
