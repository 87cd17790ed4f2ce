/** Secret lifetime in the in-memory and keyring session stores (browser/secret_store.py, browser/keyring_store.py). */
module SealedStores {
  import opened Bytes
  import opened Wrappers

  datatype Ref = Ref(value: string)

  datatype Lifecycle = Available | InUse | Expired | Revoked | Invalid | Purged

  // identity stands for the origin and identity fingerprint that index a session.
  datatype Descriptor = Descriptor(ref: Ref, identity: string, lifecycle: Lifecycle, backend: string)

  datatype Record = Record(descriptor: Descriptor, payload: Option<seq<byte>>)

  type Records = map<Ref, Record>

  datatype StoreError = RefMismatch | BackendMismatch | EmptyPayload | UnusableState | Unavailable | BackendFailure

  predicate Usable(l: Lifecycle) {
    l == Available || l == InUse
  }

  // ----- one behaviour for both stores -----

  function PutCheck(backend: string, ref: Ref, payload: seq<byte>, d: Descriptor): Option<StoreError> {
    if d.ref != ref then Some(RefMismatch)
    else if d.backend != backend then Some(BackendMismatch)
    else if payload == [] then Some(EmptyPayload)
    else if !Usable(d.lifecycle) then Some(UnusableState)
    else None
  }

  /** A put is taken when its descriptor fits, its payload is not empty and its state is one of the two usable ones. */
  ghost predicate Acceptable(backend: string, ref: Ref, payload: seq<byte>, d: Descriptor) {
    && d.ref == ref && d.backend == backend && payload != []
    && d.lifecycle != Expired && d.lifecycle != Revoked && d.lifecycle != Invalid && d.lifecycle != Purged
  }

  function Open(records: Records, ref: Ref): Result<seq<byte>, StoreError> {
    if ref in records && records[ref].payload.Some? && Usable(records[ref].descriptor.lifecycle)
    then Ok(records[ref].payload.value)
    else Err(Unavailable)
  }

  /** A terminal state drops the secret; no state brings one back. */
  function Marked(r: Record, l: Lifecycle): Record {
    Record(r.descriptor.(lifecycle := l), if Usable(l) then r.payload else None)
  }

  datatype Operation =
    | Put(ref: Ref, payload: seq<byte>, descriptor: Descriptor)
    | Mark(ref: Ref, lifecycle: Lifecycle)
    | Delete(ref: Ref)

  function Apply(backend: string, records: Records, op: Operation): Records {
    match op
    case Put(ref, payload, d) =>
      if PutCheck(backend, ref, payload, d).Some? then records else records[ref := Record(d, Some(payload))]
    case Mark(ref, l) => if ref in records then records[ref := Marked(records[ref], l)] else records
    case Delete(ref) => records - {ref}
  }

  function ApplyAll(backend: string, records: Records, ops: seq<Operation>): Records {
    if ops == [] then records
    else Apply(backend, ApplyAll(backend, records, ops[..|ops| - 1]), ops[|ops| - 1])
  }

  ghost predicate NoSecret(records: Records, ref: Ref) {
    ref in records ==> records[ref].payload.None?
  }

  ghost predicate PutsNothing(ops: seq<Operation>, ref: Ref) {
    forall i | 0 <= i < |ops| :: ops[i].Put? ==> ops[i].ref != ref
  }

  /** Only a put brings a secret back, whatever is marked in between. */
  lemma {:induction false} NoSecretStays(backend: string, records: Records, ops: seq<Operation>, ref: Ref)
    requires NoSecret(records, ref) && PutsNothing(ops, ref)
    ensures NoSecret(ApplyAll(backend, records, ops), ref)
  {
    if ops != [] {
      NoSecretStays(backend, records, ops[..|ops| - 1], ref);
    }
  }

  /** After EXPIRED, REVOKED, INVALID or PURGED, opening fails in every later state until a new put. */
  lemma SecretIsGone(backend: string, records: Records, l: Lifecycle, ops: seq<Operation>, ref: Ref)
    requires !Usable(l) && PutsNothing(ops, ref)
    ensures Open(ApplyAll(backend, Apply(backend, records, Mark(ref, l)), ops), ref) == Err(Unavailable)
  {
    NoSecretStays(backend, Apply(backend, records, Mark(ref, l)), ops, ref);
  }

  /** op settles what ref holds: an accepted put, a delete, or a terminal mark. */
  predicate Disturbs(backend: string, op: Operation, ref: Ref) {
    op.ref == ref &&
    match op
    case Put(_, payload, d) => PutCheck(backend, ref, payload, d).None?
    case Mark(_, l) => !Usable(l)
    case Delete(_) => true
  }

  /** Operation i is an accepted put of payload, and nothing has disturbed ref since. */
  ghost predicate PutAt(backend: string, ops: seq<Operation>, ref: Ref, payload: seq<byte>, i: nat) {
    && i < |ops| && ops[i].Put? && ops[i].payload == payload && Disturbs(backend, ops[i], ref)
    && forall j | i < j < |ops| :: !Disturbs(backend, ops[j], ref)
  }

  lemma {:induction false} SecretsAreUsable(backend: string, ops: seq<Operation>, ref: Ref)
    ensures var records := ApplyAll(backend, map[], ops);
            ref in records && records[ref].payload.Some? ==> Usable(records[ref].descriptor.lifecycle)
  {
    if ops != [] {
      SecretsAreUsable(backend, ops[..|ops| - 1], ref);
    }
  }

  /** After any run, opening returns exactly the last accepted put, unless a delete or a terminal mark came after it. */
  lemma {:induction false} OpensLastPut(backend: string, ops: seq<Operation>, ref: Ref, payload: seq<byte>)
    ensures Open(ApplyAll(backend, map[], ops), ref) == Ok(payload) <==>
            exists i :: PutAt(backend, ops, ref, payload, i)
  {
    if ops != [] {
      var n := |ops| - 1;
      var init, records := ops[..n], ApplyAll(backend, map[], ops[..n]);
      OpensLastPut(backend, init, ref, payload);
      SecretsAreUsable(backend, init, ref);
      if Disturbs(backend, ops[n], ref) {
        assert PutAt(backend, ops, ref, payload, n) <==> ops[n].Put? && ops[n].payload == payload;
      } else {
        assert Open(Apply(backend, records, ops[n]), ref) == Open(records, ref);
        forall i: nat ensures PutAt(backend, ops, ref, payload, i) <==> PutAt(backend, init, ref, payload, i) {
          SamePut(backend, ops, ref, payload, i);
        }
      }
    }
  }

  lemma SamePut(backend: string, ops: seq<Operation>, ref: Ref, payload: seq<byte>, i: nat)
    requires ops != [] && !Disturbs(backend, ops[|ops| - 1], ref)
    ensures PutAt(backend, ops, ref, payload, i) <==> PutAt(backend, ops[..|ops| - 1], ref, payload, i)
  {
  }

  // ----- the in-memory store -----

  class InMemoryStore {
    const backend: string
    var records: Records

    constructor (backend: string)
      ensures records == map[] && this.backend == backend
    {
      this.backend := backend;
      records := map[];
    }

    method PutSealed(ref: Ref, payload: seq<byte>, d: Descriptor) returns (error: Option<StoreError>)
      modifies this
      ensures error == PutCheck(backend, ref, payload, d)
      ensures error.None? <==> Acceptable(backend, ref, payload, d)
      ensures records == Apply(backend, old(records), Put(ref, payload, d))
      ensures records == if error.None? then old(records)[ref := Record(d, Some(payload))] else old(records)
    {
      error := PutCheck(backend, ref, payload, d);
      if error.Some? {
        return;
      }
      records := records[ref := Record(d, Some(payload))];
    }

    method OpenSealed(ref: Ref) returns (r: Result<seq<byte>, StoreError>)
      ensures r == Open(records, ref)
    {
      if ref !in records || records[ref].payload.None? {
        return Err(Unavailable);
      }
      if !Usable(records[ref].descriptor.lifecycle) {
        return Err(Unavailable);
      }
      return Ok(records[ref].payload.value);
    }

    method MarkLifecycle(ref: Ref, l: Lifecycle) returns (found: bool)
      modifies this
      ensures found == (ref in old(records))
      ensures records == Apply(backend, old(records), Mark(ref, l))
    {
      if ref !in records {
        return false;
      }
      var record := records[ref];
      record := Record(record.descriptor.(lifecycle := l), record.payload);
      if l in {Expired, Revoked, Invalid, Purged} {
        record := Record(record.descriptor, None);
      }
      records := records[ref := record];
      return true;
    }

    method DeleteRecord(ref: Ref) returns (found: bool)
      modifies this
      ensures found == (ref in old(records))
      ensures records == Apply(backend, old(records), Delete(ref))
    {
      found := ref in records;
      records := records - {ref};
    }
  }

  // ----- the keyring store -----

  // One service of the OS keyring: a record per session ref, and an index entry per origin and identity.
  datatype User = RefUser(ref: Ref) | IndexUser(identity: string)

  datatype Password = RecordText(record: Record) | RefText(ref: Ref)

  type Keyring = map<User, Password>

  ghost function RecordsOf(k: Keyring): Records {
    map u | u in k && u.RefUser? && k[u].RecordText? :: u.ref := k[u].record
  }

  /** Refs hold records and indexes hold refs. */
  ghost predicate WellKept(k: Keyring) {
    forall u | u in k :: u.RefUser? <==> k[u].RecordText?
  }

  // How the backend takes one call; a call that raises may have been applied all the same. Refuses is its own
  // delete error, which changes nothing.
  datatype Reply = Fine | Raises(applied: bool) | Refuses

  // The replies to the calls of one operation, in order.
  datatype Replies = Replies(first: Reply, second: Reply, third: Reply, fourth: Reply)

  predicate Applied(r: Reply) {
    r.Fine? || (r.Raises? && r.applied)
  }

  function Written(k: Keyring, u: User, p: Password, r: Reply): Keyring {
    if Applied(r) then k[u := p] else k
  }

  function Erased(k: Keyring, u: User, r: Reply): Keyring {
    if Applied(r) then k - {u} else k
  }

  /** The record, then the index; when the index call raises, the record is taken back, as far as that goes. */
  ghost function PutOn(backend: string, k: Keyring, ref: Ref, payload: seq<byte>, d: Descriptor, f: Replies)
    : (Option<StoreError>, Keyring)
  {
    if PutCheck(backend, ref, payload, d).Some? then (PutCheck(backend, ref, payload, d), k)
    else
      var k1 := Written(k, RefUser(ref), RecordText(Record(d, Some(payload))), f.first);
      if !f.first.Fine? then (Some(BackendFailure), k1)
      else
        var k2 := Written(k1, IndexUser(d.identity), RefText(ref), f.second);
        if f.second.Fine? then (None, k2) else (Some(BackendFailure), Erased(k2, RefUser(ref), f.third))
  }

  ghost function MarkOn(k: Keyring, ref: Ref, l: Lifecycle, f: Replies): (Result<bool, StoreError>, Keyring)
    requires WellKept(k)
  {
    if !f.first.Fine? then (Err(BackendFailure), k)
    else if RefUser(ref) !in k then (Ok(false), k)
    else
      var k1 := Written(k, RefUser(ref), RecordText(Marked(k[RefUser(ref)].record, l)), f.second);
      (if f.second.Fine? then Ok(true) else Err(BackendFailure), k1)
  }

  function Failing(r: Reply): Result<bool, StoreError> {
    if r.Refuses? then Ok(false) else Err(BackendFailure)
  }

  /** The record, then its index entry, if that still names this session. */
  ghost function DeleteOn(k: Keyring, ref: Ref, f: Replies): (Result<bool, StoreError>, Keyring)
    requires WellKept(k)
  {
    if !f.first.Fine? then (Err(BackendFailure), k)
    else if RefUser(ref) !in k then (Ok(false), k)
    else
      var own := IndexUser(k[RefUser(ref)].record.descriptor.identity);
      var k1 := Erased(k, RefUser(ref), f.second);
      if !f.second.Fine? then (Failing(f.second), k1)
      else if !f.third.Fine? then (Failing(f.third), k1)
      else if own in k1 && k1[own] == RefText(ref)
      then (if f.fourth.Fine? then Ok(true) else Failing(f.fourth), Erased(k1, own, f.fourth))
      else (Ok(true), k1)
  }

  class KeyringStore {
    const backend: string
    var keyring: Keyring

    constructor (backend: string)
      ensures keyring == map[] && Valid() && this.backend == backend
    {
      this.backend := backend;
      keyring := map[];
    }

    ghost predicate Valid()
      reads this
    {
      WellKept(keyring)
    }

    ghost function View(): Records
      reads this
    {
      RecordsOf(keyring)
    }

    method OpenSealed(ref: Ref, reply: Reply) returns (r: Result<seq<byte>, StoreError>)
      requires Valid()
      ensures r == if !reply.Fine? then Err(BackendFailure) else Open(View(), ref)
    {
      if !reply.Fine? {
        return Err(BackendFailure);
      }
      if RefUser(ref) !in keyring {
        assert ref !in View();
        return Err(Unavailable);
      }
      var record := keyring[RefUser(ref)].record;
      assert View()[ref] == record;
      if !Usable(record.descriptor.lifecycle) || record.payload.None? {
        return Err(Unavailable);
      }
      return Ok(record.payload.value);
    }

    method PutSealed(ref: Ref, payload: seq<byte>, d: Descriptor, f: Replies) returns (error: Option<StoreError>)
      requires Valid()
      modifies this
      ensures Valid() && (error, keyring) == PutOn(backend, old(keyring), ref, payload, d, f)
      ensures error.None? <==> Acceptable(backend, ref, payload, d) && f.first.Fine? && f.second.Fine?
    {
      error := PutCheck(backend, ref, payload, d);
      if error.Some? {
        return;
      }
      keyring := Written(keyring, RefUser(ref), RecordText(Record(d, Some(payload))), f.first);
      if !f.first.Fine? {
        return Some(BackendFailure);
      }
      keyring := Written(keyring, IndexUser(d.identity), RefText(ref), f.second);
      if !f.second.Fine? {
        keyring := Erased(keyring, RefUser(ref), f.third);
        return Some(BackendFailure);
      }
    }

    method MarkLifecycle(ref: Ref, l: Lifecycle, f: Replies) returns (r: Result<bool, StoreError>)
      requires Valid()
      modifies this
      ensures Valid() && (r, keyring) == MarkOn(old(keyring), ref, l, f)
    {
      if !f.first.Fine? {
        return Err(BackendFailure);
      }
      if RefUser(ref) !in keyring {
        return Ok(false);
      }
      var record := keyring[RefUser(ref)].record;
      record := Record(record.descriptor.(lifecycle := l), record.payload);
      if l in {Expired, Revoked, Invalid, Purged} {
        record := Record(record.descriptor, None);
      }
      keyring := Written(keyring, RefUser(ref), RecordText(record), f.second);
      if !f.second.Fine? {
        return Err(BackendFailure);
      }
      return Ok(true);
    }

    method DeleteRecord(ref: Ref, f: Replies) returns (r: Result<bool, StoreError>)
      requires Valid()
      modifies this
      ensures Valid() && (r, keyring) == DeleteOn(old(keyring), ref, f)
    {
      if !f.first.Fine? {
        return Err(BackendFailure);
      }
      if RefUser(ref) !in keyring {
        return Ok(false);
      }
      var own := IndexUser(keyring[RefUser(ref)].record.descriptor.identity);
      keyring := Erased(keyring, RefUser(ref), f.second);
      if !f.second.Fine? {
        return Failing(f.second);
      }
      if !f.third.Fine? {
        return Failing(f.third);
      }
      if own in keyring && keyring[own] == RefText(ref) {
        keyring := Erased(keyring, own, f.fourth);
        return if f.fourth.Fine? then Ok(true) else Failing(f.fourth);
      }
      return Ok(true);
    }
  }

  // ----- what each fault leaves -----

  lemma WrittenRecord(k: Keyring, ref: Ref, record: Record, r: Reply)
    requires WellKept(k)
    ensures var after := Written(k, RefUser(ref), RecordText(record), r);
            WellKept(after) && RecordsOf(after) == if Applied(r) then RecordsOf(k)[ref := record] else RecordsOf(k)
  {
  }

  lemma WrittenIndex(k: Keyring, identity: string, ref: Ref, r: Reply)
    requires WellKept(k)
    ensures var after := Written(k, IndexUser(identity), RefText(ref), r);
            WellKept(after) && RecordsOf(after) == RecordsOf(k)
  {
  }

  lemma ErasedRecord(k: Keyring, ref: Ref, r: Reply)
    requires WellKept(k)
    ensures var after := Erased(k, RefUser(ref), r);
            WellKept(after) && RecordsOf(after) == if Applied(r) then RecordsOf(k) - {ref} else RecordsOf(k)
  {
  }

  lemma ErasedIndex(k: Keyring, identity: string, r: Reply)
    requires WellKept(k)
    ensures var after := Erased(k, IndexUser(identity), r);
            WellKept(after) && RecordsOf(after) == RecordsOf(k)
  {
  }

  lemma RecordAt(k: Keyring, ref: Ref)
    requires WellKept(k)
    ensures ref in RecordsOf(k) <==> RefUser(ref) in k
    ensures RefUser(ref) in k ==> RecordsOf(k)[ref] == k[RefUser(ref)].record
  {
  }

  /**
   * A checked put raises unless both writes are fine. It leaves the new secret openable exactly when the record got
   * written and no take-back removed it: in particular after an index write and a take-back that both fail.
   */
  lemma PutLeaves(backend: string, k: Keyring, ref: Ref, payload: seq<byte>, d: Descriptor, f: Replies)
    requires WellKept(k) && PutCheck(backend, ref, payload, d).None?
    ensures var (error, after) := PutOn(backend, k, ref, payload, d, f);
            var takenBack := f.first.Fine? && !f.second.Fine? && Applied(f.third);
            && WellKept(after) && (error.None? <==> f.first.Fine? && f.second.Fine?)
            && RecordsOf(after) == (if !Applied(f.first) then RecordsOf(k)
                                    else if takenBack then RecordsOf(k) - {ref}
                                    else Apply(backend, RecordsOf(k), Put(ref, payload, d)))
            && (Applied(f.first) ==> (Open(RecordsOf(after), ref) == Ok(payload) <==> !takenBack))
            && (error.None? ==> IndexUser(d.identity) in after && after[IndexUser(d.identity)] == RefText(ref))
  {
    hide RecordsOf, WellKept;
    var record := Record(d, Some(payload));
    var k1 := Written(k, RefUser(ref), RecordText(record), f.first);
    var k2 := Written(k1, IndexUser(d.identity), RefText(ref), f.second);
    WrittenRecord(k, ref, record, f.first);
    WrittenIndex(k1, d.identity, ref, f.second);
    ErasedRecord(k2, ref, f.third);
    assert RecordsOf(k)[ref := record] - {ref} == RecordsOf(k) - {ref};
  }

  /** A put that raised can leave its secret openable, on any keyring. */
  lemma RaisedPutLeavesSecret(backend: string, k: Keyring, ref: Ref, payload: seq<byte>, d: Descriptor)
    requires WellKept(k) && PutCheck(backend, ref, payload, d).None?
    ensures var f := Replies(Fine, Raises(false), Raises(false), Fine);
            var (error, after) := PutOn(backend, k, ref, payload, d, f);
            error == Some(BackendFailure) && Open(RecordsOf(after), ref) == Ok(payload)
  {
    PutLeaves(backend, k, ref, payload, d, Replies(Fine, Raises(false), Raises(false), Fine));
  }

  lemma MarkLeaves(backend: string, k: Keyring, ref: Ref, l: Lifecycle, f: Replies)
    requires WellKept(k)
    ensures var (r, after) := MarkOn(k, ref, l, f);
            && WellKept(after) && (r.Ok? ==> r.value == (ref in RecordsOf(k)))
            && (r.Ok? <==> f.first.Fine? && (ref in RecordsOf(k) ==> f.second.Fine?))
            && RecordsOf(after) == (if !f.first.Fine? || !Applied(f.second) then RecordsOf(k)
                                    else Apply(backend, RecordsOf(k), Mark(ref, l)))
  {
    hide RecordsOf;
    RecordAt(k, ref);
    if RefUser(ref) in k {
      WrittenRecord(k, ref, Marked(k[RefUser(ref)].record, l), f.second);
    }
  }

  /** A delete that returns true removed the record, and its index entry unless that names another session. */
  lemma DeleteLeaves(backend: string, k: Keyring, ref: Ref, f: Replies)
    requires WellKept(k)
    ensures var (r, after) := DeleteOn(k, ref, f);
            && WellKept(after)
            && (r == Ok(true) ==> RefUser(ref) in k && RefUser(ref) !in after)
            && (r == Ok(true) ==>
                  var own := IndexUser(k[RefUser(ref)].record.descriptor.identity);
                  own !in after || (after[own] != RefText(ref) && own in k && after[own] == k[own]))
            && (r == Ok(false) ==> ref !in RecordsOf(k) || f.second.Refuses? || f.third.Refuses? || f.fourth.Refuses?)
            && RecordsOf(after) == (if f.first.Fine? && Applied(f.second) then Apply(backend, RecordsOf(k), Delete(ref))
                                    else RecordsOf(k))
            && (forall u | u in k && u.IndexUser? && k[u] != RefText(ref) :: u in after && after[u] == k[u])
  {
    hide RecordsOf;
    RecordAt(k, ref);
    ErasedRecord(k, ref, f.second);
    if RefUser(ref) in k {
      ErasedIndex(Erased(k, RefUser(ref), f.second), k[RefUser(ref)].record.descriptor.identity, f.fourth);
    } else {
      assert RecordsOf(k) - {ref} == RecordsOf(k);
    }
  }

  // ----- any run of the keyring store -----

  datatype Call = Call(op: Operation, replies: Replies)

  /** The keyring after one call, and whether the call reported that it did what it is for. */
  ghost function Called(backend: string, k: Keyring, c: Call): (bool, Keyring)
    requires WellKept(k)
  {
    match c.op
    case Put(ref, payload, d) =>
      var (error, after) := PutOn(backend, k, ref, payload, d, c.replies);
      (error.None?, after)
    case Mark(ref, l) => var (r, after) := MarkOn(k, ref, l, c.replies); (r.Ok?, after)
    case Delete(ref) => var (r, after) := DeleteOn(k, ref, c.replies); (r == Ok(true), after)
  }

  lemma CalledKeeps(backend: string, k: Keyring, c: Call)
    requires WellKept(k)
    ensures WellKept(Called(backend, k, c).1)
  {
  }

  ghost function CalledAll(backend: string, k: Keyring, calls: seq<Call>): (after: Keyring)
    requires WellKept(k)
    ensures WellKept(after)
  {
    if calls == [] then k
    else
      var before := CalledAll(backend, k, calls[..|calls| - 1]);
      CalledKeeps(backend, before, calls[|calls| - 1]);
      Called(backend, before, calls[|calls| - 1]).1
  }

  function Operations(calls: seq<Call>): seq<Operation> {
    seq(|calls|, i requires 0 <= i < |calls| => calls[i].op)
  }

  /** The records after any call are as before, as after the operation, or without the ref a failed put has erased. */
  lemma CalledLeaves(backend: string, k: Keyring, c: Call)
    requires WellKept(k)
    ensures var (ok, after) := Called(backend, k, c);
            && (ok ==> RecordsOf(after) == Apply(backend, RecordsOf(k), c.op))
            && RecordsOf(after) in {RecordsOf(k), Apply(backend, RecordsOf(k), c.op), RecordsOf(k) - {c.op.ref}}
            && (c.op.Put? && PutCheck(backend, c.op.ref, c.op.payload, c.op.descriptor).Some? ==>
                  RecordsOf(after) == RecordsOf(k))
  {
    match c.op
    case Put(ref, payload, d) =>
      if PutCheck(backend, ref, payload, d).None? {
        PutLeaves(backend, k, ref, payload, d, c.replies);
      }
    case Mark(ref, l) =>
      MarkLeaves(backend, k, ref, l, c.replies);
      assert ref !in RecordsOf(k) ==> Apply(backend, RecordsOf(k), c.op) == RecordsOf(k);
    case Delete(ref) => DeleteLeaves(backend, k, ref, c.replies);
  }

  /** While nothing fails, the keyring store behaves as the in-memory one over every run. */
  lemma {:induction false} FaultFreeRunsAgree(backend: string, k: Keyring, calls: seq<Call>)
    requires WellKept(k) && forall i | 0 <= i < |calls| :: calls[i].replies == Replies(Fine, Fine, Fine, Fine)
    ensures RecordsOf(CalledAll(backend, k, calls)) == ApplyAll(backend, RecordsOf(k), Operations(calls))
  {
    if calls != [] {
      var n := |calls| - 1;
      FaultFreeRunsAgree(backend, k, calls[..n]);
      assert Operations(calls)[..n] == Operations(calls[..n]);
      FineCall(backend, CalledAll(backend, k, calls[..n]), calls[n].op);
    }
  }

  lemma FineCall(backend: string, k: Keyring, op: Operation)
    requires WellKept(k)
    ensures var fine := Call(op, Replies(Fine, Fine, Fine, Fine));
            RecordsOf(Called(backend, k, fine).1) == Apply(backend, RecordsOf(k), op)
  {
    hide RecordsOf, WellKept;
    var fine := Replies(Fine, Fine, Fine, Fine);
    match op
    case Put(ref, payload, d) =>
      if PutCheck(backend, ref, payload, d).None? {
        PutLeaves(backend, k, ref, payload, d, fine);
      }
    case Mark(ref, l) => MarkLeaves(backend, k, ref, l, fine);
    case Delete(ref) => DeleteLeaves(backend, k, ref, fine);
  }

  lemma NoSecretAfterCall(backend: string, k: Keyring, c: Call, ref: Ref)
    requires WellKept(k) && NoSecret(RecordsOf(k), ref) && !(c.op.Put? && c.op.ref == ref)
    ensures NoSecret(RecordsOf(Called(backend, k, c).1), ref)
  {
    hide RecordsOf, Called, WellKept, PutCheck;
    CalledLeaves(backend, k, c);
  }

  lemma {:induction false} NoSecretStaysUnderFaults(backend: string, k: Keyring, calls: seq<Call>, ref: Ref)
    requires WellKept(k) && NoSecret(RecordsOf(k), ref) && PutsNothing(Operations(calls), ref)
    ensures NoSecret(RecordsOf(CalledAll(backend, k, calls)), ref)
  {
    if calls != [] {
      hide RecordsOf, Called, NoSecret;
      var n := |calls| - 1;
      assert Operations(calls)[n] == calls[n].op;
      assert forall i | 0 <= i < n :: Operations(calls[..n])[i] == Operations(calls)[i];
      NoSecretStaysUnderFaults(backend, k, calls[..n], ref);
      NoSecretAfterCall(backend, CalledAll(backend, k, calls[..n]), calls[n], ref);
    }
  }

  /**
   * After a terminal mark that returned, found a record or not, opening fails in every later state of every run until a
   * new put, whichever of the later calls raise and whatever they leave behind.
   */
  lemma SecretIsGoneUnderFaults(backend: string, k: Keyring, l: Lifecycle, replies: Replies, calls: seq<Call>, ref: Ref)
    requires WellKept(k) && !Usable(l) && MarkOn(k, ref, l, replies).0.Ok? && PutsNothing(Operations(calls), ref)
    ensures WellKept(MarkOn(k, ref, l, replies).1)
    ensures Open(RecordsOf(CalledAll(backend, MarkOn(k, ref, l, replies).1, calls)), ref) == Err(Unavailable)
  {
    MarkLeaves(backend, k, ref, l, replies);
    NoSecretStaysUnderFaults(backend, MarkOn(k, ref, l, replies).1, calls, ref);
  }

  /** Call i offered this payload and passed the checks, and nothing that disturbs the ref has succeeded since. */
  ghost predicate OfferedAt(backend: string, calls: seq<Call>, ref: Ref, payload: seq<byte>, i: nat) {
    && i < |calls| && calls[i].op.Put? && calls[i].op.payload == payload && Disturbs(backend, calls[i].op, ref)
    && forall j | i < j < |calls| ::
         !(Disturbs(backend, calls[j].op, ref) && Called(backend, CalledAll(backend, map[], calls[..j]), calls[j]).0)
  }

  ghost predicate OnlyUsableSecrets(records: Records, ref: Ref) {
    ref in records && records[ref].payload.Some? ==> Usable(records[ref].descriptor.lifecycle)
  }

  lemma {:induction false} SecretsAreUsableUnderFaults(backend: string, calls: seq<Call>, ref: Ref)
    ensures OnlyUsableSecrets(RecordsOf(CalledAll(backend, map[], calls)), ref)
  {
    hide RecordsOf, Called;
    if calls == [] {
      NoRecords();
    } else {
      var n := |calls| - 1;
      SecretsAreUsableUnderFaults(backend, calls[..n], ref);
      CalledLeaves(backend, CalledAll(backend, map[], calls[..n]), calls[n]);
    }
  }

  lemma NoRecords()
    ensures RecordsOf(map[]) == map[]
  {
  }

  /** One call opens a payload only by offering it, or by not ending what opened before. */
  lemma OpenedBefore(backend: string, k: Keyring, c: Call, ref: Ref, payload: seq<byte>)
    requires WellKept(k) && OnlyUsableSecrets(RecordsOf(k), ref)
    requires Open(RecordsOf(Called(backend, k, c).1), ref) == Ok(payload)
    ensures (c.op.Put? && Disturbs(backend, c.op, ref) && c.op.payload == payload)
            || (Open(RecordsOf(k), ref) == Ok(payload) && !(Disturbs(backend, c.op, ref) && Called(backend, k, c).0))
  {
    hide RecordsOf, Called, WellKept;
    CalledLeaves(backend, k, c);
  }

  lemma StillOffered(backend: string, calls: seq<Call>, ref: Ref, payload: seq<byte>, i: nat)
    requires calls != [] && OfferedAt(backend, calls[..|calls| - 1], ref, payload, i)
    requires var n := |calls| - 1;
             !(Disturbs(backend, calls[n].op, ref)
               && Called(backend, CalledAll(backend, map[], calls[..n]), calls[n]).0)
    ensures OfferedAt(backend, calls, ref, payload, i)
  {
    hide Disturbs, Called, CalledAll;
    var n := |calls| - 1;
    forall j | i < j < n
      ensures !(Disturbs(backend, calls[j].op, ref)
                && Called(backend, CalledAll(backend, map[], calls[..j]), calls[j]).0)
    {
      assert calls[..n][..j] == calls[..j] && calls[..n][j] == calls[j];
    }
  }

  /** Whatever opens, in any state of any run with faults, was offered, and no call that succeeded since ended it. */
  lemma {:induction false} OpensOnlyWhatWasOffered(backend: string, calls: seq<Call>, ref: Ref, payload: seq<byte>)
    requires Open(RecordsOf(CalledAll(backend, map[], calls)), ref) == Ok(payload)
    ensures exists i: nat :: OfferedAt(backend, calls, ref, payload, i)
  {
    hide RecordsOf, Called;
    if calls == [] {
      NoRecords();
    } else {
      var n := |calls| - 1;
      var before := CalledAll(backend, map[], calls[..n]);
      SecretsAreUsableUnderFaults(backend, calls[..n], ref);
      OpenedBefore(backend, before, calls[n], ref, payload);
      if calls[n].op.Put? && Disturbs(backend, calls[n].op, ref) && calls[n].op.payload == payload {
        assert OfferedAt(backend, calls, ref, payload, n);
      } else {
        OpensOnlyWhatWasOffered(backend, calls[..n], ref, payload);
        var i: nat :| OfferedAt(backend, calls[..n], ref, payload, i);
        StillOffered(backend, calls, ref, payload, i);
      }
    }
  }
}
