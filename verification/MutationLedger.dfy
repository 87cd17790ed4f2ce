/** The one-shot grant and the duplicate-prevention ledger of browser/mutation.py. */
module MutationLedger {
  import opened Wrappers

  datatype Status = Started | Succeeded | FailedNoEffect | StateUnknown | RolledBack | RollbackFailed

  datatype EffectClass = Reversible | HighImpact | OtherEffect

  // URLs are canonical already; equality is all that is asked of them.
  datatype Terms = Terms(
    tool: string, scope: string, effect: EffectClass, url: string, httpMethod: string, key: string,
    approvalId: string, expiresAt: int, rollback: Option<string>)

  datatype Row = Row(url: string, httpMethod: string, approvalId: string, status: Status)

  type Rows = map<string, Row>

  datatype MutationError =
    | EffectClassBlocked | MethodBlocked | KeyRequired | ApprovalRequired | ScopeMismatch | ApprovalInvalid
    | RollbackRequired | ApprovalExpired
    | PermitConsumed | TargetMismatch | MethodMismatch | KeyMismatch
    | DuplicateBlocked | LedgerMissing | InvalidStatus

  // ----- building a grant from an approval -----

  const MUTATING_METHODS := {"POST", "PUT", "PATCH", "DELETE"}
  const MAX_HORIZON := 900

  datatype Request = Request(
    tool: string, scope: string, effect: EffectClass, url: string, httpMethod: string, key: Option<string>,
    rollback: Option<string>)

  // An approval record; a field that is missing or of another type is None.
  datatype Approval = Approval(
    approved: bool, tool: Option<string>, scope: Option<string>, effect: Option<EffectClass>, url: Option<string>,
    httpMethod: Option<string>, key: Option<string>, approvalId: Option<string>, approvedBy: Option<string>,
    oneShot: bool, highImpactAck: bool, rollback: Option<string>, expiresAt: Option<int>)

  predicate IsCompactChar(c: char) {
    'A' <= c <= 'Z' || 'a' <= c <= 'z' || '0' <= c <= '9' || c in {'_', '.', ':', '-'}
  }

  predicate IsCompactId(s: string) {
    1 <= |s| <= 128 && forall i | 0 <= i < |s| :: IsCompactChar(s[i])
  }

  /** approvedBy is None unless it has a character that is not white space. */
  function BuildGrant(request: Request, approval: Option<Approval>, now: int): Result<Terms, MutationError> {
    if request.effect == OtherEffect then Err(EffectClassBlocked)
    else if request.httpMethod !in MUTATING_METHODS then Err(MethodBlocked)
    else if request.key.None? || !IsCompactId(request.key.value) then Err(KeyRequired)
    else if approval.None? || !approval.value.approved then Err(ApprovalRequired)
    else
      var a := approval.value;
      if a.tool != Some(request.tool) || a.scope != Some(request.scope) || a.effect != Some(request.effect)
         || a.url != Some(request.url) || a.httpMethod != Some(request.httpMethod) || a.key != request.key
      then Err(ScopeMismatch)
      else if a.approvalId.None? || !IsCompactId(a.approvalId.value) then Err(ApprovalInvalid)
      else if a.approvedBy.None? then Err(ApprovalInvalid)
      else if !a.oneShot then Err(ApprovalInvalid)
      else if request.effect == HighImpact && !a.highImpactAck then Err(ApprovalRequired)
      else if request.effect == Reversible && request.rollback.None? then Err(RollbackRequired)
      else if request.effect == Reversible && a.rollback != request.rollback then Err(ScopeMismatch)
      else if a.expiresAt.None? then Err(ApprovalInvalid)
      else if a.expiresAt.value <= now then Err(ApprovalExpired)
      else if a.expiresAt.value - now > MAX_HORIZON then Err(ApprovalInvalid)
      else Ok(Terms(request.tool, request.scope, request.effect, request.url, request.httpMethod, request.key.value,
                    a.approvalId.value, a.expiresAt.value,
                    if request.effect == Reversible then request.rollback else None))
  }

  /** The approval covers the request: every field agrees, and what its effect class asks for is there. */
  ghost predicate Covers(a: Approval, request: Request) {
    && a.approved && a.oneShot && a.approvedBy.Some?
    && a.tool == Some(request.tool) && a.scope == Some(request.scope) && a.effect == Some(request.effect)
    && a.url == Some(request.url) && a.httpMethod == Some(request.httpMethod) && a.key == request.key
    && a.approvalId.Some? && IsCompactId(a.approvalId.value)
    && (request.effect == HighImpact ==> a.highImpactAck)
    && (request.effect == Reversible ==> request.rollback.Some? && a.rollback == request.rollback)
    && a.expiresAt.Some?
  }

  ghost predicate Mutates(request: Request) {
    && (request.effect == Reversible || request.effect == HighImpact)
    && (request.httpMethod == "POST" || request.httpMethod == "PUT" || request.httpMethod == "PATCH"
        || request.httpMethod == "DELETE")
    && request.key.Some? && IsCompactId(request.key.value)
  }

  /**
   * A grant is built exactly when an approval covers a mutating request and expires within the next 15 minutes, and it
   * carries what the two agree on.
   */
  lemma GrantedExactlyWhen(request: Request, approval: Option<Approval>, now: int, terms: Terms)
    ensures BuildGrant(request, approval, now) == Ok(terms) <==>
            && Mutates(request) && approval.Some? && Covers(approval.value, request)
            && now < approval.value.expiresAt.value <= now + 900
            && terms.tool == request.tool && terms.scope == request.scope && terms.effect == request.effect
            && terms.url == request.url && terms.httpMethod == request.httpMethod && Some(terms.key) == request.key
            && Some(terms.approvalId) == approval.value.approvalId && Some(terms.expiresAt) == approval.value.expiresAt
            && terms.rollback == if request.effect == Reversible then request.rollback else None
    ensures BuildGrant(request, approval, now) == Err(ApprovalExpired) <==>
            Mutates(request) && approval.Some? && Covers(approval.value, request)
            && approval.value.expiresAt.value <= now
  {
  }

  // ----- the grant object -----

  function ConsumeError(terms: Terms, consumed: bool, url: string, httpMethod: string, key: string, now: int)
    : Option<MutationError>
  {
    if consumed then Some(PermitConsumed)
    else if now >= terms.expiresAt then Some(ApprovalExpired)
    else if url != terms.url then Some(TargetMismatch)
    else if httpMethod != terms.httpMethod then Some(MethodMismatch)
    else if key != terms.key then Some(KeyMismatch)
    else None
  }

  /** Whatever a grant lets through was named, field by field, by an approval at most 15 minutes old. */
  lemma ConsumedMeansApproved(request: Request, approval: Option<Approval>, built: int, url: string,
                              httpMethod: string, key: string, now: int)
    requires BuildGrant(request, approval, built).Ok?
    requires built <= now
    requires ConsumeError(BuildGrant(request, approval, built).value, false, url, httpMethod, key, now).None?
    ensures approval.Some? && approval.value.approved && approval.value.oneShot
    ensures approval.value.url == Some(url) && approval.value.httpMethod == Some(httpMethod)
            && approval.value.key == Some(key)
    ensures httpMethod in MUTATING_METHODS
    ensures now - built < MAX_HORIZON
    ensures request.effect == Reversible ==> approval.value.rollback == request.rollback && request.rollback.Some?
    ensures request.effect == HighImpact ==> approval.value.highImpactAck
  {
  }

  class MutationGrant {
    const terms: Terms
    var consumed: bool

    constructor (terms: Terms)
      ensures this.terms == terms && !consumed
    {
      this.terms := terms;
      consumed := false;
    }

    method Consume(url: string, httpMethod: string, key: string, now: int) returns (r: Result<(), MutationError>)
      modifies this
      ensures r == match ConsumeError(terms, old(consumed), url, httpMethod, key, now)
                   case Some(e) => Err(e) case None => Ok(())
      ensures r.Ok? <==> !old(consumed) && now < terms.expiresAt && url == terms.url && httpMethod == terms.httpMethod
                         && key == terms.key
      ensures consumed == (old(consumed) || r.Ok?)
    {
      if consumed {
        return Err(PermitConsumed);
      }
      if now >= terms.expiresAt {
        return Err(ApprovalExpired);
      }
      if url != terms.url {
        return Err(TargetMismatch);
      }
      if httpMethod != terms.httpMethod {
        return Err(MethodMismatch);
      }
      if key != terms.key {
        return Err(KeyMismatch);
      }
      consumed := true;
      return Ok(());
    }
  }

  /** The permit is one-shot: of two uses, whatever their arguments, at most one succeeds. */
  method ConsumeTwice(g: MutationGrant, url1: string, method1: string, key1: string, now1: int,
                      url2: string, method2: string, key2: string, now2: int) returns (ok1: bool, ok2: bool)
    modifies g
    ensures !(ok1 && ok2)
    ensures ok1 ==> url1 == g.terms.url && method1 == g.terms.httpMethod && key1 == g.terms.key
    ensures ok2 ==> url2 == g.terms.url && method2 == g.terms.httpMethod && key2 == g.terms.key
  {
    var r1 := g.Consume(url1, method1, key1, now1);
    var r2 := g.Consume(url2, method2, key2, now2);
    return r1.Ok?, r2.Ok?;
  }

  // ----- the ledger object -----

  function Reserved(rows: Rows, terms: Terms): Rows {
    rows[terms.key := Row(terms.url, terms.httpMethod, terms.approvalId, Started)]
  }

  function Marked(rows: Rows, key: string, status: Status): Rows
    requires key in rows
  {
    rows[key := rows[key].(status := status)]
  }

  function StatusIn(rows: Rows, key: string): Option<Status> {
    if key in rows then Some(rows[key].status) else None
  }

  // ----- any sequence of ledger calls -----

  datatype Entry = ReserveCall(terms: Terms) | MarkCall(key: string, status: Status)

  function Entered(rows: Rows, e: Entry): Rows {
    match e
    case ReserveCall(terms) => if terms.key in rows then rows else Reserved(rows, terms)
    case MarkCall(key, status) => if status == Started || key !in rows then rows else Marked(rows, key, status)
  }

  function EnteredAll(entries: seq<Entry>): Rows {
    if entries == [] then map[] else Entered(EnteredAll(entries[..|entries| - 1]), entries[|entries| - 1])
  }

  predicate ReservesKey(e: Entry, key: string) {
    e.ReserveCall? && e.terms.key == key
  }

  predicate MarksKey(e: Entry, key: string) {
    e.MarkCall? && e.key == key && e.status != Started
  }

  /** Entry k reserves the key for the first time, or marks it once reserved; it sets this status. */
  ghost predicate Sets(entries: seq<Entry>, key: string, status: Status, k: nat) {
    k < |entries| &&
    if ReservesKey(entries[k], key)
    then status == Started && forall j | 0 <= j < k :: !ReservesKey(entries[j], key)
    else MarksKey(entries[k], key) && status == entries[k].status
         && exists j :: 0 <= j < k && ReservesKey(entries[j], key)
  }

  lemma {:induction false} RecordedIffReserved(entries: seq<Entry>, key: string)
    ensures key in EnteredAll(entries) <==> exists k :: 0 <= k < |entries| && ReservesKey(entries[k], key)
  {
    if entries != [] {
      var n := |entries| - 1;
      RecordedIffReserved(entries[..n], key);
      assert forall k | 0 <= k < n :: entries[..n][k] == entries[k];
    }
  }

  /**
   * A key has a status exactly when it was ever reserved, and then that of its last valid mark, or STARTED before any;
   * duplicate reservations, marks before the reservation and marks of STARTED change nothing.
   */
  lemma {:induction false} StatusIsLastSet(entries: seq<Entry>, key: string, status: Status)
    ensures StatusIn(EnteredAll(entries), key) == Some(status) <==>
            exists k: nat :: Sets(entries, key, status, k) && forall m | k < m < |entries| :: !MarksKey(entries[m], key)
  {
    if entries != [] {
      var n := |entries| - 1;
      var init := entries[..n];
      StatusIsLastSet(init, key, status);
      RecordedIffReserved(init, key);
      assert forall k | 0 <= k < n :: init[k] == entries[k];
      forall k: nat | k < n ensures Sets(entries, key, status, k) == Sets(init, key, status, k) {
      }
      assert Sets(entries, key, status, n) ==> StatusIn(EnteredAll(entries), key) == Some(status);
    }
  }

  class MutationLedger {
    var rows: Rows

    constructor ()
      ensures rows == map[]
    {
      rows := map[];
    }

    method Reserve(terms: Terms) returns (r: Result<(), MutationError>)
      modifies this
      ensures r == if terms.key in old(rows) then Err(DuplicateBlocked) else Ok(())
      ensures rows == if r.Ok? then Reserved(old(rows), terms) else old(rows)
    {
      if terms.key in rows {
        return Err(DuplicateBlocked);
      }
      rows := rows[terms.key := Row(terms.url, terms.httpMethod, terms.approvalId, Started)];
      return Ok(());
    }

    method Mark(key: string, status: Status) returns (r: Result<(), MutationError>)
      modifies this
      ensures r == if status == Started then Err(InvalidStatus)
                   else if key !in old(rows) then Err(LedgerMissing) else Ok(())
      ensures rows == if r.Ok? then Marked(old(rows), key, status) else old(rows)
    {
      if status == Started {
        return Err(InvalidStatus);
      }
      if key !in rows {
        return Err(LedgerMissing);
      }
      rows := rows[key := rows[key].(status := status)];
      return Ok(());
    }

    method StatusOf(key: string) returns (r: Option<Status>)
      ensures r == StatusIn(rows, key)
    {
      if key in rows {
        r := Some(rows[key].status);
      } else {
        r := None;
      }
    }
  }
}
