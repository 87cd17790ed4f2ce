/** Byte accounting of the download quarantine in browser/downloads.py. */
module Downloads {
  import opened Wrappers
  import opened Bytes

  datatype Limits = Limits(maxDownloads: int, maxFileBytes: int, maxAggregateBytes: int)

  predicate ValidLimits(l: Limits) {
    l.maxDownloads >= 1 && 1 <= l.maxFileBytes <= l.maxAggregateBytes
  }

  datatype State = Quarantined | Incomplete | Blocked

  datatype Reason =
    | UnsafeName | FileSizeBudget | AggregateBudget | ElapsedBudget | CountBudget
    | TransferCancelled | TransferFailed | DeclaredSizeMismatch

  // download-<token>.partial and download-<token>.quarantine in the quarantine root.
  datatype File = Partial(token: string) | Final(token: string)

  // The digest is SHA-256 of a content, taken as injective: the content itself.
  datatype Record = Record(
    state: State, observed: nat, digest: Option<seq<byte>>, file: Option<File>, reason: Option<Reason>)

  // What one turn of the chunk iterator brings. Interrupts is an exception that `except Exception` does not catch.
  datatype Item = Data(bytes: seq<byte>) | NotBytes | Cancelled | SourceFails | Interrupts

  // How one write goes; one that breaks off has put landed bytes of its chunk into the file.
  datatype Write = Done | Fails(landed: nat) | Breaks(landed: nat)

  datatype Turn = Turn(item: Item, late: bool, write: Write)

  // Closing the file. Lost(n): the close raised, and the disk holds the data up to byte n only.
  datatype Flush = Flushed | Lost(kept: nat)

  datatype Opening = Opens | OpenFails | OpenInterrupted

  // What raises once the loop is over: moving the file into place, before or after the move itself; reading the partial
  // file back; or the very end, where the record is built.
  datatype Finish = Returns | PromotionRaises(moved: bool) | ReadBackRaises | EndRaises

  // Everything the environment decides during one call; tokens are as many as the factory is asked for.
  datatype Call = Call(
    badSource: bool, unsafeName: bool, declared: Option<int>, lateAtStart: bool, tokens: seq<string>, rootFails: bool,
    opening: Opening, turns: seq<Turn>, flush: Flush, finish: Finish)

  datatype CallError =
    BadSource | NegativeSize | InvalidToken | NoFreeName | RootFailed | PromotionFailed | ReadBackFailed | Interrupted

  // ----- the transfer loop -----

  datatype Ending =
    Complete | Stopped(reason: Reason) | Raised(reason: Reason, inFlight: seq<byte>) | BrokenOff(inFlight: seq<byte>)

  function Landed(bytes: seq<byte>, landed: nat): seq<byte> {
    if landed < |bytes| then bytes[..landed] else bytes
  }

  /** Where the loop over chunks ends and what it has written, starting from written. */
  function Transfer(limits: Limits, used: nat, written: seq<byte>, turns: seq<Turn>): (Ending, seq<byte>)
    decreases |turns|
  {
    if turns == [] then (Complete, written)
    else
      var turn := turns[0];
      match turn.item
      case Cancelled => (Raised(TransferCancelled, []), written)
      case SourceFails => (Raised(TransferFailed, []), written)
      case Interrupts => (BrokenOff([]), written)
      case NotBytes => if turn.late then (Stopped(ElapsedBudget), written) else (Raised(TransferFailed, []), written)
      case Data(bytes) =>
        if turn.late then (Stopped(ElapsedBudget), written)
        else if |written| + |bytes| > limits.maxFileBytes then (Stopped(FileSizeBudget), written)
        else if used + |written| + |bytes| > limits.maxAggregateBytes then (Stopped(AggregateBudget), written)
        else
          match turn.write
          case Fails(n) => (Raised(TransferFailed, Landed(bytes, n)), written)
          case Breaks(n) => (BrokenOff(Landed(bytes, n)), written)
          case Done => Transfer(limits, used, written + bytes, turns[1..])
  }

  function Attempted(ending: Ending, written: seq<byte>): seq<byte> {
    if ending.Raised? || ending.BrokenOff? then written + ending.inFlight else written
  }

  /** All chunks that the iterator would bring, joined. */
  function Joined(turns: seq<Turn>): seq<byte> {
    if turns == [] then []
    else (if turns[0].item.Data? then turns[0].item.bytes else []) + Joined(turns[1..])
  }

  ghost predicate Undisturbed(turns: seq<Turn>) {
    forall i | 0 <= i < |turns| :: turns[i].item.Data? && !turns[i].late && turns[i].write.Done?
  }

  lemma {:induction false} TransferBounds(limits: Limits, used: nat, written: seq<byte>, turns: seq<Turn>)
    requires |written| <= limits.maxFileBytes && used + |written| <= limits.maxAggregateBytes
    ensures var (ending, all) := Transfer(limits, used, written, turns);
            && written <= all && |all| <= limits.maxFileBytes && used + |all| <= limits.maxAggregateBytes
            && |Attempted(ending, all)| <= limits.maxFileBytes
            && used + |Attempted(ending, all)| <= limits.maxAggregateBytes
            && (ending.Raised? ==> ending.reason in {TransferCancelled, TransferFailed})
    decreases |turns|
  {
    if turns != [] && turns[0].item.Data? {
      var bytes := turns[0].item.bytes;
      if !turns[0].late && |written| + |bytes| <= limits.maxFileBytes
         && used + |written| + |bytes| <= limits.maxAggregateBytes && turns[0].write.Done? {
        TransferBounds(limits, used, written + bytes, turns[1..]);
        assert written <= written + bytes;
      }
    }
  }

  /** The loop completes exactly when nothing disturbs it and everything fits; then it wrote every chunk in order. */
  lemma {:induction false} CompleteIffFits(limits: Limits, used: nat, written: seq<byte>, turns: seq<Turn>)
    requires |written| <= limits.maxFileBytes && used + |written| <= limits.maxAggregateBytes
    ensures Transfer(limits, used, written, turns).0 == Complete <==>
            Undisturbed(turns) && |written| + |Joined(turns)| <= limits.maxFileBytes
            && used + |written| + |Joined(turns)| <= limits.maxAggregateBytes
    ensures Transfer(limits, used, written, turns).0 == Complete ==>
              Transfer(limits, used, written, turns).1 == written + Joined(turns)
    decreases |turns|
  {
    if turns == [] {
      assert written + [] == written;
    } else {
      var turn := turns[0];
      assert Undisturbed(turns) <==> turn.item.Data? && !turn.late && turn.write.Done? && Undisturbed(turns[1..]) by {
        assert forall i | 0 < i < |turns| :: turns[i] == turns[1..][i - 1];
      }
      if turn.item.Data? {
        var bytes := turn.item.bytes;
        if |written| + |bytes| <= limits.maxFileBytes && used + |written| + |bytes| <= limits.maxAggregateBytes {
          CompleteIffFits(limits, used, written + bytes, turns[1..]);
          assert written + bytes + Joined(turns[1..]) == written + (bytes + Joined(turns[1..]));
        }
      }
    }
  }

  /** Whatever reached the file is a prefix of the chunks joined. */
  lemma {:induction false} AttemptedIsPrefix(limits: Limits, used: nat, written: seq<byte>, turns: seq<Turn>)
    ensures var (ending, all) := Transfer(limits, used, written, turns);
            Attempted(ending, all) <= written + Joined(turns)
    decreases |turns|
  {
    if turns != [] && turns[0].item.Data? {
      var bytes := turns[0].item.bytes;
      AttemptedIsPrefix(limits, used, written + bytes, turns[1..]);
      assert written + bytes + Joined(turns[1..]) == written + (bytes + Joined(turns[1..]));
    }
  }

  // ----- where the loop stops, turn by turn -----

  /** The first i turns bring chunks that are written undisturbed and fit. */
  ghost predicate ReachesTurn(limits: Limits, used: nat, turns: seq<Turn>, i: nat) {
    && i <= |turns| && Undisturbed(turns[..i])
    && |Joined(turns[..i])| <= limits.maxFileBytes && used + |Joined(turns[..i])| <= limits.maxAggregateBytes
  }

  lemma JoinedFirst(turns: seq<Turn>, i: nat)
    requires 0 < i <= |turns| && turns[0].item.Data?
    ensures Joined(turns[..i]) == turns[0].item.bytes + Joined(turns[1..][..i - 1])
  {
    assert turns[..i][1..] == turns[1..][..i - 1];
  }

  lemma {:induction false} TransferReaches(limits: Limits, used: nat, written: seq<byte>, turns: seq<Turn>, i: nat)
    requires i <= |turns| && Undisturbed(turns[..i])
    requires |written| + |Joined(turns[..i])| <= limits.maxFileBytes
    requires used + |written| + |Joined(turns[..i])| <= limits.maxAggregateBytes
    ensures Transfer(limits, used, written, turns) ==
            Transfer(limits, used, written + Joined(turns[..i]), turns[i..])
    decreases i
  {
    if i == 0 {
      assert written + [] == written;
    } else {
      var turn, rest := turns[0], turns[1..];
      assert turns[..i][0] == turn;
      JoinedFirst(turns, i);
      var bytes := turn.item.bytes;
      assert Undisturbed(rest[..i - 1]) by {
        assert rest[..i - 1] == turns[..i][1..];
        forall j | 0 <= j < i - 1 ensures turns[..i][1..][j].item.Data? {
          assert turns[..i][1..][j] == turns[..i][j + 1];
        }
        assert forall j | 0 < j < i :: turns[..i][j] == turns[..i][1..][j - 1];
      }
      TransferReaches(limits, used, written + bytes, rest, i - 1);
      assert written + bytes + Joined(rest[..i - 1]) == written + (bytes + Joined(rest[..i - 1]));
      assert rest[i - 1..] == turns[i..];
    }
  }

  /** What the loop makes of the turn it reaches: each way to stop, by what that turn brings. */
  lemma StopsAtTurn(limits: Limits, used: nat, turns: seq<Turn>, i: nat)
    requires ReachesTurn(limits, used, turns, i) && i < |turns|
    ensures var before := Joined(turns[..i]);
            var (ending, all) := Transfer(limits, used, [], turns);
            match turns[i].item
            case Cancelled => ending == Raised(TransferCancelled, []) && all == before
            case SourceFails => ending == Raised(TransferFailed, []) && all == before
            case Interrupts => ending == BrokenOff([]) && all == before
            case NotBytes =>
              ending == (if turns[i].late then Stopped(ElapsedBudget) else Raised(TransferFailed, [])) && all == before
            case Data(bytes) =>
              && (turns[i].late ==> ending == Stopped(ElapsedBudget) && all == before)
              && (!turns[i].late && |before + bytes| > limits.maxFileBytes ==>
                    ending == Stopped(FileSizeBudget) && all == before)
              && (!turns[i].late && |before + bytes| <= limits.maxFileBytes
                  && used + |before + bytes| > limits.maxAggregateBytes ==>
                    ending == Stopped(AggregateBudget) && all == before)
              && (!turns[i].late && |before + bytes| <= limits.maxFileBytes
                  && used + |before + bytes| <= limits.maxAggregateBytes ==>
                    match turns[i].write
                    case Done => ReachesTurn(limits, used, turns, i + 1)
                    case Fails(n) =>
                      all == before && ending == Raised(TransferFailed, if n <= |bytes| then bytes[..n] else bytes)
                    case Breaks(n) =>
                      all == before && ending == BrokenOff(if n <= |bytes| then bytes[..n] else bytes))
  {
    TransferReaches(limits, used, [], turns, i);
    assert [] + Joined(turns[..i]) == Joined(turns[..i]);
    assert turns[i..][0] == turns[i];
    if turns[i].item.Data? {
      JoinedSnoc(turns, i);
      assert turns[..i + 1] == turns[..i] + [turns[i]];
    }
  }

  lemma {:induction false} JoinedSnoc(turns: seq<Turn>, i: nat)
    requires i < |turns| && turns[i].item.Data?
    ensures Joined(turns[..i + 1]) == Joined(turns[..i]) + turns[i].item.bytes
    decreases i
  {
    if i == 0 {
      assert turns[..1][1..] == [];
    } else {
      JoinedSnoc(turns[1..], i - 1);
      assert turns[..i + 1][1..] == turns[1..][..i] && turns[..i][1..] == turns[1..][..i - 1];
    }
  }

  function Kept(all: seq<byte>, flush: Flush): seq<byte> {
    if flush.Lost? && flush.kept < |all| then all[..flush.kept] else all
  }

  function Observed(records: seq<Record>): nat {
    if records == [] then 0 else Observed(records[..|records| - 1]) + records[|records| - 1].observed
  }

  function BlockedRecord(reason: Reason): Record {
    Record(Blocked, 0, None, None, Some(reason))
  }

  /** The first reason to block a call before it takes a slot. */
  function Refusal(limits: Limits, used: nat, downloads: nat, call: Call): Option<Reason> {
    if call.unsafeName then Some(UnsafeName)
    else if call.declared.Some? && call.declared.value > limits.maxFileBytes then Some(FileSizeBudget)
    else if call.declared.Some? && used + call.declared.value > limits.maxAggregateBytes then Some(AggregateBudget)
    else if call.lateAtStart then Some(ElapsedBudget)
    else if downloads >= limits.maxDownloads then Some(CountBudget)
    else None
  }

  predicate IsTokenChar(c: char) {
    'A' <= c <= 'Z' || 'a' <= c <= 'z' || '0' <= c <= '9' || c == '_' || c == '-'
  }

  predicate IsToken(t: string) {
    1 <= |t| <= 128 && forall i | 0 <= i < |t| :: IsTokenChar(t[i])
  }

  const ALLOCATION_ATTEMPTS := 32

  // ----- the account -----

  // The quarantine's state as a value; records and lost, which is what raising calls charged, serve the statements.
  datatype Account = Account(
    downloads: nat, used: nat, files: map<File, seq<byte>>, records: seq<Record>, lost: nat)

  type Outcome = (Result<Record, CallError>, Account)

  predicate Taken(files: map<File, seq<byte>>, foreign: set<File>, token: string) {
    Partial(token) in files || Final(token) in files || Partial(token) in foreign || Final(token) in foreign
  }

  /** Attempt i is made: there is one, and every token before was well-formed and taken. */
  predicate Tried(files: map<File, seq<byte>>, foreign: set<File>, tokens: seq<string>, i: nat) {
    && i < 32 && i < |tokens|
    && forall j | 0 <= j < i :: IsToken(tokens[j]) && Taken(files, foreign, tokens[j])
  }

  /** The loop over tokens, from attempt i on. */
  function Allocation(files: map<File, seq<byte>>, foreign: set<File>, tokens: seq<string>, i: nat)
    : Result<string, CallError>
    decreases ALLOCATION_ATTEMPTS - i
  {
    if i >= ALLOCATION_ATTEMPTS || i >= |tokens| then Err(NoFreeName)
    else if !IsToken(tokens[i]) then Err(InvalidToken)
    else if Taken(files, foreign, tokens[i]) then Allocation(files, foreign, tokens, i + 1)
    else Ok(tokens[i])
  }

  function DigestOf(content: seq<byte>): Option<seq<byte>> {
    if content == [] then None else Some(content)
  }

  /** Why a transfer is not promoted, if it is not. */
  function ReasonFor(ending: Ending, written: seq<byte>, call: Call): Option<Reason> {
    if call.flush.Lost? then Some(TransferFailed)
    else if ending.Raised? || ending.Stopped? then Some(ending.reason)
    else if call.declared.Some? && |written| != call.declared.value then Some(DeclaredSizeMismatch)
    else None
  }

  /** The account when a call raises after charging some bytes, which leaves a file and no record. */
  function Raising(a: Account, error: CallError, file: File, content: seq<byte>, charged: nat): Outcome {
    (Err(error), Account(a.downloads + 1, a.used + charged, a.files[file := content], a.records, a.lost + charged))
  }

  function Recording(a: Account, file: File, content: seq<byte>, r: Record): Outcome {
    (Ok(r), Account(a.downloads + 1, a.used + |content|, a.files[file := content], a.records + [r], a.lost))
  }

  /** After the loop and the close: promote, or keep the partial file and say why. */
  function Settle(a: Account, call: Call, token: string, ending: Ending, written: seq<byte>): Outcome {
    var content := Kept(Attempted(ending, written), call.flush);
    var reason := ReasonFor(ending, written, call);
    if ending.BrokenOff? && call.flush.Flushed? then Raising(a, Interrupted, Partial(token), content, |written|)
    else if reason.None? then
      match call.finish
      case PromotionRaises(moved) =>
        Raising(a, PromotionFailed, if moved then Final(token) else Partial(token), written, |written|)
      case EndRaises => Raising(a, Interrupted, Final(token), written, |written|)
      case _ =>
        Recording(a, Final(token), written, Record(Quarantined, |written|, Some(written), Some(Final(token)), None))
    else
      match call.finish
      case ReadBackRaises => Raising(a, ReadBackFailed, Partial(token), content, |written|)
      case EndRaises => Raising(a, Interrupted, Partial(token), content, |content|)
      case _ =>
        Recording(a, Partial(token), content,
                  Record(Incomplete, |content|, DigestOf(content), Some(Partial(token)), reason))
  }

  /** From the moment the download has a name and a slot. */
  function Received(limits: Limits, a: Account, call: Call, token: string): Outcome {
    match call.opening
    case OpenInterrupted => (Err(Interrupted), a.(downloads := a.downloads + 1))
    case OpenFails =>
      if call.finish.ReadBackRaises? then (Err(ReadBackFailed), a.(downloads := a.downloads + 1))
      else if call.finish.EndRaises? then (Err(Interrupted), a.(downloads := a.downloads + 1))
      else
        var r := Record(Incomplete, 0, None, None, Some(TransferFailed));
        (Ok(r), a.(downloads := a.downloads + 1, records := a.records + [r]))
    case Opens =>
      var (ending, written) := Transfer(limits, a.used, [], call.turns);
      Settle(a, call, token, ending, written)
  }

  /** One call of quarantine_chunks. */
  function Handled(limits: Limits, foreign: set<File>, a: Account, call: Call): Outcome {
    if call.badSource then (Err(BadSource), a)
    else if !call.unsafeName && call.declared.Some? && call.declared.value < 0 then (Err(NegativeSize), a)
    else
      match Refusal(limits, a.used, a.downloads, call)
      case Some(reason) =>
        if call.finish.EndRaises? then (Err(Interrupted), a)
        else (Ok(BlockedRecord(reason)), a.(records := a.records + [BlockedRecord(reason)]))
      case None =>
        match Allocation(a.files, foreign, call.tokens, 0)
        case Err(e) => (Err(e), a)
        case Ok(token) => if call.rootFails then (Err(RootFailed), a) else Received(limits, a, call, token)
  }

  // ----- what every call keeps -----

  ghost predicate Describes(r: Record, files: map<File, seq<byte>>) {
    match r.file
    case None => r.observed == 0
    case Some(f) =>
      f in files && r.observed == |files[f]| && (r.state == Quarantined ==> r.digest == Some(files[f]))
  }

  ghost predicate SeparateFiles(records: seq<Record>) {
    forall i, j | 0 <= i < j < |records| && records[i].file.Some? :: records[i].file != records[j].file
  }

  /** Budgets hold, bytes are conserved, and every record describes the file it names. */
  ghost predicate Sound(limits: Limits, a: Account) {
    && ValidLimits(limits)
    && a.downloads <= limits.maxDownloads
    && a.used == Observed(a.records) + a.lost <= limits.maxAggregateBytes
    && (forall f | f in a.files :: |a.files[f]| <= limits.maxFileBytes)
    && (forall i | 0 <= i < |a.records| :: Describes(a.records[i], a.files))
    && SeparateFiles(a.records)
  }

  lemma RecordUnfiled(limits: Limits, a: Account, r: Record, downloads: nat)
    requires Sound(limits, a) && r.file.None? && r.observed == 0 && downloads <= limits.maxDownloads
    ensures Sound(limits, a.(downloads := downloads, records := a.records + [r]))
  {
  }

  lemma StillDescribed(files: map<File, seq<byte>>, records: seq<Record>, f: File, content: seq<byte>)
    requires f !in files && forall i | 0 <= i < |records| :: Describes(records[i], files)
    ensures forall i | 0 <= i < |records| :: Describes(records[i], files[f := content]) && records[i].file != Some(f)
  {
    forall i | 0 <= i < |records| ensures Describes(records[i], files[f := content]) && records[i].file != Some(f) {
      assert Describes(records[i], files);
    }
  }

  lemma RecordFile(limits: Limits, a: Account, f: File, content: seq<byte>, r: Record)
    requires Sound(limits, a) && a.downloads < limits.maxDownloads && f !in a.files
    requires |content| <= limits.maxFileBytes && a.used + |content| <= limits.maxAggregateBytes
    requires r.file == Some(f) && r.observed == |content| && (r.state == Quarantined ==> r.digest == Some(content))
    ensures Sound(limits, Recording(a, f, content, r).1)
  {
    hide Describes, SeparateFiles, Observed;
    ObservedMore(a.records, r);
    StillDescribed(a.files, a.records, f, content);
    NewDescribed(a.files, f, content, r);
    StillSeparate(a.records, r, f);
  }

  lemma ObservedMore(records: seq<Record>, r: Record)
    ensures Observed(records + [r]) == Observed(records) + r.observed
  {
    assert (records + [r])[..|records|] == records;
  }

  lemma NewDescribed(files: map<File, seq<byte>>, f: File, content: seq<byte>, r: Record)
    requires r.file == Some(f) && r.observed == |content| && (r.state == Quarantined ==> r.digest == Some(content))
    ensures Describes(r, files[f := content])
  {
  }

  lemma StillSeparate(records: seq<Record>, r: Record, f: File)
    requires SeparateFiles(records) && r.file == Some(f) && forall i | 0 <= i < |records| :: records[i].file != Some(f)
    ensures SeparateFiles(records + [r])
  {
  }

  lemma LoseFile(limits: Limits, a: Account, error: CallError, f: File, content: seq<byte>, charged: nat)
    requires Sound(limits, a) && a.downloads < limits.maxDownloads && f !in a.files
    requires |content| <= limits.maxFileBytes && a.used + charged <= limits.maxAggregateBytes
    ensures Sound(limits, Raising(a, error, f, content, charged).1)
  {
    StillDescribed(a.files, a.records, f, content);
    hide Describes;
  }

  /** The name is the first token that is well-formed and free, unless an ill-formed one or the limit comes first. */
  lemma {:induction false} AllocationMeans(files: map<File, seq<byte>>, foreign: set<File>, tokens: seq<string>, i: nat)
    requires i <= |tokens| && forall j | 0 <= j < i :: IsToken(tokens[j]) && Taken(files, foreign, tokens[j])
    ensures var r := Allocation(files, foreign, tokens, i);
            && (r.Ok? <==> exists j: nat :: Tried(files, foreign, tokens, j) && IsToken(tokens[j])
                                       && !Taken(files, foreign, tokens[j]))
            && (r.Ok? ==> r.value in tokens && IsToken(r.value) && !Taken(files, foreign, r.value))
            && (r == Err(InvalidToken) <==> exists j: nat :: Tried(files, foreign, tokens, j) && !IsToken(tokens[j]))
            && (r.Err? ==> r.error in {InvalidToken, NoFreeName})
    decreases ALLOCATION_ATTEMPTS - i
  {
    if i < ALLOCATION_ATTEMPTS && i < |tokens| {
      assert Tried(files, foreign, tokens, i);
      if IsToken(tokens[i]) && Taken(files, foreign, tokens[i]) {
        AllocationMeans(files, foreign, tokens, i + 1);
      }
    }
  }

  /** Every call keeps the account sound, and extends the records by at most the one returned. */
  lemma HandledKeeps(limits: Limits, foreign: set<File>, a: Account, call: Call)
    requires Sound(limits, a)
    ensures var (r, b) := Handled(limits, foreign, a, call);
            && Sound(limits, b) && b.records == a.records + (if r.Ok? then [r.value] else [])
            && b.lost == a.lost + (if r.Err? then b.used - a.used else 0)
            && (r.Ok? ==> b.used == a.used + r.value.observed)
  {
    hide Sound, Received, Allocation;
    if !call.badSource && (call.unsafeName || call.declared.None? || call.declared.value >= 0) {
      match Refusal(limits, a.used, a.downloads, call)
      case Some(reason) => RefusedKeeps(limits, a, reason);
      case None =>
        AllocationMeans(a.files, foreign, call.tokens, 0);
        match Allocation(a.files, foreign, call.tokens, 0)
        case Err(_) =>
        case Ok(token) => ReceivedKeeps(limits, foreign, a, call, token);
    }
  }

  lemma RefusedKeeps(limits: Limits, a: Account, reason: Reason)
    requires Sound(limits, a)
    ensures Sound(limits, a.(records := a.records + [BlockedRecord(reason)]))
  {
    RecordUnfiled(limits, a, BlockedRecord(reason), a.downloads);
  }

  lemma ReceivedKeeps(limits: Limits, foreign: set<File>, a: Account, call: Call, token: string)
    requires Sound(limits, a) && a.downloads < limits.maxDownloads && !Taken(a.files, foreign, token)
    ensures var (r, b) := Received(limits, a, call, token);
            && Sound(limits, b) && b.records == a.records + (if r.Ok? then [r.value] else [])
            && b.lost == a.lost + (if r.Err? then b.used - a.used else 0)
            && (r.Ok? ==> b.used == a.used + r.value.observed)
  {
    hide Transfer, Kept, Settle, Sound;
    SoundMeans(limits, a);
    TakeSlot(limits, a);
    match call.opening
    case OpenInterrupted =>
    case OpenFails =>
      RecordUnfiled(limits, a, Record(Incomplete, 0, None, None, Some(TransferFailed)), a.downloads + 1);
    case Opens =>
      var (ending, written) := Transfer(limits, a.used, [], call.turns);
      TransferBounds(limits, a.used, [], call.turns);
      SettleKeeps(limits, a, call, token, ending, written);
  }

  lemma TakeSlot(limits: Limits, a: Account)
    requires Sound(limits, a) && a.downloads < limits.maxDownloads
    ensures Sound(limits, a.(downloads := a.downloads + 1)) && a.used <= limits.maxAggregateBytes
  {
  }

  lemma SettleKeeps(limits: Limits, a: Account, call: Call, token: string, ending: Ending, written: seq<byte>)
    requires Sound(limits, a) && a.downloads < limits.maxDownloads
    requires Partial(token) !in a.files && Final(token) !in a.files
    requires |Attempted(ending, written)| <= limits.maxFileBytes
    requires a.used + |Attempted(ending, written)| <= limits.maxAggregateBytes
    ensures var (r, b) := Settle(a, call, token, ending, written);
            && Sound(limits, b) && b.records == a.records + (if r.Ok? then [r.value] else [])
            && b.lost == a.lost + (if r.Err? then b.used - a.used else 0)
            && (r.Ok? ==> b.used == a.used + r.value.observed)
  {
    hide Sound, ReasonFor;
    var content := Kept(Attempted(ending, written), call.flush);
    var reason := ReasonFor(ending, written, call);
    assert |written| <= |Attempted(ending, written)| && |content| <= |Attempted(ending, written)|;
    LoseFile(limits, a, Interrupted, Partial(token), content, |written|);
    LoseFile(limits, a, ReadBackFailed, Partial(token), content, |written|);
    LoseFile(limits, a, Interrupted, Partial(token), content, |content|);
    LoseFile(limits, a, PromotionFailed, Partial(token), written, |written|);
    LoseFile(limits, a, PromotionFailed, Final(token), written, |written|);
    LoseFile(limits, a, Interrupted, Final(token), written, |written|);
    RecordFile(limits, a, Final(token), written,
               Record(Quarantined, |written|, Some(written), Some(Final(token)), None));
    RecordFile(limits, a, Partial(token), content,
               Record(Incomplete, |content|, DigestOf(content), Some(Partial(token)), reason));
  }

  // ----- what a call's result means -----

  /** No declared size, or one that both budgets have room for. */
  ghost predicate RoomFor(limits: Limits, used: nat, declared: Option<int>) {
    declared.Some? ==> 0 <= declared.value <= limits.maxFileBytes && used + declared.value <= limits.maxAggregateBytes
  }

  /**
   * The checks before a download takes a slot, each refusal with its exact cause: a call is let through exactly when
   * its source and name are good, its declared size has room, it is in time and a download is left.
   */
  lemma RefusalMeans(limits: Limits, foreign: set<File>, a: Account, call: Call)
    requires ValidLimits(limits)
    ensures var (r, b) := Handled(limits, foreign, a, call);
            var named := !call.badSource && !call.unsafeName;
            var passes := named && RoomFor(limits, a.used, call.declared);
            && (r == Err(BadSource) <==> call.badSource)
            && (r == Err(NegativeSize) <==> named && call.declared.Some? && call.declared.value < 0)
            && (!call.finish.EndRaises? ==>
                  && (r == Ok(BlockedRecord(UnsafeName)) <==> !call.badSource && call.unsafeName)
                  && (r == Ok(BlockedRecord(FileSizeBudget)) <==>
                        named && call.declared.Some? && call.declared.value > limits.maxFileBytes)
                  && (r == Ok(BlockedRecord(AggregateBudget)) <==>
                        named && call.declared.Some? && 0 <= call.declared.value <= limits.maxFileBytes
                        && a.used + call.declared.value > limits.maxAggregateBytes)
                  && (r == Ok(BlockedRecord(ElapsedBudget)) <==> passes && call.lateAtStart)
                  && (r == Ok(BlockedRecord(CountBudget)) <==>
                        passes && !call.lateAtStart && a.downloads >= limits.maxDownloads))
            && (passes && !call.lateAtStart && a.downloads < limits.maxDownloads <==>
                  !call.badSource && (call.declared.Some? ==> call.declared.value >= 0)
                  && Refusal(limits, a.used, a.downloads, call).None?)
            && (r.Ok? && r.value.state == Blocked ==>
                  b == a.(records := a.records + [r.value]) && r.value.file.None? && r.value.observed == 0)
            && (b.downloads == a.downloads ==> b.files == a.files && b.used == a.used)
  {
    hide Transfer, Allocation;
    AllocationMeans(a.files, foreign, call.tokens, 0);
  }

  /** The call reaches the transfer under this name. */
  ghost predicate Admitted(limits: Limits, foreign: set<File>, a: Account, call: Call, token: string) {
    && !call.badSource && (call.declared.Some? ==> call.declared.value >= 0)
    && Refusal(limits, a.used, a.downloads, call).None?
    && Allocation(a.files, foreign, call.tokens, 0) == Ok(token) && !call.rootFails
  }

  /** Nothing disturbs the transfer, everything fits, and the size is the declared one. */
  ghost predicate Completes(limits: Limits, used: nat, call: Call) {
    && call.opening.Opens? && call.flush.Flushed? && Undisturbed(call.turns)
    && |Joined(call.turns)| <= limits.maxFileBytes && used + |Joined(call.turns)| <= limits.maxAggregateBytes
    && (call.declared.Some? ==> call.declared.value == |Joined(call.turns)|)
  }

  /**
   * The declared size is judged rightly before any byte moves: a call refused for a size budget could not have
   * completed, and one let through completes whenever it brings just the declared bytes undisturbed.
   */
  lemma RefusalForesees(limits: Limits, used: nat, downloads: nat, call: Call)
    ensures Refusal(limits, used, downloads, call) in {Some(FileSizeBudget), Some(AggregateBudget)} ==>
              !Completes(limits, used, call)
    ensures (&& Refusal(limits, used, downloads, call).None? && call.opening.Opens? && call.flush.Flushed?
             && Undisturbed(call.turns) && call.declared == Some(|Joined(call.turns)|))
            ==> Completes(limits, used, call)
    ensures Refusal(limits, used, downloads, call) == Some(CountBudget) ==> downloads >= limits.maxDownloads
  {
  }

  /** An exception that the transfer does not catch breaks it off. */
  ghost predicate BreaksOff(limits: Limits, used: nat, call: Call) {
    || call.opening.OpenInterrupted?
    || (call.opening.Opens? && call.flush.Flushed? && Transfer(limits, used, [], call.turns).0.BrokenOff?)
  }

  /**
   * A file is quarantined exactly when the transfer completes and the promotion goes through, and it then holds the
   * chunks joined; each error after admission has its own cause.
   */
  lemma ReceivedMeans(limits: Limits, foreign: set<File>, a: Account, call: Call, token: string)
    requires ValidLimits(limits) && a.used <= limits.maxAggregateBytes && Admitted(limits, foreign, a, call, token)
    ensures var (r, b) := Handled(limits, foreign, a, call);
            var complete, broken := Completes(limits, a.used, call), BreaksOff(limits, a.used, call);
            && b.downloads == a.downloads + 1
            && (r.Ok? && r.value.state == Quarantined <==>
                  complete && (call.finish.Returns? || call.finish.ReadBackRaises?))
            && (r.Ok? && r.value.state == Incomplete <==>
                  !complete && !broken && (call.finish.Returns? || call.finish.PromotionRaises?))
            && (r == Err(PromotionFailed) <==> complete && call.finish.PromotionRaises?)
            && (r == Err(ReadBackFailed) <==> !complete && !broken && call.finish.ReadBackRaises?)
            && (r == Err(Interrupted) <==> broken || call.finish.EndRaises?)
            && (r.Ok? && r.value.state == Quarantined ==>
                  && b.files == a.files[Final(token) := Joined(call.turns)]
                  && r.value.file == Some(Final(token)) && r.value.digest == Some(Joined(call.turns)))
            && (r.Ok? && r.value.state == Incomplete ==> r.value.reason.Some?)
            && (Partial(token) in b.files && Partial(token) !in a.files ==>
                  b.files[Partial(token)] <= Joined(call.turns))
            && (Final(token) in b.files && Final(token) !in a.files ==> b.files[Final(token)] == Joined(call.turns))
  {
    hide Transfer, Undisturbed, Joined, Allocation;
    TransferBounds(limits, a.used, [], call.turns);
    CompleteIffFits(limits, a.used, [], call.turns);
    AttemptedIsPrefix(limits, a.used, [], call.turns);
    assert [] + Joined(call.turns) == Joined(call.turns);
  }

  /**
   * Why an admitted download stays incomplete and what it leaves: the bytes that went in before the turn that stopped
   * it, with the landed part of a chunk whose write failed, in its partial file, charged and recorded as such.
   */
  lemma IncompleteMeans(limits: Limits, foreign: set<File>, a: Account, call: Call, token: string, i: nat)
    requires ValidLimits(limits) && Admitted(limits, foreign, a, call, token) && call.opening.Opens?
    requires call.finish.Returns? && call.flush.Flushed? && ReachesTurn(limits, a.used, call.turns, i)
    ensures var (r, b) := Handled(limits, foreign, a, call);
            var before := Joined(call.turns[..i]);
            if i == |call.turns| then
              call.declared.Some? && call.declared.value != |before| ==>
                LeavesPartial(a, r, b, token, before, DeclaredSizeMismatch)
            else if call.turns[i].item.Cancelled? then LeavesPartial(a, r, b, token, before, TransferCancelled)
            else if call.turns[i].item.SourceFails? then LeavesPartial(a, r, b, token, before, TransferFailed)
            else if call.turns[i].item.Interrupts? then r == Err(Interrupted)
            else if call.turns[i].late then LeavesPartial(a, r, b, token, before, ElapsedBudget)
            else if call.turns[i].item.NotBytes? then LeavesPartial(a, r, b, token, before, TransferFailed)
            else
              var bytes := call.turns[i].item.bytes;
              if |before + bytes| > limits.maxFileBytes then LeavesPartial(a, r, b, token, before, FileSizeBudget)
              else if a.used + |before + bytes| > limits.maxAggregateBytes
              then LeavesPartial(a, r, b, token, before, AggregateBudget)
              else
                && (call.turns[i].write.Breaks? ==> r == Err(Interrupted))
                && (call.turns[i].write.Fails? ==>
                      var n := call.turns[i].write.landed;
                      LeavesPartial(a, r, b, token, before + (if n <= |bytes| then bytes[..n] else bytes),
                                    TransferFailed))
  {
    hide Transfer, Undisturbed, Joined, Allocation;
    if i < |call.turns| {
      StopsAtTurn(limits, a.used, call.turns, i);
      assert Joined(call.turns[..i]) + [] == Joined(call.turns[..i]);
    } else {
      CompleteIffFits(limits, a.used, [], call.turns);
      assert call.turns[..i] == call.turns;
      assert [] + Joined(call.turns) == Joined(call.turns);
    }
  }

  /** A download whose close loses the tail of its file is incomplete, and charged just what the disk holds. */
  lemma LostTailMeans(limits: Limits, foreign: set<File>, a: Account, call: Call, token: string)
    requires ValidLimits(limits) && Admitted(limits, foreign, a, call, token) && call.opening.Opens?
    requires call.finish.Returns? && call.flush.Lost? && ReachesTurn(limits, a.used, call.turns, |call.turns|)
    ensures var (r, b) := Handled(limits, foreign, a, call);
            var all := Joined(call.turns);
            LeavesPartial(a, r, b, token, if call.flush.kept < |all| then all[..call.flush.kept] else all,
                          TransferFailed)
  {
    hide Transfer, Undisturbed, Joined, Allocation;
    CompleteIffFits(limits, a.used, [], call.turns);
    assert call.turns[..|call.turns|] == call.turns;
    assert [] + Joined(call.turns) == Joined(call.turns);
  }

  ghost predicate LeavesPartial(a: Account, r: Result<Record, CallError>, b: Account, token: string,
                                content: seq<byte>, reason: Reason)
  {
    && r.Ok? && r.value.state == Incomplete && r.value.reason == Some(reason) && r.value.observed == |content|
    && r.value.file == Some(Partial(token)) && r.value.digest == (if content == [] then None else Some(content))
    && b.files == a.files[Partial(token) := content] && b.used == a.used + |content|
    && b.downloads == a.downloads + 1 && b.records == a.records + [r.value]
  }

  // ----- any number of calls -----

  ghost function HandledAll(limits: Limits, foreign: set<File>, a: Account, calls: seq<Call>): Account {
    if calls == [] then a
    else Handled(limits, foreign, HandledAll(limits, foreign, a, calls[..|calls| - 1]), calls[|calls| - 1]).1
  }

  /** What one call charges and then raises without a record. */
  ghost function Loss(limits: Limits, foreign: set<File>, a: Account, call: Call): int {
    var (r, b) := Handled(limits, foreign, a, call);
    if r.Err? then b.used - a.used else 0
  }

  ghost function TotalLoss(limits: Limits, foreign: set<File>, a: Account, calls: seq<Call>): int {
    if calls == [] then 0
    else
      var n := |calls| - 1;
      TotalLoss(limits, foreign, a, calls[..n])
      + Loss(limits, foreign, HandledAll(limits, foreign, a, calls[..n]), calls[n])
  }

  /** Over any calls, whatever the environment does: budgets hold, and the total is what is recorded or lost. */
  lemma {:induction false} BytesAreConserved(limits: Limits, foreign: set<File>, a: Account, calls: seq<Call>)
    requires Sound(limits, a)
    ensures var b := HandledAll(limits, foreign, a, calls);
            && Sound(limits, b) && a.records <= b.records
            && b.used == Observed(b.records) + a.lost + TotalLoss(limits, foreign, a, calls)
  {
    hide Sound, Handled;
    if calls == [] {
      SoundMeans(limits, a);
    } else {
      var n := |calls| - 1;
      var before := HandledAll(limits, foreign, a, calls[..n]);
      BytesAreConserved(limits, foreign, a, calls[..n]);
      HandledKeeps(limits, foreign, before, calls[n]);
      SoundMeans(limits, before);
      SoundMeans(limits, HandledAll(limits, foreign, a, calls));
    }
  }

  lemma SoundMeans(limits: Limits, a: Account)
    requires Sound(limits, a)
    ensures ValidLimits(limits) && a.used == Observed(a.records) + a.lost <= limits.maxAggregateBytes
  {
  }

  const EMPTY_ACCOUNT := Account(0, 0, map[], [], 0)

  /** The total is the sum over the returned records exactly when no call raised after charging bytes. */
  lemma RecordsTellTheTotal(limits: Limits, foreign: set<File>, calls: seq<Call>)
    requires ValidLimits(limits)
    ensures var b := HandledAll(limits, foreign, EMPTY_ACCOUNT, calls);
            b.used == Observed(b.records) <==>
            forall n: nat | n < |calls| :: !LosesAt(limits, foreign, calls, n)
  {
    BytesAreConserved(limits, foreign, EMPTY_ACCOUNT, calls);
    LossesAddUp(limits, foreign, calls);
  }

  /** Call n of a quarantine's calls charges bytes and then raises. */
  ghost predicate LosesAt(limits: Limits, foreign: set<File>, calls: seq<Call>, n: nat)
    requires n < |calls|
  {
    Loses(limits, foreign, HandledAll(limits, foreign, EMPTY_ACCOUNT, calls[..n]), calls[n])
  }

  /** The causes: a transfer broken off after bytes went in, or a promotion, a read-back or an end that raises. */
  ghost predicate Loses(limits: Limits, foreign: set<File>, a: Account, call: Call) {
    exists token | token in call.tokens ::
      Admitted(limits, foreign, a, call, token) && call.opening.Opens?
      && var (ending, written) := Transfer(limits, a.used, [], call.turns);
         var content := Kept(Attempted(ending, written), call.flush);
         if BreaksOff(limits, a.used, call) then written != []
         else if Completes(limits, a.used, call)
         then written != [] && (call.finish.PromotionRaises? || call.finish.EndRaises?)
         else if call.finish.EndRaises? then content != []
         else call.finish.ReadBackRaises? && written != []
  }

  lemma LossMeans(limits: Limits, foreign: set<File>, a: Account, call: Call)
    requires ValidLimits(limits) && a.used <= limits.maxAggregateBytes
    ensures Loss(limits, foreign, a, call) >= 0
    ensures Loss(limits, foreign, a, call) > 0 <==> Loses(limits, foreign, a, call)
  {
    hide Transfer, Undisturbed, Joined, Allocation;
    TransferBounds(limits, a.used, [], call.turns);
    CompleteIffFits(limits, a.used, [], call.turns);
    AllocationMeans(a.files, foreign, call.tokens, 0);
  }

  lemma {:induction false} LossesAddUp(limits: Limits, foreign: set<File>, calls: seq<Call>)
    requires ValidLimits(limits)
    ensures TotalLoss(limits, foreign, EMPTY_ACCOUNT, calls) >= 0
    ensures TotalLoss(limits, foreign, EMPTY_ACCOUNT, calls) == 0 <==>
            forall n: nat | n < |calls| :: !LosesAt(limits, foreign, calls, n)
  {
    hide Loss, Loses, Handled, HandledAll;
    if calls != [] {
      var n := |calls| - 1;
      assert Sound(limits, EMPTY_ACCOUNT);
      LossesAddUp(limits, foreign, calls[..n]);
      BytesAreConserved(limits, foreign, EMPTY_ACCOUNT, calls[..n]);
      SoundMeans(limits, HandledAll(limits, foreign, EMPTY_ACCOUNT, calls[..n]));
      LossMeans(limits, foreign, HandledAll(limits, foreign, EMPTY_ACCOUNT, calls[..n]), calls[n]);
      assert LosesAt(limits, foreign, calls, n)
             == Loses(limits, foreign, HandledAll(limits, foreign, EMPTY_ACCOUNT, calls[..n]), calls[n]);
      forall m: nat | m < n ensures LosesAt(limits, foreign, calls, m) == LosesAt(limits, foreign, calls[..n], m) {
        assert calls[..n][..m] == calls[..m];
      }
    }
  }

  lemma OneTurn(limits: Limits, bytes: seq<byte>, rest: seq<Turn>)
    requires ValidLimits(limits) && |bytes| <= limits.maxFileBytes
    ensures Transfer(limits, 0, [], [Turn(Data(bytes), false, Done)] + rest) == Transfer(limits, 0, bytes, rest)
  {
    var turns := [Turn(Data(bytes), false, Done)] + rest;
    assert turns[1..] == rest && [] + bytes == bytes;
  }

  /** Three single calls on a fresh quarantine, any chunk within the limits, that charge it and return no record. */
  lemma SingleCallLosesBytes(limits: Limits, bytes: seq<byte>, token: string, finish: Finish)
    requires ValidLimits(limits) && bytes != [] && |bytes| <= limits.maxFileBytes && IsToken(token)
    requires finish != Returns
    ensures var chunk := Turn(Data(bytes), false, Done);
            var last := if finish.ReadBackRaises? then [Turn(NotBytes, false, Done)] else [];
            var call := Call(false, false, None, false, [token], false, Opens, [chunk] + last, Flushed, finish);
            var (r, b) := Handled(limits, {}, EMPTY_ACCOUNT, call);
            r.Err? && b.used == |bytes| && b.records == []
    ensures var turns := [Turn(Data(bytes), false, Done), Turn(Interrupts, false, Done)];
            var call := Call(false, false, None, false, [token], false, Opens, turns, Flushed, Returns);
            var (r, b) := Handled(limits, {}, EMPTY_ACCOUNT, call);
            r == Err(Interrupted) && b.used == |bytes| && b.records == []
  {
    OneTurn(limits, bytes, []);
    OneTurn(limits, bytes, [Turn(NotBytes, false, Done)]);
    OneTurn(limits, bytes, [Turn(Interrupts, false, Done)]);
    assert [Turn(Data(bytes), false, Done)] + [Turn(Interrupts, false, Done)]
           == [Turn(Data(bytes), false, Done), Turn(Interrupts, false, Done)];
    assert Allocation(map[], {}, [token], 0) == Ok(token);
    assert Kept(bytes + [], Flushed) == bytes;
  }

  // ----- the quarantine -----

  class DownloadQuarantine {
    const limits: Limits
    const foreign: set<File>  // files in the root that were there before
    var downloadsUsed: nat
    var aggregateBytesUsed: nat
    var files: map<File, seq<byte>>
    ghost var records: seq<Record>  // returned so far
    ghost var lost: nat  // bytes charged by calls that raised

    ghost function View(): Account
      reads this
    {
      Account(downloadsUsed, aggregateBytesUsed, files, records, lost)
    }

    ghost predicate Valid()
      reads this
    {
      Sound(limits, View())
    }

    constructor (limits: Limits, foreign: set<File>)
      requires ValidLimits(limits)
      ensures Valid() && View() == EMPTY_ACCOUNT && this.limits == limits && this.foreign == foreign
    {
      this.limits := limits;
      this.foreign := foreign;
      downloadsUsed, aggregateBytesUsed, files, records, lost := 0, 0, map[], [], 0;
    }

    /** Up to 32 tokens are tried; the first free one names the download. */
    method Allocate(tokens: seq<string>) returns (r: Result<string, CallError>)
      ensures r == Allocation(files, foreign, tokens, 0)
      ensures r.Ok? <==>
              exists i: nat :: Tried(files, foreign, tokens, i) && IsToken(tokens[i])
                               && !Taken(files, foreign, tokens[i])
      ensures r == Err(InvalidToken) <==> exists i: nat :: Tried(files, foreign, tokens, i) && !IsToken(tokens[i])
      ensures r.Ok? ==> r.value in tokens && IsToken(r.value) && !Taken(files, foreign, r.value)
    {
      AllocationMeans(files, foreign, tokens, 0);
      var i := 0;
      while i < ALLOCATION_ATTEMPTS && i < |tokens|
        invariant i <= |tokens| && i <= ALLOCATION_ATTEMPTS
        invariant Allocation(files, foreign, tokens, 0) == Allocation(files, foreign, tokens, i)
      {
        if !IsToken(tokens[i]) {
          return Err(InvalidToken);
        }
        if !Taken(files, foreign, tokens[i]) {
          return Ok(tokens[i]);
        }
        i := i + 1;
      }
      return Err(NoFreeName);
    }

    /** The checks before a download takes a slot. */
    method CheckAdmission(call: Call) returns (r: Result<Option<Reason>, CallError>)
      ensures r == if !call.unsafeName && call.declared.Some? && call.declared.value < 0 then Err(NegativeSize)
                   else Ok(Refusal(limits, aggregateBytesUsed, downloadsUsed, call))
    {
      if call.unsafeName {
        return Ok(Some(UnsafeName));
      }
      if call.declared.Some? {
        if call.declared.value < 0 {
          return Err(NegativeSize);
        }
        if call.declared.value > limits.maxFileBytes {
          return Ok(Some(FileSizeBudget));
        }
        if aggregateBytesUsed + call.declared.value > limits.maxAggregateBytes {
          return Ok(Some(AggregateBudget));
        }
      }
      if call.lateAtStart {
        return Ok(Some(ElapsedBudget));
      }
      if downloadsUsed >= limits.maxDownloads {
        return Ok(Some(CountBudget));
      }
      return Ok(None);
    }

    /** The loop over chunks; the running total is charged chunk by chunk. */
    method RunTransfer(turns: seq<Turn>) returns (ending: Ending, written: seq<byte>)
      requires ValidLimits(limits) && aggregateBytesUsed <= limits.maxAggregateBytes
      modifies this`aggregateBytesUsed
      ensures (ending, written) == Transfer(limits, old(aggregateBytesUsed), [], turns)
      ensures aggregateBytesUsed == old(aggregateBytesUsed) + |written|
    {
      written := [];
      var i := 0;
      while i < |turns|
        invariant i <= |turns|
        invariant aggregateBytesUsed == old(aggregateBytesUsed) + |written|
        invariant Transfer(limits, old(aggregateBytesUsed), [], turns)
               == Transfer(limits, old(aggregateBytesUsed), written, turns[i..])
      {
        var turn := turns[i];
        ghost var rest := turns[i..];
        assert rest[0] == turn && rest[1..] == turns[i + 1..];
        if turn.item.Cancelled? {
          return Raised(TransferCancelled, []), written;
        }
        if turn.item.SourceFails? {
          return Raised(TransferFailed, []), written;
        }
        if turn.item.Interrupts? {
          return BrokenOff([]), written;
        }
        if turn.late {
          return Stopped(ElapsedBudget), written;
        }
        if turn.item.NotBytes? {
          return Raised(TransferFailed, []), written;
        }
        var data := turn.item.bytes;
        var nextFileSize := |written| + |data|;
        var nextAggregate := aggregateBytesUsed + |data|;
        if nextFileSize > limits.maxFileBytes {
          return Stopped(FileSizeBudget), written;
        }
        if nextAggregate > limits.maxAggregateBytes {
          return Stopped(AggregateBudget), written;
        }
        if turn.write.Fails? {
          return Raised(TransferFailed, Landed(data, turn.write.landed)), written;
        }
        if turn.write.Breaks? {
          return BrokenOff(Landed(data, turn.write.landed)), written;
        }
        written := written + data;
        aggregateBytesUsed := nextAggregate;
        i := i + 1;
      }
      return Complete, written;
    }

    /** From the moment the download has a name and a slot. */
    method Receive(call: Call, token: string) returns (r: Result<Record, CallError>)
      requires Valid()
      modifies this
      ensures (r, View()) == Received(limits, old(View()), call, token)
    {
      hide Sound, Transfer;
      ghost var before := View();
      SoundMeans(limits, before);
      var aggregateBefore := aggregateBytesUsed;
      downloadsUsed := downloadsUsed + 1;
      match call.opening {
        case OpenInterrupted => return Err(Interrupted);
        case OpenFails =>
          if call.finish.ReadBackRaises? {
            return Err(ReadBackFailed);
          }
          if call.finish.EndRaises? {
            return Err(Interrupted);
          }
          r := Ok(Record(Incomplete, 0, None, None, Some(TransferFailed)));
          records := records + [r.value];
          return;
        case Opens =>
      }
      var ending, written := RunTransfer(call.turns);
      var content := Kept(Attempted(ending, written), call.flush);
      if ending.BrokenOff? && call.flush.Flushed? {
        files := files[Partial(token) := content];
        lost := lost + |written|;
        return Err(Interrupted);
      }
      var reason := ReasonFor(ending, written, call);
      if reason.None? {
        if call.finish == PromotionRaises(false) {
          files := files[Partial(token) := written];
          lost := lost + |written|;
          return Err(PromotionFailed);
        }
        files := files[Final(token) := written];
        if call.finish.PromotionRaises? || call.finish.EndRaises? {
          lost := lost + |written|;
          return Err(if call.finish.EndRaises? then Interrupted else PromotionFailed);
        }
        r := Ok(Record(Quarantined, |written|, Some(written), Some(Final(token)), None));
      } else {
        files := files[Partial(token) := content];
        if call.finish.ReadBackRaises? {
          lost := lost + |written|;
          return Err(ReadBackFailed);
        }
        aggregateBytesUsed := aggregateBefore + |content|;
        if call.finish.EndRaises? {
          lost := lost + |content|;
          return Err(Interrupted);
        }
        r := Ok(Record(Incomplete, |content|, DigestOf(content), Some(Partial(token)), reason));
      }
      records := records + [r.value];
    }

    method QuarantineChunks(call: Call) returns (r: Result<Record, CallError>)
      requires Valid()
      modifies this
      ensures Valid()
      ensures (r, View()) == Handled(limits, foreign, old(View()), call)
    {
      hide Sound, Received, Allocation;
      HandledKeeps(limits, foreign, View(), call);
      if call.badSource {
        return Err(BadSource);
      }
      var refusal := CheckAdmission(call);
      if refusal.Err? {
        return Err(refusal.error);
      }
      if refusal.value.Some? {
        if call.finish.EndRaises? {
          return Err(Interrupted);
        }
        r := Ok(BlockedRecord(refusal.value.value));
        records := records + [r.value];
        return;
      }
      var token := Allocate(call.tokens);
      if token.Err? {
        return Err(token.error);
      }
      if call.rootFails {
        return Err(RootFailed);
      }
      r := Receive(call, token.value);
    }
  }

  /** Any calls on one quarantine. */
  method RunCalls(q: DownloadQuarantine, calls: seq<Call>)
    requires q.Valid()
    modifies q
    ensures q.Valid() && q.View() == HandledAll(q.limits, q.foreign, old(q.View()), calls)
  {
    hide Sound, Handled;
    for i := 0 to |calls|
      invariant q.Valid() && q.View() == HandledAll(q.limits, q.foreign, old(q.View()), calls[..i])
    {
      assert calls[..i + 1][..i] == calls[..i];
      var r := q.QuarantineChunks(calls[i]);
    }
    assert calls[..|calls|] == calls;
  }
}
