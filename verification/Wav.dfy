/** The WAV chunk parser of audio_native_demucs.py and the float32 writer of scripts/audio_model_lock_common.py. */
module Wav {
  import opened Wrappers
  import opened Arithmetic
  import opened Bytes

  const RIFF: seq<byte> := [0x52, 0x49, 0x46, 0x46]
  const WAVE: seq<byte> := [0x57, 0x41, 0x56, 0x45]
  const FMT: seq<byte> := [0x66, 0x6D, 0x74, 0x20]
  const FACT: seq<byte> := [0x66, 0x61, 0x63, 0x74]
  const DATA: seq<byte> := [0x64, 0x61, 0x74, 0x61]

  datatype FmtFields = FmtFields(code: nat, channels: nat, rate: nat, byteRate: nat, blockAlign: nat, bits: nat)

  datatype Format = Format(fmt: FmtFields, dataBytes: nat, frames: nat)

  datatype WavError =
    | NotRiffWave | TruncatedChunk | ShortFmt | MissingPad | MissingChunk | BadAlignment
    | FieldMismatch | DurationMismatch | MissingStem

  // ----- the chunk layout of a RIFF form -----

  // An odd-sized body is followed by one pad byte of any value.
  datatype RiffChunk = RiffChunk(id: seq<byte>, body: seq<byte>, pad: seq<byte>)

  ghost predicate WellFormed(c: RiffChunk) {
    |c.id| == 4 && |c.body| < 0x1_0000_0000 && |c.pad| == |c.body| % 2
  }

  ghost predicate AllWellFormed(cs: seq<RiffChunk>) {
    forall i | 0 <= i < |cs| :: WellFormed(cs[i])
  }

  ghost function Encode(c: RiffChunk): seq<byte>
    requires WellFormed(c)
  {
    c.id + U32Le(|c.body|) + c.body + c.pad
  }

  ghost function EncodeAll(cs: seq<RiffChunk>): seq<byte>
    requires AllWellFormed(cs)
  {
    if cs == [] then [] else Encode(cs[0]) + EncodeAll(cs[1..])
  }

  /** The only way to cut bytes into chunks with fewer than 8 bytes left over, if there is one. */
  function Split(b: seq<byte>): (r: Option<seq<RiffChunk>>)
    ensures r.Some? ==> AllWellFormed(r.value)
  {
    if |b| < 8 then Some([])
    else
      var size: int := FromU32Le(b[4..8]);
      var next := 8 + size + size % 2;
      if |b| < next then None
      else
        match Split(b[next..])
        case None => None
        case Some(rest) => Some([RiffChunk(b[..4], b[8..8 + size], b[8 + size..next])] + rest)
  }

  /** b is a sequence of padded chunks followed by fewer than 8 bytes. */
  ghost predicate SplitsInto(b: seq<byte>, cs: seq<RiffChunk>) {
    AllWellFormed(cs) && EncodeAll(cs) <= b && |b| < |EncodeAll(cs)| + 8
  }

  lemma EncodeHead(b: seq<byte>, size: nat, next: nat)
    requires |b| >= 8 && size == FromU32Le(b[4..8]) && next == 8 + size + size % 2 <= |b|
    ensures Encode(RiffChunk(b[..4], b[8..8 + size], b[8 + size..next])) == b[..next]
  {
    hide FromU32Le, U32Le;
    FieldRestored(b[4..8]);
    assert b[..4] + b[4..8] + b[8..8 + size] + b[8 + size..next] == b[..next];
  }

  lemma PrependHead(b: seq<byte>, next: nat, c: RiffChunk, rest: seq<RiffChunk>)
    requires next <= |b| && WellFormed(c) && Encode(c) == b[..next] && SplitsInto(b[next..], rest)
    ensures SplitsInto(b, [c] + rest)
  {
  }

  lemma {:induction false} SplitIsSound(b: seq<byte>)
    requires Split(b).Some?
    ensures SplitsInto(b, Split(b).value)
  {
    if |b| >= 8 {
      hide FromU32Le, U32Le, Encode;
      var size: int := FromU32Le(b[4..8]);
      var next := 8 + size + size % 2;
      EncodeHead(b, size, next);
      SplitIsSound(b[next..]);
      PrependHead(b, next, RiffChunk(b[..4], b[8..8 + size], b[8 + size..next]), Split(b[next..]).value);
    }
  }

  lemma DivStep(q: int, r: int)
    requires 0 <= r < 0x100
    ensures (r + 0x100 * q) / 0x100 == q && (r + 0x100 * q) % 0x100 == r
  {
  }

  lemma FieldRestored(b: seq<byte>)
    requires |b| == 4
    ensures U32Le(FromU32Le(b)) == b
  {
    var b0: int, b1: int, b2: int, b3: int := b[0], b[1], b[2], b[3];
    var n: int := FromU32Le(b);
    var q1, q2 := b1 + 0x100 * (b2 + 0x100 * b3), b2 + 0x100 * b3;
    assert n == b0 + 0x100 * q1;
    DivStep(q1, b0);
    DivStep(q2, b1);
    DivStep(b3, b2);
    assert n / 0x1_0000 == q1 / 0x100 && n / 0x100_0000 == q2 / 0x100;
  }

  lemma SplitOne(c: RiffChunk, tail: seq<byte>)
    requires WellFormed(c)
    ensures Split(Encode(c) + tail) == match Split(tail) case None => None case Some(rest) => Some([c] + rest)
  {
    var b := Encode(c) + tail;
    var size := |c.body|;
    var next := 8 + size + size % 2;
    U32LeInverse(size);
    assert b[..4] == c.id;
    assert b[4..8] == U32Le(size);
    assert b[8..8 + size] == c.body;
    assert b[8 + size..next] == c.pad;
    assert b[next..] == tail;
  }

  lemma PrefixTail(x: seq<byte>, y: seq<byte>, b: seq<byte>)
    requires x + y <= b
    ensures |x| <= |b| && b == x + b[|x|..] && y <= b[|x|..]
  {
  }

  lemma {:induction false} SplitIsComplete(b: seq<byte>, cs: seq<RiffChunk>)
    requires SplitsInto(b, cs)
    ensures Split(b) == Some(cs)
  {
    if cs != [] {
      var next := |Encode(cs[0])|;
      PrefixTail(Encode(cs[0]), EncodeAll(cs[1..]), b);
      SplitOne(cs[0], b[next..]);
      SplitIsComplete(b[next..], cs[1..]);
      assert [cs[0]] + cs[1..] == cs;
    }
  }

  // ----- what an accepted file says -----

  function ReadFmt(b: seq<byte>): FmtFields
    requires |b| == 16
  {
    FmtFields(FromU16Le(b[..2]), FromU16Le(b[2..4]), FromU32Le(b[4..8]), FromU32Le(b[8..12]), FromU16Le(b[12..14]),
              FromU16Le(b[14..16]))
  }

  predicate LongFmts(cs: seq<RiffChunk>) {
    forall i | 0 <= i < |cs| && cs[i].id == FMT :: |cs[i].body| >= 16
  }

  /** The fields of the last fmt chunk. */
  function LastFmt(cs: seq<RiffChunk>): Option<FmtFields>
    requires LongFmts(cs)
  {
    if cs == [] then None
    else
      var c := cs[|cs| - 1];
      if c.id == FMT then Some(ReadFmt(c.body[..16])) else LastFmt(cs[..|cs| - 1])
  }

  /** The size of the last data chunk. */
  function LastData(cs: seq<RiffChunk>): Option<nat> {
    if cs == [] then None
    else
      var c := cs[|cs| - 1];
      if c.id == DATA then Some(|c.body|) else LastData(cs[..|cs| - 1])
  }

  predicate HasHeader(file: seq<byte>) {
    |file| >= 12 && file[..4] == RIFF && file[8..12] == WAVE
  }

  predicate Aligned(align: nat, size: nat) {
    align > 0 && size % align == 0
  }

  /** The chunks of the file, when it has the form header and every fmt chunk is long enough. */
  function Readable(file: seq<byte>): Option<seq<RiffChunk>> {
    if !HasHeader(file) then None
    else
      match Split(file[12..])
      case None => None
      case Some(cs) => if LongFmts(cs) then Some(cs) else None
  }

  /** What inspection reports, or None for a rejected file. */
  function Inspected(file: seq<byte>): Option<Format> {
    match Readable(file)
    case None => None
    case Some(cs) =>
      if !HasHeader(file) || !LongFmts(cs) || LastFmt(cs).None? || LastData(cs).None? then None
      else
        var fmt, size := LastFmt(cs).value, LastData(cs).value;
        if Aligned(fmt.blockAlign, size) then Some(Format(fmt, size, size / fmt.blockAlign)) else None
  }

  /** Acceptance, said without the parser: a header, then padded chunks and fewer than 8 stray bytes. */
  lemma AcceptedExactlyWhen(file: seq<byte>, f: Format)
    ensures Inspected(file) == Some(f) <==>
            && HasHeader(file)
            && exists cs ::
                 && SplitsInto(file[12..], cs) && LongFmts(cs)
                 && LastFmt(cs) == Some(f.fmt) && LastData(cs) == Some(f.dataBytes)
                 && Aligned(f.fmt.blockAlign, f.dataBytes) && f.frames == f.dataBytes / f.fmt.blockAlign
  {
    if HasHeader(file) {
      if Split(file[12..]).Some? {
        SplitIsSound(file[12..]);
      }
      forall cs | SplitsInto(file[12..], cs) ensures Split(file[12..]) == Some(cs) {
        SplitIsComplete(file[12..], cs);
      }
    }
  }

  // ----- the parser -----

  lemma LastAppend(cs: seq<RiffChunk>, c: RiffChunk)
    requires LongFmts(cs) && (c.id == FMT ==> |c.body| >= 16)
    ensures LongFmts(cs + [c])
    ensures LastFmt(cs + [c]) == if c.id == FMT then Some(ReadFmt(c.body[..16])) else LastFmt(cs)
    ensures LastData(cs + [c]) == if c.id == DATA then Some(|c.body|) else LastData(cs)
  {
  }

  // The chunks still to come after seen, as a decomposition of the whole body.
  ghost predicate Continues(whole: seq<byte>, seen: seq<RiffChunk>, rest: seq<byte>) {
    Split(whole) == match Split(rest) case None => None case Some(more) => Some(seen + more)
  }

  // The chunk whose header is at position.
  ghost function ChunkAt(file: seq<byte>, position: nat): RiffChunk
    requires position + 8 <= |file|
    requires var size: int := FromU32Le(file[position + 4..position + 8]); position + 8 + size + size % 2 <= |file|
  {
    var size: int := FromU32Le(file[position + 4..position + 8]);
    var start := position + 8;
    RiffChunk(file[position..position + 4], file[start..start + size], file[start + size..start + size + size % 2])
  }

  lemma HeadOf(file: seq<byte>, position: nat, next: nat)
    requires position + 8 <= |file|
    requires var size: int := FromU32Le(file[position + 4..position + 8]);
             next == position + 8 + size + size % 2 && next <= |file|
    ensures Split(file[position..]) ==
            match Split(file[next..]) case None => None case Some(more) => Some([ChunkAt(file, position)] + more)
  {
    var rest, c := file[position..], ChunkAt(file, position);
    var size := |c.body|;
    assert rest[4..8] == file[position + 4..position + 8];
    assert rest[..4] == c.id;
    assert rest[8..8 + size] == c.body;
    assert rest[8 + size..next - position] == c.pad;
    assert rest[next - position..] == file[next..];
  }

  lemma ContinueOne(file: seq<byte>, whole: seq<byte>, seen: seq<RiffChunk>, position: nat, next: nat)
    requires position + 8 <= |file| && Continues(whole, seen, file[position..])
    requires var size: int := FromU32Le(file[position + 4..position + 8]);
             next == position + 8 + size + size % 2 && next <= |file|
    ensures Continues(whole, seen + [ChunkAt(file, position)], file[next..])
  {
    HeadOf(file, position, next);
    if Split(file[next..]).Some? {
      var more := Split(file[next..]).value;
      assert seen + ([ChunkAt(file, position)] + more) == seen + [ChunkAt(file, position)] + more;
    }
  }

  lemma FmtPayload(file: seq<byte>, position: nat)
    requires position + 8 <= |file|
    requires var size: int := FromU32Le(file[position + 4..position + 8]); position + 8 + size + size % 2 <= |file|
    ensures |ChunkAt(file, position).body| >= 16 ==>
              ChunkAt(file, position).body[..16] == file[position + 8..position + 24]
  {
  }

  lemma TooShort(file: seq<byte>, whole: seq<byte>, seen: seq<RiffChunk>, position: nat)
    requires position + 8 <= |file| && Continues(whole, seen, file[position..])
    requires var size: int := FromU32Le(file[position + 4..position + 8]); position + 8 + size + size % 2 > |file|
    ensures Split(whole).None?
  {
  }

  lemma AtEnd(file: seq<byte>, whole: seq<byte>, seen: seq<RiffChunk>, position: nat)
    requires |file| - 8 < position <= |file| && Continues(whole, seen, file[position..])
    ensures Split(whole) == Some(seen)
  {
    assert seen + [] == seen;
  }

  // ----- where an unreadable file breaks off -----

  /** After these readable chunks the rest starts with a chunk header. */
  ghost predicate StopsAt(b: seq<byte>, seen: seq<RiffChunk>, rest: seq<byte>) {
    AllWellFormed(seen) && LongFmts(seen) && b == EncodeAll(seen) + rest && |rest| >= 8
  }

  /** What is wrong with the chunk whose header comes next: cut short, a short fmt, or no pad byte after an odd body. */
  ghost predicate Breaks(rest: seq<byte>, e: WavError) {
    && |rest| >= 8
    && var size: int := FromU32Le(rest[4..8]);
       match e
       case TruncatedChunk => size > |rest| - 8
       case ShortFmt => size <= |rest| - 8 && rest[..4] == [102, 109, 116, 32] && size < 16
       case MissingPad =>
         size == |rest| - 8 && size % 2 == 1 && !(rest[..4] == [102, 109, 116, 32] && size < 16)
       case _ => false
  }

  ghost predicate BreaksOff(b: seq<byte>, e: WavError) {
    exists seen, rest :: StopsAt(b, seen, rest) && Breaks(rest, e)
  }

  lemma {:induction false} EncodeSnoc(seen: seq<RiffChunk>, c: RiffChunk)
    requires AllWellFormed(seen) && WellFormed(c)
    ensures AllWellFormed(seen + [c]) && EncodeAll(seen + [c]) == EncodeAll(seen) + Encode(c)
  {
    if seen == [] {
      assert [] + [c] == [c] && [c][1..] == [];
      assert EncodeAll([c]) == Encode(c) + [];
    } else {
      EncodeSnoc(seen[1..], c);
      assert (seen + [c])[1..] == seen[1..] + [c];
      assert Encode(seen[0]) + (EncodeAll(seen[1..]) + Encode(c)) == EncodeAll(seen) + Encode(c);
    }
  }

  lemma StopsLater(file: seq<byte>, whole: seq<byte>, seen: seq<RiffChunk>, position: nat, next: nat)
    requires position + 8 <= |file| && AllWellFormed(seen) && whole == EncodeAll(seen) + file[position..]
    requires var size: int := FromU32Le(file[position + 4..position + 8]);
             next == position + 8 + size + size % 2 && next <= |file|
    ensures WellFormed(ChunkAt(file, position)) && AllWellFormed(seen + [ChunkAt(file, position)])
    ensures whole == EncodeAll(seen + [ChunkAt(file, position)]) + file[next..]
  {
    hide FromU32Le, U32Le;
    var rest, c := file[position..], ChunkAt(file, position);
    var size := |c.body|;
    assert rest[4..8] == file[position + 4..position + 8];
    EncodeHead(rest, size, next - position);
    assert rest[..4] == c.id && rest[8..8 + size] == c.body && rest[8 + size..next - position] == c.pad;
    EncodeSnoc(seen, c);
    assert rest == Encode(c) + file[next..];
  }

  lemma BreakFacts(file: seq<byte>, position: nat, size: int)
    requires position + 8 <= |file| && size == FromU32Le(file[position + 4..position + 8])
    ensures var rest := file[position..];
            && (position + 8 + size > |file| ==> Breaks(rest, TruncatedChunk))
            && (position + 8 + size <= |file| && file[position..position + 4] == FMT && size < 16 ==>
                  Breaks(rest, ShortFmt))
            && (position + 8 + size == |file| && size % 2 == 1 && !(file[position..position + 4] == FMT && size < 16)
                ==> Breaks(rest, MissingPad))
  {
    assert file[position..][4..8] == file[position + 4..position + 8];
    assert file[position..][..4] == file[position..position + 4];
  }

  lemma NothingEncoded(whole: seq<byte>)
    ensures AllWellFormed([]) && whole == EncodeAll([]) + whole
  {
  }

  lemma BreaksHere(file: seq<byte>, whole: seq<byte>, seen: seq<RiffChunk>, position: nat, e: WavError)
    requires position + 8 <= |file| && AllWellFormed(seen) && LongFmts(seen)
    requires whole == EncodeAll(seen) + file[position..] && Breaks(file[position..], e)
    ensures BreaksOff(whole, e)
  {
    assert StopsAt(whole, seen, file[position..]);
  }

  // What the cursor has walked past.
  ghost predicate Walked(file: seq<byte>, seen: seq<RiffChunk>, position: nat) {
    && 12 <= position <= |file| && Continues(file[12..], seen, file[position..])
    && AllWellFormed(seen) && LongFmts(seen) && file[12..] == EncodeAll(seen) + file[position..]
  }

  lemma WalkStarts(file: seq<byte>)
    requires |file| >= 12
    ensures Walked(file, [], 12)
  {
    NothingSeen(file[12..]);
    NothingEncoded(file[12..]);
  }

  lemma WalksOn(file: seq<byte>, seen: seq<RiffChunk>, position: nat, next: nat)
    requires Walked(file, seen, position) && LongFmts(seen) && position + 8 <= |file|
    requires var size: int := FromU32Le(file[position + 4..position + 8]);
             && next == position + 8 + size + size % 2 && next <= |file|
             && (file[position..position + 4] == FMT ==> size >= 16)
    ensures var id, size: int := file[position..position + 4], FromU32Le(file[position + 4..position + 8]);
            var after := seen + [ChunkAt(file, position)];
            && Walked(file, after, next) && LongFmts(after)
            && LastFmt(after) == (if id == FMT then Some(ReadFmt(file[position + 8..position + 24])) else LastFmt(seen))
            && LastData(after) == if id == DATA then Some(size) else LastData(seen)
  {
    hide Continues, EncodeAll, LongFmts, LastFmt, LastData, ReadFmt, FromU32Le;
    ContinueOne(file, file[12..], seen, position, next);
    StopsLater(file, file[12..], seen, position, next);
    LastAppend(seen, ChunkAt(file, position));
    FmtPayload(file, position);
  }

  lemma WalkBreaks(file: seq<byte>, seen: seq<RiffChunk>, position: nat, e: WavError)
    requires Walked(file, seen, position) && position + 8 <= |file|
    requires var size: int := FromU32Le(file[position + 4..position + 8]);
             var end := position + 8 + size;
             var short := file[position..position + 4] == FMT && size < 16;
             match e
             case TruncatedChunk => end > |file|
             case ShortFmt => end <= |file| && short
             case MissingPad => end == |file| && size % 2 == 1 && !short
             case _ => false
    ensures BreaksOff(file[12..], e)
    ensures Split(file[12..]).None? || !LongFmts(Split(file[12..]).value)
  {
    BreakFacts(file, position, FromU32Le(file[position + 4..position + 8]));
    BreaksHere(file, file[12..], seen, position, e);
    if e == ShortFmt {
      ShortFmtRejected(file, file[12..], seen, position);
    } else {
      TooShort(file, file[12..], seen, position);
    }
  }

  /** The cursor loop: either the last fmt and data sizes of a readable file, or the reason it is not readable. */
  method WalkChunks(file: seq<byte>) returns (r: Result<(Option<FmtFields>, Option<nat>), WavError>)
    requires HasHeader(file)
    ensures r.Ok? ==> Readable(file).Some? && r.value == (LastFmt(Readable(file).value), LastData(Readable(file).value))
    ensures r.Err? ==> Readable(file).None? && r.error in {TruncatedChunk, ShortFmt, MissingPad}
    ensures r.Err? ==> BreaksOff(file[12..], r.error)
  {
    hide Walked, BreaksOff, ChunkAt, LongFmts, LastFmt, LastData, Split, ReadFmt, FromU32Le;
    var fmt: Option<FmtFields> := None;
    var dataBytes: Option<nat> := None;
    var position := 12;
    ghost var seen: seq<RiffChunk> := [];
    WalkStarts(file);
    NoChunks();
    while position + 8 <= |file|
      invariant 12 <= position <= |file| && Walked(file, seen, position)
      invariant LongFmts(seen) && fmt == LastFmt(seen) && dataBytes == LastData(seen)
      decreases |file| - position
    {
      var id := file[position..position + 4];
      var size: int := FromU32Le(file[position + 4..position + 8]);
      var end := position + 8 + size;
      if end > |file| {
        WalkBreaks(file, seen, position, TruncatedChunk);
        return Err(TruncatedChunk);
      }
      if id == FMT && size < 16 {
        WalkBreaks(file, seen, position, ShortFmt);
        return Err(ShortFmt);
      }
      if size % 2 == 1 && end >= |file| {
        WalkBreaks(file, seen, position, MissingPad);
        return Err(MissingPad);
      }
      WalksOn(file, seen, position, end + size % 2);
      seen := seen + [ChunkAt(file, position)];
      if id == FMT {
        fmt := Some(ReadFmt(file[position + 8..position + 24]));
      } else if id == DATA {
        dataBytes := Some(size);
      }
      position := end;
      if size % 2 == 1 {
        position := position + 1;
      }
    }
    WalkEnds(file, seen, position);
    return Ok((fmt, dataBytes));
  }

  lemma NoChunks()
    ensures LongFmts([]) && LastFmt([]) == None && LastData([]) == None
  {
  }

  lemma WalkEnds(file: seq<byte>, seen: seq<RiffChunk>, position: nat)
    requires |file| - 8 < position && Walked(file, seen, position)
    ensures Split(file[12..]) == Some(seen)
  {
    AtEnd(file, file[12..], seen, position);
  }

  method InspectWavFormat(file: seq<byte>) returns (r: Result<Format, WavError>)
    ensures r.Ok? <==> Inspected(file).Some?
    ensures r.Ok? ==> r.value == Inspected(file).value
    ensures r == Err(NotRiffWave) <==> !HasHeader(file)
    ensures r.Err? && r.error in {TruncatedChunk, ShortFmt, MissingPad} <==> HasHeader(file) && Readable(file).None?
    ensures r.Err? && r.error in {TruncatedChunk, ShortFmt, MissingPad} ==> BreaksOff(file[12..], r.error)
    ensures r == Err(MissingChunk) <==>
            Readable(file).Some? && (LastFmt(Readable(file).value).None? || LastData(Readable(file).value).None?)
    ensures r.Err? ==> r.error in {NotRiffWave, TruncatedChunk, ShortFmt, MissingPad, MissingChunk, BadAlignment}
  {
    hide LastFmt, LastData, Split, ReadFmt;
    if |file| < 12 || file[..4] != RIFF || file[8..12] != WAVE {
      return Err(NotRiffWave);
    }
    var walked := WalkChunks(file);
    if walked.Err? {
      return Err(walked.error);
    }
    var (fmt, dataBytes) := walked.value;
    if fmt.None? || dataBytes.None? {
      return Err(MissingChunk);
    }
    var align := fmt.value.blockAlign;
    if align <= 0 || dataBytes.value % align != 0 {
      return Err(BadAlignment);
    }
    return Ok(Format(fmt.value, dataBytes.value, dataBytes.value / align));
  }

  lemma NothingSeen(whole: seq<byte>)
    ensures Continues(whole, [], whole)
  {
    if Split(whole).Some? {
      assert [] + Split(whole).value == Split(whole).value;
    }
  }

  lemma ShortFmtRejected(file: seq<byte>, whole: seq<byte>, seen: seq<RiffChunk>, position: nat)
    requires position + 8 <= |file| && Continues(whole, seen, file[position..])
    requires file[position..position + 4] == FMT && FromU32Le(file[position + 4..position + 8]) < 16
    ensures Split(whole).None? || !LongFmts(Split(whole).value)
  {
    var rest := file[position..];
    assert rest[4..8] == file[position + 4..position + 8] && rest[..4] == FMT;
    if Split(rest).Some? {
      var c := Split(rest).value[0];
      assert (seen + Split(rest).value)[|seen|] == c && c.id == FMT && |c.body| < 16;
    }
  }

  // ----- the writer -----

  type Sample = s: seq<byte> | |s| == 4 witness [0, 0, 0, 0]

  // The array passed in, by its number of dimensions; float32 samples are their four little-endian bytes.
  datatype Audio =
    | Matrix(channels: seq<seq<Sample>>, samples: nat)
    | Batch(items: seq<Audio>)
    | OtherRank

  datatype WriteError = BadBatch | BadRank | BadChannels | FieldOverflow

  ghost predicate Rectangular(a: Audio) {
    match a
    case Matrix(channels, samples) => forall c | 0 <= c < |channels| :: |channels[c]| == samples
    case Batch(items) => forall i | 0 <= i < |items| :: items[i].Matrix? && Rectangular(items[i])
    case OtherRank => true
  }

  /** Sample i of every channel, in channel order. */
  function Frame(channels: seq<seq<Sample>>, i: nat): (b: seq<byte>)
    requires forall c | 0 <= c < |channels| :: i < |channels[c]|
    ensures |b| == 4 * |channels|
  {
    if channels == [] then [] else channels[0][i] + Frame(channels[1..], i)
  }

  function Interleaved(channels: seq<seq<Sample>>, n: nat): (b: seq<byte>)
    requires forall c | 0 <= c < |channels| :: n <= |channels[c]|
    ensures |b| == n * (4 * |channels|)
  {
    if n == 0 then []
    else
      assert n * (4 * |channels|) == (n - 1) * (4 * |channels|) + 4 * |channels|;
      Interleaved(channels, n - 1) + Frame(channels, n - 1)
  }

  lemma {:induction false} FrameHolds(channels: seq<seq<Sample>>, i: nat, c: nat)
    requires forall d | 0 <= d < |channels| :: i < |channels[d]|
    requires c < |channels|
    ensures Frame(channels, i)[4 * c..4 * c + 4] == channels[c][i]
  {
    if c > 0 {
      FrameHolds(channels[1..], i, c - 1);
      assert Frame(channels, i)[4 * c..4 * c + 4] == Frame(channels[1..], i)[4 * (c - 1)..4 * (c - 1) + 4];
    }
  }

  /** Frame i follows exactly the frames before it. */
  lemma {:induction false} FrameAt(channels: seq<seq<Sample>>, n: nat, i: nat)
    requires forall d | 0 <= d < |channels| :: n <= |channels[d]|
    requires i < n
    ensures Interleaved(channels, i) + Frame(channels, i) <= Interleaved(channels, n)
    decreases n
  {
    if i < n - 1 {
      FrameAt(channels, n - 1, i);
      assert Interleaved(channels, n - 1) <= Interleaved(channels, n);
    }
  }

  predicate Fits16(n: int) {
    0 <= n < 0x1_0000
  }

  predicate Fits32(n: int) {
    0 <= n < 0x1_0000_0000
  }

  function PackFmt(f: FmtFields): (b: seq<byte>)
    requires Fits16(f.code) && Fits16(f.channels) && Fits32(f.rate) && Fits32(f.byteRate) && Fits16(f.blockAlign)
    requires Fits16(f.bits)
    ensures |b| == 16
  {
    U16Le(f.code) + U16Le(f.channels) + U32Le(f.rate) + U32Le(f.byteRate) + U16Le(f.blockAlign) + U16Le(f.bits)
  }

  lemma FmtRoundTrip(f: FmtFields)
    requires Fits16(f.code) && Fits16(f.channels) && Fits32(f.rate) && Fits32(f.byteRate) && Fits16(f.blockAlign)
    requires Fits16(f.bits)
    ensures ReadFmt(PackFmt(f)) == f
  {
    hide U16Le, U32Le, FromU16Le, FromU32Le;
    var b := PackFmt(f);
    assert b[..2] == U16Le(f.code) && b[2..4] == U16Le(f.channels);
    assert b[4..8] == U32Le(f.rate) && b[8..12] == U32Le(f.byteRate);
    assert b[12..14] == U16Le(f.blockAlign) && b[14..16] == U16Le(f.bits);
    U16LeInverse(f.code);
    U16LeInverse(f.channels);
    U32LeInverse(f.rate);
    U32LeInverse(f.byteRate);
    U16LeInverse(f.blockAlign);
    U16LeInverse(f.bits);
  }

  function FloatFmt(channels: nat, rate: nat): FmtFields {
    FmtFields(3, channels, rate, rate * channels * 4, channels * 4, 32)
  }

  /** The two-dimensional array that gets written. */
  function Selected(audio: Audio): Option<Audio> {
    match audio
    case Matrix(_, _) => Some(audio)
    case Batch(items) => if |items| == 1 && items[0].Matrix? then Some(items[0]) else None
    case OtherRank => None
  }

  lemma MatrixSize(m: Audio)
    requires m.Matrix? && Rectangular(m)
    ensures |Interleaved(m.channels, m.samples)| == m.samples * |m.channels| * 4
  {
    assert m.samples * (4 * |m.channels|) == m.samples * |m.channels| * 4;
  }

  // ----- the bytes of a recording, one by one -----

  /** The four-byte number at p, least significant byte first. */
  ghost function Number32(b: seq<byte>, p: nat): int
    requires p + 4 <= |b|
  {
    b[p] as int + 0x100 * b[p + 1] as int + 0x1_0000 * b[p + 2] as int + 0x100_0000 * b[p + 3] as int
  }

  ghost function Number16(b: seq<byte>, p: nat): int
    requires p + 2 <= |b|
  {
    b[p] as int + 0x100 * b[p + 1] as int
  }

  /** The 56 bytes before the samples: the form header, the fmt and fact chunks and the header of the data chunk. */
  ghost predicate HasFields(file: seq<byte>, channels: nat, samples: nat, rate: int) {
    && |file| >= 56 && |file| == 56 + samples * channels * 4
    && file[..4] == [82, 73, 70, 70] && Number32(file, 4) == |file| - 8 && file[8..12] == [87, 65, 86, 69]
    && file[12..16] == [102, 109, 116, 32] && Number32(file, 16) == 16
    && Number16(file, 20) == 3 && Number16(file, 22) == channels
    && Number32(file, 24) == rate && Number32(file, 28) == rate * channels * 4
    && Number16(file, 32) == channels * 4 && Number16(file, 34) == 32
    && file[36..40] == [102, 97, 99, 116] && Number32(file, 40) == 4 && Number32(file, 44) == samples
    && file[48..52] == [100, 97, 116, 97] && Number32(file, 52) == samples * channels * 4
  }

  /** The four bytes of channel c's sample i stand at their place after the header. */
  ghost predicate SampleStands(file: seq<byte>, a: Audio, i: nat, c: nat)
    requires a.Matrix? && Rectangular(a) && i < a.samples && c < |a.channels|
  {
    var at := 56 + (i * |a.channels| + c) * 4;
    0 <= at && at + 4 <= |file| && file[at..at + 4] == a.channels[c][i]
  }

  ghost predicate HoldsSamples(file: seq<byte>, a: Audio)
    requires a.Matrix? && Rectangular(a)
  {
    forall i: nat, c: nat | i < a.samples && c < |a.channels| :: SampleStands(file, a, i, c)
  }

  lemma Number32At(b: seq<byte>, p: nat, n: u32)
    requires p + 4 <= |b| && b[p..p + 4] == U32Le(n)
    ensures Number32(b, p) == n
  {
    U32LePlaces(n);
    var field := b[p..p + 4];
    assert field[0] == b[p] && field[1] == b[p + 1] && field[2] == b[p + 2] && field[3] == b[p + 3];
  }

  lemma Number16At(b: seq<byte>, p: nat, n: nat)
    requires n < 0x1_0000 && p + 2 <= |b| && b[p..p + 2] == U16Le(n)
    ensures Number16(b, p) == n
  {
    U16LePlaces(n);
    var field := b[p..p + 2];
    assert field[0] == b[p] && field[1] == b[p + 1];
  }

  lemma PartOf(file: seq<byte>, p: nat, b: seq<byte>, i: nat, k: nat)
    requires p + |b| <= |file| && file[p..p + |b|] == b && i <= k <= |b|
    ensures file[p + i..p + k] == b[i..k]
  {
    forall j | 0 <= j < k - i ensures file[p + i..p + k][j] == b[i..k][j] {
      assert file[p..p + |b|][i + j] == file[p + i + j];
    }
  }

  lemma FmtSlices(file: seq<byte>, f: FmtFields, p: nat)
    requires Fits16(f.code) && Fits16(f.channels) && Fits32(f.rate) && Fits32(f.byteRate) && Fits16(f.blockAlign)
    requires Fits16(f.bits) && p + 16 <= |file| && file[p..p + 16] == PackFmt(f)
    ensures Number16(file, p) == f.code && Number16(file, p + 2) == f.channels && Number32(file, p + 4) == f.rate
    ensures Number32(file, p + 8) == f.byteRate && Number16(file, p + 12) == f.blockAlign
    ensures Number16(file, p + 14) == f.bits
  {
    hide U16Le, U32Le, Number16, Number32;
    var b := PackFmt(f);
    PartOf(file, p, b, 0, 2);
    PartOf(file, p, b, 2, 4);
    PartOf(file, p, b, 4, 8);
    PartOf(file, p, b, 8, 12);
    PartOf(file, p, b, 12, 14);
    PartOf(file, p, b, 14, 16);
    assert b[..2] == U16Le(f.code) && b[2..4] == U16Le(f.channels);
    assert b[4..8] == U32Le(f.rate) && b[8..12] == U32Le(f.byteRate);
    assert b[12..14] == U16Le(f.blockAlign) && b[14..16] == U16Le(f.bits);
    Number16At(file, p, f.code);
    Number16At(file, p + 2, f.channels);
    Number32At(file, p + 4, f.rate);
    Number32At(file, p + 8, f.byteRate);
    Number16At(file, p + 12, f.blockAlign);
    Number16At(file, p + 14, f.bits);
  }

  lemma RecordingSlices(file: seq<byte>, a: Audio, rate: int)
    requires IsRecording(file, a, rate)
    ensures var data := Interleaved(a.channels, a.samples);
            && |file| == 56 + |data|
            && file[..4] == RIFF && file[4..8] == U32Le(48 + |data|) && file[8..12] == WAVE
            && file[12..16] == FMT && file[16..20] == U32Le(16)
            && file[20..36] == PackFmt(FloatFmt(|a.channels|, rate))
            && file[36..40] == FACT && file[40..44] == U32Le(4) && file[44..48] == U32Le(a.samples)
            && file[48..52] == DATA && file[52..56] == U32Le(|data|) && file[56..] == data
  {
    hide U32Le, PackFmt, Interleaved;
    RecordingLayout(file, a, rate);
    var body := RecordedBody(a, rate);
    assert file[12..16] == body[..4] == FMT && file[16..20] == body[4..8] == U32Le(16);
    assert file[20..36] == body[8..24] == PackFmt(FloatFmt(|a.channels|, rate));
    assert file[36..40] == body[24..28] == FACT && file[40..44] == body[28..32] == U32Le(4);
    assert file[44..48] == body[32..36] == U32Le(a.samples) && file[48..52] == body[36..40] == DATA;
    assert file[52..56] == body[40..44] == U32Le(|Interleaved(a.channels, a.samples)|);
    assert file[56..] == body[44..] == Interleaved(a.channels, a.samples);
  }

  lemma RecordingFields(file: seq<byte>, a: Audio, rate: int)
    requires IsRecording(file, a, rate)
    ensures HasFields(file, |a.channels|, a.samples, rate)
  {
    hide U32Le, PackFmt, Interleaved, Number16, Number32;
    RecordingSlices(file, a, rate);
    MatrixSize(a);
    Number32At(file, 4, |file| - 8);
    Number32At(file, 16, 16);
    FmtSlices(file, FloatFmt(|a.channels|, rate), 20);
    Number32At(file, 40, 4);
    Number32At(file, 44, a.samples);
    Number32At(file, 52, a.samples * |a.channels| * 4);
  }

  lemma InterleavedSample(a: Audio, i: nat, c: nat)
    requires a.Matrix? && Rectangular(a) && i < a.samples && c < |a.channels|
    ensures var at := (i * |a.channels| + c) * 4;
            var data := Interleaved(a.channels, a.samples);
            0 <= at && at + 4 <= |data| && data[at..at + 4] == a.channels[c][i]
  {
    hide Interleaved, Frame;
    var m, data := 4 * |a.channels|, Interleaved(a.channels, a.samples);
    FrameAt(a.channels, a.samples, i);
    FrameHolds(a.channels, i, c);
    assert (i * |a.channels| + c) * 4 == i * m + 4 * c;
    NestedSlice(data, Interleaved(a.channels, i), Frame(a.channels, i), 4 * c);
  }

  lemma NestedSlice(data: seq<byte>, before: seq<byte>, part: seq<byte>, k: nat)
    requires before + part <= data && k + 4 <= |part|
    ensures data[|before| + k..|before| + k + 4] == part[k..k + 4]
  {
    assert part == data[|before|..|before| + |part|];
  }

  lemma RecordingSample(file: seq<byte>, a: Audio, i: nat, c: nat)
    requires a.Matrix? && Rectangular(a) && i < a.samples && c < |a.channels|
    requires |file| >= 56 && file[56..] == Interleaved(a.channels, a.samples)
    ensures SampleStands(file, a, i, c)
  {
    hide Interleaved;
    InterleavedSample(a, i, c);
    var at := (i * |a.channels| + c) * 4;
    assert file[56..][at..at + 4] == file[56 + at..56 + at + 4];
  }

  /** The file byte by byte: every header field, and every sample of every channel at its place. */
  lemma RecordingBytes(file: seq<byte>, a: Audio, rate: int)
    requires IsRecording(file, a, rate)
    ensures HasFields(file, |a.channels|, a.samples, rate) && HoldsSamples(file, a)
  {
    hide HasFields, SampleStands, Interleaved, RecordedBody;
    RecordingSlices(file, a, rate);
    RecordingFields(file, a, rate);
    forall i: nat, c: nat | i < a.samples && c < |a.channels| ensures SampleStands(file, a, i, c) {
      RecordingSample(file, a, i, c);
    }
  }

  // ----- the writer itself -----

  /** The file once it is open; a RIFF size that does not fit is found after the first four bytes are out. */
  method EmitRecording(m: Audio, sampleRate: int) returns (r: (Result<(), WriteError>, seq<byte>))
    requires m.Matrix? && Rectangular(m) && |m.channels| in {1, 2} && Fits32(sampleRate)
    requires Fits32(sampleRate * |m.channels| * 4) && Fits32(m.samples)
    ensures r.0.Ok? <==> Recordable(m, sampleRate)
    ensures r.0.Ok? ==> IsRecording(r.1, m, sampleRate)
    ensures r.0.Err? ==> r == (Err(FieldOverflow), RIFF)
  {
    var channels, samples := |m.channels|, m.samples;
    var interleaved := Interleaved(m.channels, samples);
    var fmt := PackFmt(FmtFields(3, channels, sampleRate, sampleRate * channels * 4, channels * 4, 32));
    var fact := U32Le(samples);
    var riffSize := 4 + (8 + |fmt|) + (8 + |fact|) + (8 + |interleaved|);
    var handle := RIFF;
    if !Fits32(riffSize) {
      return (Err(FieldOverflow), handle);
    }
    handle := handle + U32Le(riffSize);
    handle := handle + WAVE;
    ghost var head := handle;
    handle := handle + (FMT + U32Le(|fmt|) + fmt);
    handle := handle + (FACT + U32Le(|fact|) + fact);
    handle := handle + (DATA + U32Le(|interleaved|) + interleaved);
    Regroup(head, FMT + U32Le(|fmt|) + fmt, FACT + U32Le(|fact|) + fact, DATA + U32Le(|interleaved|) + interleaved);
    return (Ok(()), handle);
  }

  /** The array and every field packed before the file is opened are in order. */
  predicate Opened(audio: Audio, rate: int) {
    && Selected(audio).Some? && |Selected(audio).value.channels| in {1, 2}
    && Fits32(rate) && Fits32(rate * |Selected(audio).value.channels| * 4) && Fits32(Selected(audio).value.samples)
  }

  function RiffSize(m: Audio): int
    requires m.Matrix?
  {
    48 + m.samples * |m.channels| * 4
  }

  /**
   * What stays on disk: nothing when the file was never opened, a recording when everything fits, and just the four
   * bytes RIFF exactly when only the RIFF size does not fit.
   */
  method WriteFloat32Wav(audio: Audio, sampleRate: int) returns (r: Result<(), WriteError>, file: Option<seq<byte>>)
    requires Rectangular(audio)
    ensures file.Some? <==> Opened(audio, sampleRate)
    ensures r.Ok? <==> Opened(audio, sampleRate) && Fits32(RiffSize(Selected(audio).value))
    ensures r.Ok? ==> IsRecording(file.value, Selected(audio).value, sampleRate)
    ensures r.Ok? ==>
              var m := Selected(audio).value;
              HasFields(file.value, |m.channels|, m.samples, sampleRate) && HoldsSamples(file.value, m)
    ensures file == Some(RIFF) <==> Opened(audio, sampleRate) && !Fits32(RiffSize(Selected(audio).value))
    ensures file == Some(RIFF) ==> r == Err(FieldOverflow)
    ensures r == Err(BadBatch) <==> audio.Batch? && |audio.items| != 1
    ensures r == Err(BadRank) <==> !(audio.Batch? && |audio.items| != 1) && Selected(audio).None?
    ensures r == Err(BadChannels) <==> Selected(audio).Some? && |Selected(audio).value.channels| !in {1, 2}
  {
    var matrix := audio;
    if audio.Batch? {
      if |audio.items| != 1 {
        return Err(BadBatch), None;
      }
      matrix := audio.items[0];
    }
    if !matrix.Matrix? {
      return Err(BadRank), None;
    }
    var channels, samples := |matrix.channels|, matrix.samples;
    if channels != 1 && channels != 2 {
      return Err(BadChannels), None;
    }
    if !Fits32(sampleRate) || !Fits32(sampleRate * channels * 4) || !Fits32(samples) {
      return Err(FieldOverflow), None;
    }
    MatrixSize(matrix);
    var recording := EmitRecording(matrix, sampleRate);
    if recording.0.Ok? {
      RecordingLayout(recording.1, matrix, sampleRate);
      RecordingBytes(recording.1, matrix, sampleRate);
    }
    return recording.0, Some(recording.1);
  }

  /** A mono array from 0x3FFFFFF4 samples up is opened for writing and leaves only the four bytes. */
  lemma LongMonoLeavesStub(sample: Sample, samples: nat)
    requires 0x3FFF_FFF4 <= samples < 0x1_0000_0000
    ensures var audio := Matrix([seq(samples, _ => sample)], samples);
            Rectangular(audio) && Opened(audio, EXPECTED_SAMPLE_RATE) && !Fits32(RiffSize(audio))
  {
  }

  ghost predicate Recordable(a: Audio, rate: int) {
    && a.Matrix? && Rectangular(a) && |a.channels| in {1, 2} && Fits32(rate) && Fits32(rate * |a.channels| * 4)
    && Fits32(a.samples) && Fits32(48 + |Interleaved(a.channels, a.samples)|)
  }

  ghost function RecordedBody(a: Audio, rate: int): seq<byte>
    requires Recordable(a, rate)
  {
    var data := Interleaved(a.channels, a.samples);
    FMT + U32Le(16) + PackFmt(FloatFmt(|a.channels|, rate))
    + (FACT + U32Le(4) + U32Le(a.samples) + (DATA + U32Le(|data|) + data))
  }

  /** The bytes of a finished recording. */
  ghost predicate IsRecording(file: seq<byte>, a: Audio, rate: int) {
    && Recordable(a, rate)
    && file == RIFF + U32Le(48 + |Interleaved(a.channels, a.samples)|) + WAVE + RecordedBody(a, rate)
  }

  lemma Regroup(a: seq<byte>, b: seq<byte>, c: seq<byte>, d: seq<byte>)
    ensures a + b + c + d == a + (b + (c + d))
  {
  }

  ghost function RecordedChunks(a: Audio, rate: int): (cs: seq<RiffChunk>)
    requires Recordable(a, rate)
    ensures AllWellFormed(cs)
  {
    assert |Interleaved(a.channels, a.samples)| % 2 == 0 by {
      EvenData(a.samples, |a.channels|);
    }
    [RiffChunk(FMT, PackFmt(FloatFmt(|a.channels|, rate)), []), RiffChunk(FACT, U32Le(a.samples), []),
     RiffChunk(DATA, Interleaved(a.channels, a.samples), [])]
  }

  lemma EvenData(n: nat, channels: nat)
    ensures n * (4 * channels) % 2 == 0
    ensures channels > 0 ==> n * (4 * channels) % (4 * channels) == 0 && n * (4 * channels) / (4 * channels) == n
  {
    assert n * (4 * channels) == 2 * (n * (2 * channels));
    if channels > 0 {
      ExactQuotient(n, 4 * channels);
    }
  }

  lemma BodyIsEncoded(a: Audio, rate: int)
    requires Recordable(a, rate)
    ensures EncodeAll(RecordedChunks(a, rate)) == RecordedBody(a, rate)
  {
    var cs := RecordedChunks(a, rate);
    EncodeThree(cs[0], cs[1], cs[2]);
  }

  lemma AlignedData(a: Audio, rate: int)
    requires Recordable(a, rate)
    ensures Aligned(FloatFmt(|a.channels|, rate).blockAlign, |Interleaved(a.channels, a.samples)|)
    ensures |Interleaved(a.channels, a.samples)| / FloatFmt(|a.channels|, rate).blockAlign == a.samples
  {
    EvenData(a.samples, |a.channels|);
  }

  lemma EncodeThree(a: RiffChunk, b: RiffChunk, c: RiffChunk)
    requires WellFormed(a) && WellFormed(b) && WellFormed(c)
    ensures EncodeAll([a, b, c]) == Encode(a) + (Encode(b) + Encode(c))
  {
    assert [a, b, c][1..] == [b, c] && [b, c][1..] == [c] && [c][1..] == [];
    assert EncodeAll([c]) == Encode(c) + [];
  }

  lemma RecordingLayout(file: seq<byte>, a: Audio, rate: int)
    requires IsRecording(file, a, rate)
    ensures |file| == 12 + |RecordedBody(a, rate)|
    ensures |RecordedBody(a, rate)| == 44 + |Interleaved(a.channels, a.samples)|
    ensures file[..4] == RIFF && file[4..8] == U32Le(48 + |Interleaved(a.channels, a.samples)|) && file[8..12] == WAVE
    ensures file[12..] == RecordedBody(a, rate)
  {
  }

  lemma RecordingSplits(file: seq<byte>, a: Audio, rate: int)
    requires IsRecording(file, a, rate)
    ensures HasHeader(file) && Split(file[12..]) == Some(RecordedChunks(a, rate))
  {
    RecordingLayout(file, a, rate);
    BodyIsEncoded(a, rate);
    SplitIsComplete(file[12..], RecordedChunks(a, rate));
  }

  lemma LastOfThree(a: RiffChunk, b: RiffChunk, c: RiffChunk)
    requires a.id == FMT && |a.body| == 16 && b.id == FACT && c.id == DATA
    ensures LongFmts([a, b, c]) && LastFmt([a, b, c]) == Some(ReadFmt(a.body)) && LastData([a, b, c]) == Some(|c.body|)
  {
    assert FMT[1] != FACT[1] && FMT[0] != DATA[0];
    assert [a, b, c] == [a, b] + [c] && [a, b] == [a] + [b] && [a] == [] + [a];
    assert a.body[..16] == a.body;
    LastAppend([], a);
    LastAppend([a], b);
    LastAppend([a, b], c);
  }

  /** Inspection of a written file gives back what was written. */
  lemma InspectsWhatWasWritten(file: seq<byte>, a: Audio, rate: int)
    requires IsRecording(file, a, rate)
    ensures Inspected(file) ==
            Some(Format(FmtFields(3, |a.channels|, rate, rate * |a.channels| * 4, |a.channels| * 4, 32),
                        a.samples * |a.channels| * 4, a.samples))
  {
    MatrixSize(a);
    var cs, fmt := RecordedChunks(a, rate), FloatFmt(|a.channels|, rate);
    RecordingSplits(file, a, rate);
    FmtRoundTrip(fmt);
    LastOfThree(cs[0], cs[1], cs[2]);
    assert cs == [cs[0], cs[1], cs[2]];
    AlignedData(a, rate);
    InspectedFrom(file, cs, fmt, |Interleaved(a.channels, a.samples)|, a.samples);
  }

  /** The RIFF size field counts everything after itself. */
  lemma RiffSizeField(file: seq<byte>, a: Audio, rate: int)
    requires IsRecording(file, a, rate)
    ensures |file| >= 8 && FromU32Le(file[4..8]) == |file| - 8
  {
    RecordingLayout(file, a, rate);
    U32LeInverse(48 + |Interleaved(a.channels, a.samples)|);
  }

  lemma InspectedFrom(file: seq<byte>, cs: seq<RiffChunk>, fmt: FmtFields, size: nat, frames: nat)
    requires HasHeader(file) && Split(file[12..]) == Some(cs) && LongFmts(cs)
    requires LastFmt(cs) == Some(fmt) && LastData(cs) == Some(size)
    requires Aligned(fmt.blockAlign, size) && frames == size / fmt.blockAlign
    ensures Inspected(file) == Some(Format(fmt, size, frames))
  {
  }

  // ----- the stereo requirement -----

  const EXPECTED_SAMPLE_RATE := 44100
  const EXPECTED_CHANNELS := 2
  const EXPECTED_FORMAT_CODE := 3
  const EXPECTED_BITS := 32
  const EXPECTED_BLOCK_ALIGN := 8

  predicate IsExpected(f: FmtFields) {
    && f.code == EXPECTED_FORMAT_CODE && f.channels == EXPECTED_CHANNELS && f.rate == EXPECTED_SAMPLE_RATE
    && f.bits == EXPECTED_BITS && f.blockAlign == EXPECTED_BLOCK_ALIGN
    && f.byteRate == EXPECTED_SAMPLE_RATE * EXPECTED_BLOCK_ALIGN
  }

  ghost predicate Meets(file: seq<byte>, frames: Option<nat>) {
    && Inspected(file).Some? && IsExpected(Inspected(file).value.fmt)
    && (frames.Some? ==> Inspected(file).value.frames == frames.value)
  }

  method RequireFloat32StereoWav(file: seq<byte>, expectedFrames: Option<nat>) returns (r: Result<Format, WavError>)
    ensures r.Ok? <==> Meets(file, expectedFrames)
    ensures r.Ok? ==> r.value == Inspected(file).value
    ensures r == Err(DurationMismatch) <==> Meets(file, None) && !Meets(file, expectedFrames)
  {
    r := InspectWavFormat(file);
    if r.Err? {
      return;
    }
    if !IsExpected(r.value.fmt) {
      return Err(FieldMismatch);
    }
    if expectedFrames.Some? && r.value.frames != expectedFrames.value {
      return Err(DurationMismatch);
    }
  }

  /** Of the files the writer makes, exactly the stereo ones at 44100 Hz pass. */
  lemma StereoAt44100(file: seq<byte>, a: Audio, rate: int)
    requires IsRecording(file, a, rate)
    ensures Meets(file, None) <==> |a.channels| == 2 && rate == 44100
    ensures Meets(file, None) ==> Meets(file, Some(a.samples))
  {
    InspectsWhatWasWritten(file, a, rate);
  }

  const STEMS: seq<string> := ["drums", "bass", "other", "vocals"]

  ghost predicate MeetsAt(outputs: map<string, seq<byte>>, stem: string, frames: nat) {
    stem in outputs && Meets(outputs[stem], Some(frames))
  }

  ghost predicate AllMeet(outputs: map<string, seq<byte>>, frames: nat) {
    forall i | 0 <= i < |STEMS| :: MeetsAt(outputs, STEMS[i], frames)
  }

  /** All four stems are present, meet the format and have one common length. */
  ghost predicate ValidOutputs(outputs: map<string, seq<byte>>) {
    exists frames :: AllMeet(outputs, frames)
  }

  lemma NoCommonLength(outputs: map<string, seq<byte>>, i: nat, expected: Option<nat>)
    requires i < |STEMS| && STEMS[i] in outputs && !Meets(outputs[STEMS[i]], expected)
    requires if expected.None? then forall frames :: !Meets(outputs[STEMS[i]], Some(frames))
             else MeetsAt(outputs, STEMS[0], expected.value)
    ensures !ValidOutputs(outputs)
  {
  }

  method ValidateOutputWavs(outputs: map<string, seq<byte>>) returns (r: Result<map<string, Format>, WavError>)
    ensures r.Ok? <==> ValidOutputs(outputs)
    ensures r.Ok? ==> r.value.Keys == {"drums", "bass", "other", "vocals"}
    ensures r.Ok? ==>
              forall stem | stem in r.value :: stem in outputs && Inspected(outputs[stem]) == Some(r.value[stem])
  {
    hide Inspected, IsExpected;
    var formats: map<string, Format> := map[];
    var expectedFrames: Option<nat> := None;
    for i := 0 to |STEMS|
      invariant i == 0 <==> expectedFrames.None?
      invariant expectedFrames.Some? ==> forall j | 0 <= j < i :: MeetsAt(outputs, STEMS[j], expectedFrames.value)
      invariant formats.Keys == set stem | stem in STEMS[..i]
      invariant forall stem | stem in formats :: stem in outputs && Inspected(outputs[stem]) == Some(formats[stem])
    {
      var stem := STEMS[i];
      if stem !in outputs {
        return Err(MissingStem);
      }
      var info := RequireFloat32StereoWav(outputs[stem], expectedFrames);
      if info.Err? {
        NoCommonLength(outputs, i, expectedFrames);
        return Err(info.error);
      }
      if expectedFrames.None? {
        expectedFrames := Some(info.value.frames);
      }
      formats := formats[stem := info.value];
    }
    assert STEMS[..|STEMS|] == STEMS;
    assert AllMeet(outputs, expectedFrames.value);
    return Ok(formats);
  }
}
