/** Replay of a log file, the open-time scan, and the repair of a torn tail. */
module WalReplay {
  import opened Basics
  import opened Bytes
  import opened WalRecords

  const MAGIC: int := 0x5741_4C00
  const VERSION: int := 1

  /** Magic, version, and two reserved zero bytes. */
  const HEADER: seq<Byte> := [0x57, 0x41, 0x4C, 0x00, 0, 1, 0, 0]

  // ---- The fold ---------------------------------------------------------------------------------------

  datatype Ordered = Ordered(seqNo: int, event: Event)

  /** The result of a replay. `ordered` holds mutations and advances in log order, with
      their sequence numbers. */
  datatype Replayed = Replayed(
    ordered: seq<Ordered>,
    finalCheckpoint: Checkpoint,
    hasCheckpoint: bool,
    finalCheckpointSeq: int,
    legacyCheckpoint: bool,
    lamportHigh: int,
    nextSeq: int,
    records: nat,
    clockClamped: bool,
    clockRaw: int)

  const NO_CHECKPOINT := Checkpoint(ZERO32, ZERO32, 0, 0, 0, false, false)
  const EMPTY := Replayed([], NO_CHECKPOINT, false, 0, false, 0, 0, 0, false, 0)

  /** An incredible clock is floored to the log's own high-water mark so far. */
  function Clamped(c: Checkpoint, lamportHigh: int): Checkpoint {
    if c.clockHigh > MAX_CREDIBLE_CLOCK then c.(clockHigh := Max(lamportHigh, c.lamportHigh)) else c
  }

  /** The counter, advance or watermark an event carries. */
  function Lamport(e: Event): int {
    match e
    case Mutated(m) => m.counter
    case Advanced(to) => to
    case Checkpointed(c) => c.lamportHigh
  }

  function Absorb(out: Replayed, n: int, e: Event): Replayed {
    var counted := out.(
      records := out.records + 1,
      nextSeq := if n >= out.nextSeq then (n + 1) % U64 else out.nextSeq,
      lamportHigh := Max(out.lamportHigh, Lamport(e)));
    match e
    case Mutated(_) => counted.(ordered := out.ordered + [Ordered(n, e)])
    case Advanced(_) => counted.(ordered := out.ordered + [Ordered(n, e)])
    case Checkpointed(c) =>
      var clamps := c.clockHigh > MAX_CREDIBLE_CLOCK;
      counted.(
        finalCheckpoint := Clamped(c, out.lamportHigh),
        hasCheckpoint := true,
        finalCheckpointSeq := n,
        legacyCheckpoint := !c.hasFingerprint,
        clockClamped := out.clockClamped || clamps,
        clockRaw := if clamps then Max(out.clockRaw, c.clockHigh) else out.clockRaw)
  }

  /** The fold of a run of events numbered from zero. */
  function FoldAll(events: seq<Event>): Replayed {
    if events == [] then EMPTY
    else Absorb(FoldAll(events[..|events| - 1]), |events| - 1, events[|events| - 1])
  }

  // ---- Records in the file -----------------------------------------------------------------------------

  datatype Head = Head(seqNo: int, kind: Byte, len: int)

  function HeadOf(data: seq<Byte>): (h: Head)
    requires |data| >= 13
    ensures 0 <= h.seqNo < U64 && 0 <= h.len < U32
  {
    Head(Word64(data), data[8], Word32(data[9..]))
  }

  /** A complete record as it lies in the file. */
  datatype Piece = Piece(seqNo: int, raw: Raw)

  /** The complete records of the record region, and the header of a record whose payload
      is cut short. */
  datatype Parsed = Parsed(pieces: seq<Piece>, torn: Option<Head>)

  function PieceAt(data: seq<Byte>, h: Head): Piece
    requires 0 <= h.len && |data| >= 13 + h.len
  {
    Piece(h.seqNo, Raw(h.kind, data[13..13 + h.len]))
  }

  function Parse(data: seq<Byte>): Parsed
    decreases |data|
  {
    if |data| < 13 then Parsed([], None)
    else
      var h := HeadOf(data);
      if |data| < 13 + h.len then Parsed([], Some(h))
      else
        var rest := Parse(data[13 + h.len..]);
        rest.(pieces := [PieceAt(data, h)] + rest.pieces)
  }

  /** A record: its number, the length of its payload, and what that decodes to. */
  datatype Record = Record(seqNo: int, len: nat, content: Result<Event>)

  type Decoder = Raw -> Result<Event>

  function RecordOf(decode: Decoder, p: Piece): Record {
    Record(p.seqNo, |p.raw.payload|, decode(p.raw))
  }

  function Decoded(decode: Decoder, pieces: seq<Piece>): (r: seq<Record>)
    ensures |r| == |pieces|
    ensures forall i :: 0 <= i < |r| ==> r[i] == RecordOf(decode, pieces[i])
  {
    if pieces == [] then []
    else Decoded(decode, pieces[..|pieces| - 1]) + [RecordOf(decode, pieces[|pieces| - 1])]
  }

  // ---- Replay ------------------------------------------------------------------------------------------

  /** The sequence number after the records `before`. */
  function Expected(before: seq<Record>): int {
    if before == [] then 0 else (before[|before| - 1].seqNo + 1) % U64
  }

  /** The checks made on a header, before its payload is looked at. */
  function CheckHead(seqNo: int, len: int, expected: int): Option<Error> {
    if len > MAX_PAYLOAD then Some(TooLong)
    else if seqNo != expected then Some(SeqGap)
    else None
  }

  /** The fold over complete records: it stops at the first error. */
  function ReplayRecords(records: seq<Record>): Result<Replayed> {
    if records == [] then Ok(EMPTY)
    else
      var init, last := records[..|records| - 1], records[|records| - 1];
      var out := ReplayRecords(init);
      if out.Err? then out else Take(out.value, Expected(init), last)
  }

  function Take(out: Replayed, expected: int, r: Record): Result<Replayed> {
    var bad := CheckHead(r.seqNo, r.len, expected);
    if bad.Some? then Err(bad.value)
    else if r.content.Err? then Err(r.content.error)
    else Ok(Absorb(out, r.seqNo, r.content.value))
  }

  /** A torn final record is dropped, but its header is checked like any other. */
  function ReplayParsed(records: seq<Record>, torn: Option<Head>): Result<Replayed> {
    var out := ReplayRecords(records);
    if out.Err? || torn.None? then out
    else
      var bad := CheckHead(torn.value.seqNo, torn.value.len, Expected(records));
      if bad.Some? then Err(bad.value) else out
  }

  predicate HeaderOk(file: seq<Byte>) {
    |file| >= 8 && FromBE(file[..4]) == MAGIC && FromBE(file[4..6]) == VERSION
  }

  function ReplayBy(decode: Decoder, file: seq<Byte>): Result<Replayed> {
    if !HeaderOk(file) then Err(BadHeader)
    else ReplayParsed(Decoded(decode, Parse(file[8..]).pieces), Parse(file[8..]).torn)
  }

  function Replay(file: seq<Byte>): Result<Replayed> {
    ReplayBy(Decode, file)
  }

  lemma {:induction false} ErrorStays(a: seq<Record>, b: seq<Record>)
    requires ReplayRecords(a).Err?
    ensures ReplayRecords(a + b) == ReplayRecords(a)
  {
    if b == [] {
      assert a + b == a;
    } else {
      ErrorStays(a, b[..|b| - 1]);
      assert (a + b)[..|a + b| - 1] == a + b[..|b| - 1];
    }
  }

  lemma {:induction false} PrefixAccepted(a: seq<Record>, b: seq<Record>)
    requires ReplayRecords(a + b).Ok?
    ensures ReplayRecords(a).Ok?
  {
    if ReplayRecords(a).Err? {
      ErrorStays(a, b);
    }
  }

  lemma {:induction false} DecodedConcat(decode: Decoder, a: seq<Piece>, b: seq<Piece>)
    ensures Decoded(decode, a + b) == Decoded(decode, a) + Decoded(decode, b)
  {
  }

  lemma ReplaySnoc(decode: Decoder, done: seq<Piece>, p: Piece, out: Replayed)
    requires ReplayRecords(Decoded(decode, done)) == Ok(out)
    ensures ReplayRecords(Decoded(decode, done + [p])) == Take(out, Expected(Decoded(decode, done)), RecordOf(decode, p))
    ensures Expected(Decoded(decode, done + [p])) == (p.seqNo + 1) % U64
  {
    assert (done + [p])[..|done|] == done;
    var before := Decoded(decode, done);
    assert (before + [RecordOf(decode, p)])[..|before|] == before;
  }

  /** The loop over the file stands at `data` after the records `done`. */
  ghost predicate At(file: seq<Byte>, done: seq<Piece>, data: seq<Byte>)
    requires |file| >= 8
  {
    Parse(file[8..]) == Parse(data).(pieces := done + Parse(data).pieces)
  }

  lemma AtNext(file: seq<Byte>, done: seq<Piece>, data: seq<Byte>, h: Head)
    requires |file| >= 8 && At(file, done, data) && |data| >= 13 && h == HeadOf(data) && |data| >= 13 + h.len
    ensures At(file, done + [PieceAt(data, h)], data[13 + h.len..])
  {
    var p, rest := PieceAt(data, h), Parse(data[13 + h.len..]).pieces;
    assert done + ([p] + rest) == done + [p] + rest;
  }

  lemma AtEnd(file: seq<Byte>, done: seq<Piece>, data: seq<Byte>)
    requires |file| >= 8 && At(file, done, data)
    requires |data| < 13 || |data| < 13 + HeadOf(data).len
    ensures Parse(file[8..]) == Parsed(done, if |data| < 13 then None else Some(HeadOf(data)))
  {
    assert done + [] == done;
  }

  /** One record of the loop: header checks, frame, then the decode of its kind. */
  method TakeRecord(out: Replayed, expected: int, r: Record) returns (next: Result<Replayed>)
    ensures next == Take(out, expected, r)
  {
    if r.len > MAX_PAYLOAD {
      return Err(TooLong);
    }
    if r.seqNo != expected {
      return Err(SeqGap);
    }
    if r.content.Err? {
      return Err(r.content.error);
    }
    next := Ok(Absorb(out, r.seqNo, r.content.value));
  }

  lemma ErrorEnds(decode: Decoder, file: seq<Byte>, done: seq<Piece>, data: seq<Byte>)
    requires HeaderOk(file) && At(file, done, data) && ReplayRecords(Decoded(decode, done)).Err?
    ensures ReplayBy(decode, file) == ReplayRecords(Decoded(decode, done))
  {
    DecodedConcat(decode, done, Parse(data).pieces);
    ErrorStays(Decoded(decode, done), Decoded(decode, Parse(data).pieces));
  }

  /** Where the loop stands: next offset, sequence number expected there, result so far. */
  datatype Cursor = Cursor(off: nat, expected: int, out: Replayed)

  /** The cursor stands after the records `done`. */
  ghost predicate Stands(decode: Decoder, file: seq<Byte>, c: Cursor, done: seq<Piece>) {
    && 8 <= c.off <= |file| && At(file, done, file[c.off..])
    && ReplayRecords(Decoded(decode, done)) == Ok(c.out)
    && c.expected == Expected(Decoded(decode, done))
  }

  lemma TornEnds(decode: Decoder, file: seq<Byte>, c: Cursor, done: seq<Piece>, data: seq<Byte>, h: Head)
    requires HeaderOk(file) && Stands(decode, file, c, done) && data == file[c.off..]
    requires |data| >= 13 && h == HeadOf(data) && |data| < 13 + h.len
    ensures var bad := CheckHead(h.seqNo, h.len, c.expected);
            ReplayBy(decode, file) == if bad.Some? then Err(bad.value) else Ok(c.out)
  {
    AtEnd(file, done, data);
  }

  lemma WholeTaken(
    decode: Decoder, file: seq<Byte>, c: Cursor, done: seq<Piece>, data: seq<Byte>, h: Head, p: Piece, next: Result<Replayed>)
    requires HeaderOk(file) && Stands(decode, file, c, done) && data == file[c.off..]
    requires |data| >= 13 && h == HeadOf(data) && |data| >= 13 + h.len && p == PieceAt(data, h)
    requires next == Take(c.out, c.expected, RecordOf(decode, p))
    ensures next.Err? ==> next == ReplayBy(decode, file)
    ensures next.Ok? ==> Stands(decode, file, Cursor(c.off + 13 + h.len, (h.seqNo + 1) % U64, next.value), done + [p])
  {
    var more, off := done + [p], c.off + 13 + h.len;
    assert At(file, more, file[off..]) by {
      AtNext(file, done, data, h);
      assert data[13 + h.len..] == file[off..];
    }
    assert ReplayRecords(Decoded(decode, more)) == next && Expected(Decoded(decode, more)) == (h.seqNo + 1) % U64 by {
      ReplaySnoc(decode, done, p, c.out);
    }
    if next.Err? {
      ErrorEnds(decode, file, more, file[off..]);
    }
  }

  /** One turn of the loop: the cursor moves past a whole record, or the replay ends. */
  method Turn(decode: Decoder, file: seq<Byte>, c: Cursor, ghost done: seq<Piece>)
    returns (ended: Option<Result<Replayed>>, d: Cursor, ghost more: seq<Piece>)
    requires HeaderOk(file) && Stands(decode, file, c, done) && |file| - c.off >= 13
    ensures ended.Some? ==> ended.value == ReplayBy(decode, file)
    ensures ended.None? ==> Stands(decode, file, d, more) && d.off > c.off
  {
    var data := file[c.off..];
    var h := HeadOf(data);
    d, more := c, done;
    if |data| < 13 + h.len {
      TornEnds(decode, file, c, done, data, h);
      var bad := CheckHead(h.seqNo, h.len, c.expected);
      return Some(if bad.Some? then Err(bad.value) else Ok(c.out)), d, more;
    }
    var p := PieceAt(data, h);
    more := done + [p];
    var next := TakeRecord(c.out, c.expected, RecordOf(decode, p));
    WholeTaken(decode, file, c, done, data, h, p, next);
    if next.Err? {
      return Some(next), d, more;
    }
    ended, d := None, Cursor(c.off + 13 + h.len, (h.seqNo + 1) % U64, next.value);
  }

  /** The loop over the file. */
  method ReplayLoop(decode: Decoder, file: seq<Byte>) returns (r: Result<Replayed>)
    ensures r == ReplayBy(decode, file)
  {
    if |file| < 8 || FromBE(file[..4]) != MAGIC || FromBE(file[4..6]) != VERSION {
      return Err(BadHeader);
    }
    var c := Cursor(8, 0, EMPTY);
    ghost var done: seq<Piece> := [];
    while |file| - c.off >= 13
      invariant Stands(decode, file, c, done)
      decreases |file| - c.off
    {
      var ended;
      ended, c, done := Turn(decode, file, c, done);
      if ended.Some? {
        return ended.value;
      }
    }
    AtEnd(file, done, file[c.off..]);
    r := Ok(c.out);
  }

  method ReplayWAL(file: seq<Byte>) returns (r: Result<Replayed>)
    ensures r == Replay(file)
  {
    r := ReplayLoop(Decode, file);
  }

  // ---- The open-time scan ----------------------------------------------------------------------------------

  datatype Scan = Scan(nextSeq: nat, count: nat, lastGood: nat)

  function Size(p: Piece): nat {
    13 + |p.raw.payload|
  }

  function Sizes(pieces: seq<Piece>): nat {
    if pieces == [] then 0 else Sizes(pieces[..|pieces| - 1]) + Size(pieces[|pieces| - 1])
  }

  function NextAfter(pieces: seq<Piece>): nat {
    if pieces == [] then 0
    else
      var next, n := NextAfter(pieces[..|pieces| - 1]), pieces[|pieces| - 1].seqNo;
      if n >= next then (n + 1) % U64 else next
  }

  /** What the scan reports: complete records are counted whatever they hold. */
  function ScanOf(pieces: seq<Piece>): Scan {
    Scan(NextAfter(pieces), |pieces|, 8 + Sizes(pieces))
  }

  function ScanStep(s: Scan, seqNo: int, len: nat): Scan {
    Scan(if seqNo >= s.nextSeq then (seqNo + 1) % U64 else s.nextSeq, s.count + 1, s.lastGood + 13 + len)
  }

  lemma ScanSnoc(done: seq<Piece>, p: Piece)
    ensures ScanOf(done + [p]) == ScanStep(ScanOf(done), p.seqNo, |p.raw.payload|)
  {
    assert (done + [p])[..|done|] == done;
  }

  method ScanRecords(file: seq<Byte>) returns (s: Scan)
    requires |file| >= 8
    ensures s == ScanOf(Parse(file[8..]).pieces)
  {
    s := Scan(0, 0, 8);
    ghost var done: seq<Piece> := [];
    while |file| - s.lastGood >= 13
      invariant 8 <= s.lastGood <= |file|
      invariant At(file, done, file[s.lastGood..]) && s == ScanOf(done)
      decreases |file| - s.lastGood
    {
      var data := file[s.lastGood..];
      var h := HeadOf(data);
      if |data| < 13 + h.len {
        AtEnd(file, done, data);
        return;
      }
      AtNext(file, done, data, h);
      ScanSnoc(done, PieceAt(data, h));
      done := done + [PieceAt(data, h)];
      assert data[13 + h.len..] == file[s.lastGood + 13 + h.len..];
      s := ScanStep(s, h.seqNo, h.len);
    }
    AtEnd(file, done, file[s.lastGood..]);
  }

  /** What opening an existing file leaves of it: the tail is cut at the last complete
      record. */
  function Repaired(file: seq<Byte>): seq<Byte>
    requires |file| >= 8
  {
    ParseSizes(file[8..]);
    file[..8 + Sizes(Parse(file[8..]).pieces)]
  }

  lemma {:induction false} SizesConcat(a: seq<Piece>, b: seq<Piece>)
    ensures Sizes(a + b) == Sizes(a) + Sizes(b)
  {
    if b == [] {
      assert a + b == a;
    } else {
      SizesConcat(a, b[..|b| - 1]);
      assert (a + b)[..|a + b| - 1] == a + b[..|b| - 1];
    }
  }

  lemma SizesCons(p: Piece, b: seq<Piece>)
    ensures Sizes([p] + b) == Size(p) + Sizes(b)
  {
    SizesConcat([p], b);
    assert [p][..0] == [];
  }

  lemma {:induction false} ParseSizes(data: seq<Byte>)
    ensures Sizes(Parse(data).pieces) <= |data|
    decreases |data|
  {
    if |data| >= 13 {
      var h := HeadOf(data);
      if |data| >= 13 + h.len {
        ParseSizes(data[13 + h.len..]);
        SizesCons(PieceAt(data, h), Parse(data[13 + h.len..]).pieces);
      }
    }
  }

  lemma HeadOfCut(data: seq<Byte>, n: int)
    requires 13 <= n <= |data|
    ensures HeadOf(data[..n]) == HeadOf(data)
  {
    assert data[..n][..8] == data[..8];
    assert data[..n][9..][..4] == data[9..][..4];
  }

  /** Cutting the data where the scan stops leaves the same records and no torn one. */
  lemma {:induction false} CutAtLastGood(data: seq<Byte>)
    ensures Sizes(Parse(data).pieces) <= |data|
    ensures Parse(data[..Sizes(Parse(data).pieces)]) == Parsed(Parse(data).pieces, None)
    decreases |data|
  {
    ParseSizes(data);
    if |data| >= 13 && |data| >= 13 + HeadOf(data).len {
      var h := HeadOf(data);
      var k := 13 + h.len;
      CutAtLastGood(data[k..]);
      SizesCons(PieceAt(data, h), Parse(data[k..]).pieces);
      ParseCut(data, h, k, Sizes(Parse(data).pieces));
    }
  }

  lemma ParseCut(data: seq<Byte>, h: Head, k: int, n: int)
    requires |data| >= 13 && h == HeadOf(data) && k == 13 + h.len && k <= n <= |data|
    ensures Parse(data[..n]) == Parse(data[k..][..n - k]).(pieces := [PieceAt(data, h)] + Parse(data[k..][..n - k]).pieces)
  {
    HeadOfCut(data, n);
    assert data[..n][13..k] == data[13..k];
    assert data[..n][k..] == data[k..][..n - k];
  }

  /** Repairing a file that replay accepts keeps its replay; the scan counts the records
      that replay counts, and the writer resumes at the number replay expects next. */
  lemma RepairKeepsReplay(decode: Decoder, file: seq<Byte>)
    requires ReplayBy(decode, file).Ok?
    ensures ReplayBy(decode, Repaired(file)) == ReplayBy(decode, file)
    ensures var s, r := ScanOf(Parse(file[8..]).pieces), ReplayBy(decode, file).value;
            s.count == r.records && s.nextSeq == r.nextSeq
  {
    var data := file[8..];
    CutAtLastGood(data);
    var n := Sizes(Parse(data).pieces);
    assert Repaired(file)[8..] == data[..n];
    assert Repaired(file)[..4] == file[..4] && Repaired(file)[4..6] == file[4..6];
    CountsAgree(decode, Parse(data).pieces);
  }

  lemma {:induction false} CountsAgree(decode: Decoder, pieces: seq<Piece>)
    requires ReplayRecords(Decoded(decode, pieces)).Ok?
    ensures ReplayRecords(Decoded(decode, pieces)).value.records == |pieces|
    ensures ReplayRecords(Decoded(decode, pieces)).value.nextSeq == NextAfter(pieces)
  {
    if pieces != [] {
      var init := pieces[..|pieces| - 1];
      assert Decoded(decode, pieces)[..|init|] == Decoded(decode, init);
      CountsAgree(decode, init);
    }
  }

  // ---- Sequence numbers ----------------------------------------------------------------------------------------

  /** In an accepted log, record `i` carries number `i`. */
  lemma {:induction false} SeqIsPosition(records: seq<Record>, i: nat)
    requires ReplayRecords(records).Ok? && i < |records| <= U64
    ensures records[i].seqNo == i
  {
    var n := |records| - 1;
    LastSeq(records);
    if i < n {
      SeqIsPosition(records[..n], i);
    } else if n > 0 {
      SeqIsPosition(records[..n], n - 1);
    }
  }

  lemma LastSeq(records: seq<Record>)
    requires ReplayRecords(records).Ok? && records != []
    ensures var n := |records| - 1; ReplayRecords(records[..n]).Ok? && records[n].seqNo == Expected(records[..n])
  {
  }

  /** Whole records picked from an accepted log, in any order and with any repetition. */
  function Pick(records: seq<Record>, picks: seq<nat>): seq<Record>
    requires forall i :: 0 <= i < |picks| ==> picks[i] < |records|
  {
    seq(|picks|, i requires 0 <= i < |picks| => records[picks[i]])
  }

  /** What is picked of an accepted log replays only when it was picked in place. */
  lemma PickedInPlace(records: seq<Record>, picks: seq<nat>)
    requires ReplayRecords(records).Ok? && |records| <= U64 && |picks| <= U64
    requires forall i :: 0 <= i < |picks| ==> picks[i] < |records|
    requires ReplayRecords(Pick(records, picks)).Ok?
    ensures |picks| <= |records| && forall i :: 0 <= i < |picks| ==> picks[i] == i
  {
    var picked := Pick(records, picks);
    forall i | 0 <= i < |picks| ensures picks[i] == i {
      SeqIsPosition(picked, i);
      SeqIsPosition(records, picks[i]);
    }
    assert |picks| > 0 ==> picks[|picks| - 1] == |picks| - 1;
  }
}
