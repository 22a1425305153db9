/** The records of the write-ahead log: five payload forms, the checksummed frame around
    them, and the decoders of replay. */
module WalRecords {
  import opened Bytes
  import Crc32c

  datatype Result<+T> = Ok(value: T) | Err(error: Error)

  datatype Error = BadHeader | TooLong | SeqGap | Corrupt | Truncated | UnknownType

  const MUTATION: Byte := 1
  const CHECKPOINT: Byte := 2
  const CLOCK_ADVANCE: Byte := 3
  const MUTATION_V2: Byte := 4
  const CHECKPOINT_V2: Byte := 5
  const CHECKSUMMED: Byte := 6

  const MAX_PAYLOAD: int := 0x40_0000
  const MAX_CREDIBLE_CLOCK: int := 0x1000_0000_0000_0000

  const ZERO16: seq<Byte> := [0, 0, 0, 0, 0, 0, 0, 0, 0, 0, 0, 0, 0, 0, 0, 0]
  const ZERO32: seq<Byte> := ZERO16 + ZERO16

  // ---- The 120-byte entry -------------------------------------------------------------------------

  datatype Entry = Entry(
    digest: seq<Byte>, origin: seq<Byte>, dotNode: seq<Byte>, dotCounter: int,
    sysT: int, vs: int, ve: int, ast: int, dec: int, h3: int)

  predicate EntryOk(e: Entry) {
    && |e.digest| == 32 && |e.origin| == 16 && |e.dotNode| == 16 && IsU64(e.dotCounter) && IsU64(e.h3)
    && IsI64(e.sysT) && IsI64(e.vs) && IsI64(e.ve) && IsI64(e.ast) && IsI64(e.dec)
  }

  /** The five fields a legacy entry carries; the first five of the full layout. */
  function IdentityBytes(e: Entry, rest: seq<Byte>): (b: seq<Byte>)
    requires EntryOk(e)
    ensures |b| == 80 + |rest|
  {
    e.digest + (e.origin + (e.dotNode + (BE(e.dotCounter, 8) + (BE(ToU64(e.sysT), 8) + rest))))
  }

  function TimesBytes(e: Entry): (b: seq<Byte>)
    requires EntryOk(e)
    ensures |b| == 40
  {
    BE(ToU64(e.vs), 8) + (BE(ToU64(e.ve), 8) + (BE(ToU64(e.ast), 8) + (BE(ToU64(e.dec), 8) + BE(e.h3, 8))))
  }

  function EntryBytes(e: Entry): (b: seq<Byte>)
    requires EntryOk(e)
    ensures |b| == 120
  {
    IdentityBytes(e, TimesBytes(e))
  }

  function DecodeIdentity(b: seq<Byte>): (e: Entry)
    requires |b| >= 80
    ensures EntryOk(e)
  {
    Entry(b[..32], b[32..48], b[48..64], Word64(b[64..]), ToI64(Word64(b[72..])), 0, 0, 0, 0, 0)
  }

  function DecodeEntry(b: seq<Byte>): (e: Entry)
    requires |b| >= 120
    ensures EntryOk(e)
  {
    DecodeIdentity(b).(
      vs := ToI64(Word64(b[80..])),
      ve := ToI64(Word64(b[88..])),
      ast := ToI64(Word64(b[96..])),
      dec := ToI64(Word64(b[104..])),
      h3 := Word64(b[112..]))
  }

  lemma IdentityRoundTrip(e: Entry, rest: seq<Byte>)
    requires EntryOk(e)
    ensures DecodeIdentity(IdentityBytes(e, rest)) == e.(vs := 0, ve := 0, ast := 0, dec := 0, h3 := 0)
    ensures IdentityBytes(e, rest)[80..] == rest
  {
    var b4 := BE(ToU64(e.sysT), 8) + rest;
    var b3 := BE(e.dotCounter, 8) + b4;
    var b2 := e.dotNode + b3;
    var b1 := e.origin + b2;
    var b := e.digest + b1;
    Front(e.digest, b1);
    Front(e.origin, b2);
    Front(e.dotNode, b3);
    Word64Front(e.dotCounter, b4);
    Word64Front(ToU64(e.sysT), rest);
    assert b[32..] == b1 && b[32..48] == b[32..][..16];
    assert b[48..] == b[32..][16..] == b2 && b[48..64] == b[48..][..16];
    assert b[64..] == b[48..][16..] == b3;
    assert b[72..] == b[64..][8..] == b4;
    assert b[80..] == b[72..][8..] == rest;
  }

  lemma TimesRoundTrip(e: Entry)
    requires EntryOk(e)
    ensures var t := TimesBytes(e);
            && ToI64(Word64(t)) == e.vs && ToI64(Word64(t[8..])) == e.ve && ToI64(Word64(t[16..])) == e.ast
            && ToI64(Word64(t[24..])) == e.dec && Word64(t[32..]) == e.h3
  {
    var t := TimesBytes(e);
    var t4 := BE(e.h3, 8);
    var t3 := BE(ToU64(e.dec), 8) + t4;
    var t2 := BE(ToU64(e.ast), 8) + t3;
    var t1 := BE(ToU64(e.ve), 8) + t2;
    Word64Front(ToU64(e.vs), t1);
    Word64Front(ToU64(e.ve), t2);
    Word64Front(ToU64(e.ast), t3);
    Word64Front(ToU64(e.dec), t4);
    Word64Front(e.h3, []);
    assert t4 + [] == t4;
    assert t[8..] == t1;
    assert t[16..] == t[8..][8..] == t2;
    assert t[24..] == t[16..][8..] == t3;
    assert t[32..] == t[24..][8..] == t4;
  }

  /** All ten fields survive, whatever bytes follow. */
  lemma EntryRoundTrip(e: Entry, rest: seq<Byte>)
    requires EntryOk(e)
    ensures DecodeEntry(EntryBytes(e) + rest) == e
  {
    var t, b := TimesBytes(e), EntryBytes(e) + rest;
    IdentityTail(e, t, rest);
    IdentityRoundTrip(e, t + rest);
    TimesRoundTrip(e);
    assert b[80..] == t + rest;
    forall i | 0 <= i <= 4 ensures Word64(b[80 + 8 * i..]) == Word64(t[8 * i..]) {
      assert b[80 + 8 * i..][..8] == (t + rest)[8 * i..][..8] == t[8 * i..][..8];
    }
    assert Word64(b[80 + 8 * 0..]) == Word64(t[8 * 0..]);
    assert Word64(b[80 + 8 * 1..]) == Word64(t[8 * 1..]);
    assert Word64(b[80 + 8 * 2..]) == Word64(t[8 * 2..]);
    assert Word64(b[80 + 8 * 3..]) == Word64(t[8 * 3..]);
    assert Word64(b[80 + 8 * 4..]) == Word64(t[8 * 4..]);
  }

  lemma IdentityTail(e: Entry, t: seq<Byte>, rest: seq<Byte>)
    requires EntryOk(e)
    ensures IdentityBytes(e, t) + rest == IdentityBytes(e, t + rest)
  {
    var x, y := IdentityBytes(e, t) + rest, IdentityBytes(e, t + rest);
    var head := e.digest + e.origin + e.dotNode + BE(e.dotCounter, 8) + BE(ToU64(e.sysT), 8);
    assert IdentityBytes(e, t) == head + t;
    assert y == head + (t + rest);
  }

  // ---- Mutations -------------------------------------------------------------------------------------

  /** A replayed mutation. The 80-byte entry subset is the first five fields of `full`. */
  datatype Mutation = Mutation(id: seq<Byte>, node: seq<Byte>, counter: int, full: Entry, legacy: bool)

  predicate MutationOk(m: Mutation) {
    |m.id| < U32 && |m.node| == 16 && IsU64(m.counter) && EntryOk(m.full)
  }

  function MutationBytes(m: Mutation, entry: seq<Byte>): (b: seq<Byte>)
    requires MutationOk(m)
    ensures |b| == 28 + |m.id| + |entry|
  {
    BE(|m.id|, 4) + (m.id + (m.node + (BE(m.counter, 8) + entry)))
  }

  /** The full entry, or the legacy subset of it. */
  function EntryPart(m: Mutation, v2: bool): seq<Byte>
    requires MutationOk(m)
  {
    if v2 then EntryBytes(m.full) else IdentityBytes(m.full, [])
  }

  /** Length prefix, id, dot, then an entry of `width` bytes; anything after is ignored. */
  function DecodeMutation(p: seq<Byte>, v2: bool): Result<Mutation> {
    if |p| < 4 then Err(Truncated)
    else
      var n, width := Word32(p), if v2 then 120 else 80;
      if |p| < 4 + n + 24 + width then Err(Truncated)
      else
        var at := 4 + n;
        var entry := p[at + 24..];
        Ok(Mutation(p[4..at], p[at..at + 16], Word64(p[at + 16..]),
                    if v2 then DecodeEntry(entry) else DecodeIdentity(entry), !v2))
  }

  lemma MutationRoundTrip(m: Mutation, v2: bool, rest: seq<Byte>)
    requires MutationOk(m)
    ensures DecodeMutation(MutationBytes(m, EntryPart(m, v2)) + rest, v2)
         == Ok(m.(full := if v2 then m.full else m.full.(vs := 0, ve := 0, ast := 0, dec := 0, h3 := 0), legacy := !v2))
  {
    var entry := EntryPart(m, v2);
    var p := MutationBytes(m, entry) + rest;
    MutationFields(m, entry, rest, p);
    EntryPartDecodes(m, v2, rest);
  }

  /** Either form of the entry decodes to what it holds. */
  lemma EntryPartDecodes(m: Mutation, v2: bool, rest: seq<Byte>)
    requires MutationOk(m)
    ensures var entry := EntryPart(m, v2) + rest;
            && |entry| >= (if v2 then 120 else 80)
            && (if v2 then DecodeEntry(entry) == m.full else DecodeIdentity(entry) == m.full.(vs := 0, ve := 0, ast := 0, dec := 0, h3 := 0))
  {
    if v2 {
      EntryRoundTrip(m.full, rest);
    } else {
      IdentityTail(m.full, [], rest);
      IdentityRoundTrip(m.full, [] + rest);
    }
  }

  lemma MutationFields(m: Mutation, entry: seq<Byte>, rest: seq<Byte>, p: seq<Byte>)
    requires MutationOk(m) && p == MutationBytes(m, entry) + rest
    ensures var at := 4 + |m.id|;
            && |p| == at + 24 + |entry + rest| && Word32(p) == |m.id| && p[4..at] == m.id && p[at..at + 16] == m.node
            && Word64(p[at + 16..]) == m.counter && p[at + 24..] == entry + rest
  {
    MutationTail(m, entry, rest);
    var b2 := BE(m.counter, 8) + (entry + rest);
    var b1 := m.node + b2;
    var b0 := m.id + b1;
    var at := 4 + |m.id|;
    Word32Front(|m.id|, b0);
    Front(m.id, b1);
    Front(m.node, b2);
    Word64Front(m.counter, entry + rest);
    assert p[4..at] == p[4..][..|m.id|];
    assert p[at..] == p[4..][|m.id|..] == b1;
    assert p[at..at + 16] == p[at..][..16];
    assert p[at + 16..] == p[at..][16..] == b2;
    assert p[at + 24..] == p[at + 16..][8..] == entry + rest;
  }

  lemma MutationTail(m: Mutation, entry: seq<Byte>, rest: seq<Byte>)
    requires MutationOk(m)
    ensures MutationBytes(m, entry) + rest == BE(|m.id|, 4) + (m.id + (m.node + (BE(m.counter, 8) + (entry + rest))))
  {
    var head := BE(|m.id|, 4) + m.id + m.node + BE(m.counter, 8);
    assert MutationBytes(m, entry) == head + entry;
    assert head + entry + rest == head + (entry + rest);
    assert head + (entry + rest) == BE(|m.id|, 4) + (m.id + (m.node + (BE(m.counter, 8) + (entry + rest))));
  }

  // ---- Checkpoints ------------------------------------------------------------------------------------

  datatype Checkpoint = Checkpoint(
    root: seq<Byte>, fingerprint: seq<Byte>, lamportHigh: int, cutSeq: int, clockHigh: int,
    hasCutSeq: bool, hasFingerprint: bool)

  predicate CheckpointOk(c: Checkpoint) {
    |c.root| == 32 && |c.fingerprint| == 32 && IsU64(c.lamportHigh) && IsU64(c.cutSeq) && IsU64(c.clockHigh)
  }

  function CheckpointBytes(c: Checkpoint): (b: seq<Byte>)
    requires CheckpointOk(c)
    ensures |b| == if !c.hasCutSeq then 40 else if c.hasFingerprint then 88 else 56
  {
    if c.hasCutSeq then
      c.root + (BE(c.lamportHigh, 8) + (BE(c.cutSeq, 8) + (BE(c.clockHigh, 8)
        + (if c.hasFingerprint then c.fingerprint else []))))
    else c.root + BE(c.lamportHigh, 8)
  }

  function DecodeCheckpoint(p: seq<Byte>): Result<Checkpoint> {
    if |p| < 40 then Err(Truncated)
    else Ok(Checkpoint(p[..32], ZERO32, Word64(p[32..]), 0, 0, false, false))
  }

  /** Length-discriminated: 48 bytes without clock, 56 with it, 88 with the fingerprint. */
  function DecodeCheckpointV2(p: seq<Byte>): Result<Checkpoint> {
    if |p| < 48 then Err(Truncated)
    else
      Ok(Checkpoint(p[..32], if |p| >= 88 then p[56..88] else ZERO32, Word64(p[32..]), Word64(p[40..]),
                    if |p| >= 56 then Word64(p[48..]) else 0, true, |p| >= 88))
  }

  /** What of a checkpoint its record holds. */
  function Recorded(c: Checkpoint): Checkpoint {
    if !c.hasCutSeq then c.(fingerprint := ZERO32, cutSeq := 0, clockHigh := 0, hasFingerprint := false)
    else if !c.hasFingerprint then c.(fingerprint := ZERO32)
    else c
  }

  /** The newest form holds all of a checkpoint, the one without a fingerprint all but that, and
      the oldest its root and watermark alone. */
  lemma CheckpointRoundTrip(c: Checkpoint)
    requires CheckpointOk(c)
    ensures c.hasCutSeq && c.hasFingerprint ==> DecodeCheckpointV2(CheckpointBytes(c)) == Ok(c)
    ensures c.hasCutSeq && !c.hasFingerprint ==> DecodeCheckpointV2(CheckpointBytes(c)) == Ok(c.(fingerprint := ZERO32))
    ensures !c.hasCutSeq ==>
              DecodeCheckpoint(CheckpointBytes(c)) == Ok(Checkpoint(c.root, ZERO32, c.lamportHigh, 0, 0, false, false))
  {
    var p := CheckpointBytes(c);
    if c.hasCutSeq {
      var b3 := if c.hasFingerprint then c.fingerprint else [];
      var b2 := BE(c.clockHigh, 8) + b3;
      var b1 := BE(c.cutSeq, 8) + b2;
      var b0 := BE(c.lamportHigh, 8) + b1;
      Front(c.root, b0);
      Word64Front(c.lamportHigh, b1);
      Word64Front(c.cutSeq, b2);
      Word64Front(c.clockHigh, b3);
      assert p[32..] == b0;
      assert p[40..] == p[32..][8..] == b1;
      assert p[48..] == p[40..][8..] == b2;
      assert p[56..] == p[48..][8..] == b3;
      assert c.hasFingerprint ==> p[56..88] == p[56..];
    } else {
      Front(c.root, BE(c.lamportHigh, 8));
      Word64Front(c.lamportHigh, []);
      assert BE(c.lamportHigh, 8) + [] == BE(c.lamportHigh, 8);
    }
  }

  /** The second form by length: from 48 bytes on it has root, watermark and cut; from 56 on the
      clock as well; from 88 on the fingerprint; shorter it is refused. */
  lemma CheckpointByLength(root: seq<Byte>, lamport: nat, cut: nat, rest: seq<Byte>)
    requires |root| == 32 && lamport < U64 && cut < U64
    ensures DecodeCheckpointV2(root + (BE(lamport, 8) + (BE(cut, 8) + rest)))
         == Ok(Checkpoint(root, if |rest| >= 40 then rest[8..40] else ZERO32, lamport, cut,
                          if |rest| >= 8 then Word64(rest) else 0, true, |rest| >= 40))
    ensures forall p: seq<Byte> :: |p| < 48 ==> DecodeCheckpointV2(p) == Err(Truncated)
  {
    var b1 := BE(cut, 8) + rest;
    var b0 := BE(lamport, 8) + b1;
    var p := root + b0;
    Front(root, b0);
    Word64Front(lamport, b1);
    Word64Front(cut, rest);
    assert p[32..] == b0;
    assert p[40..] == p[32..][8..] == b1;
    assert p[48..] == p[40..][8..] == rest;
    if |rest| >= 40 {
      assert p[56..88] == p[48..][8..40];
    }
  }

  // ---- Records ------------------------------------------------------------------------------------------

  /** What one record says. */
  datatype Event = Mutated(m: Mutation) | Advanced(to: int) | Checkpointed(c: Checkpoint)

  /** A record as it lies in the file. */
  datatype Raw = Raw(kind: Byte, payload: seq<Byte>)

  function DecodeBare(kind: Byte, p: seq<Byte>): Result<Event> {
    if kind == MUTATION || kind == MUTATION_V2 then
      var m := DecodeMutation(p, kind == MUTATION_V2);
      if m.Ok? then Ok(Mutated(m.value)) else Err(m.error)
    else if kind == CLOCK_ADVANCE then
      if |p| < 8 then Err(Truncated) else Ok(Advanced(Word64(p)))
    else if kind == CHECKPOINT || kind == CHECKPOINT_V2 then
      var c := if kind == CHECKPOINT then DecodeCheckpoint(p) else DecodeCheckpointV2(p);
      if c.Ok? then Ok(Checkpointed(c.value)) else Err(c.error)
    else Err(UnknownType)
  }

  /** Verify a frame and return the record inside. */
  function Unwrap(p: seq<Byte>): Result<Raw> {
    if |p| < 5 then Err(Corrupt)
    else
      var body := p[..|p| - 4];
      if Word32(p[|p| - 4..]) != Crc32c.Checksum(body) then Err(Corrupt) else Ok(Raw(body[0], body[1..]))
  }

  function Decode(r: Raw): Result<Event> {
    if r.kind == CHECKSUMMED then
      var inner := Unwrap(r.payload);
      if inner.Ok? then DecodeBare(inner.value.kind, inner.value.payload) else Err(inner.error)
    else DecodeBare(r.kind, r.payload)
  }

  function Framed(r: Raw): (f: Raw)
    ensures f.kind == CHECKSUMMED && |f.payload| == |r.payload| + 5
  {
    var body := [r.kind] + r.payload;
    Raw(CHECKSUMMED, body + BE(Crc32c.Checksum(body), 4))
  }

  lemma FrameRoundTrip(r: Raw)
    ensures Unwrap(Framed(r).payload) == Ok(r)
  {
    var body := [r.kind] + r.payload;
    var crc := Crc32c.Checksum(body);
    var p := Framed(r).payload;
    Front(body, BE(crc, 4));
    Word32Front(crc, []);
    assert BE(crc, 4) + [] == BE(crc, 4);
    assert |p| - 4 == |body|;
  }

  /** A frame with one byte replaced, in the type, the payload or the checksum itself, is
      refused as corrupt. */
  lemma FrameDetects(r: Raw, i: nat, x: Byte)
    requires i < |r.payload| + 5 && x != Framed(r).payload[i]
    ensures Unwrap(Framed(r).payload[i := x]) == Err(Corrupt)
  {
    var body := [r.kind] + r.payload;
    var crc := Crc32c.Checksum(body);
    var p := Framed(r).payload;
    var q, n := p[i := x], |body|;
    BE4(crc);
    if i < n {
      assert q[..n] == body[..i] + [x] + body[i + 1..];
      assert body == body[..i] + [body[i]] + body[i + 1..];
      Crc32c.OneByteDetected(body[..i], body[i], x, body[i + 1..]);
      assert q[n..] == BE(crc, 4);
      assert q[n..][..4] == BE(crc, 4);
    } else {
      assert q[..n] == body;
      assert q[n..][..4] == BE(crc, 4)[i - n := x];
      WordChanged(BE(crc, 4), i - n, x);
    }
  }

  lemma {:induction false} WordChanged(b: seq<Byte>, i: nat, x: Byte)
    requires i < |b| && x != b[i]
    ensures FromBE(b[i := x]) != FromBE(b)
  {
    var n := |b| - 1;
    if i < n {
      WordChanged(b[..n], i, x);
      assert b[i := x][..n] == b[..n][i := x];
    } else {
      assert b[i := x][..n] == b[..n];
    }
  }

  // ---- What the appenders write ----------------------------------------------------------------------

  predicate EventOk(e: Event) {
    match e
    case Mutated(m) => MutationOk(m) && !m.legacy && |m.id| + 153 < U32
    case Advanced(to) => IsU64(to)
    case Checkpointed(c) => CheckpointOk(c)
  }

  /** The bare record of an event, in the newest form that holds it. */
  function RawOf(e: Event): (r: Raw)
    requires EventOk(e)
    ensures r.kind != CHECKSUMMED && |r.payload| + 5 < U32
  {
    match e
    case Mutated(m) => Raw(MUTATION_V2, MutationBytes(m, EntryBytes(m.full)))
    case Advanced(to) => Raw(CLOCK_ADVANCE, BE(to, 8))
    case Checkpointed(c) => Raw(if c.hasCutSeq then CHECKPOINT_V2 else CHECKPOINT, CheckpointBytes(c))
  }

  function Replayable(e: Event): Event {
    if e.Checkpointed? then Checkpointed(Recorded(e.c)) else e
  }

  lemma BareRoundTrip(e: Event)
    requires EventOk(e)
    ensures DecodeBare(RawOf(e).kind, RawOf(e).payload) == Ok(Replayable(e))
  {
    match e
    case Mutated(m) =>
      MutationRoundTrip(m, true, []);
      var p := MutationBytes(m, EntryBytes(m.full));
      assert p + [] == p;
    case Advanced(to) =>
      Word64Front(to, []);
      assert BE(to, 8) + [] == BE(to, 8);
    case Checkpointed(c) => CheckpointRoundTrip(c);
  }

  /** What an appender frames, replay decodes. */
  lemma AppendedDecodes(e: Event)
    requires EventOk(e)
    ensures Decode(Framed(RawOf(e))) == Ok(Replayable(e)) && Decode(RawOf(e)) == Ok(Replayable(e))
  {
    FrameRoundTrip(RawOf(e));
    BareRoundTrip(e);
  }
}
