/** Where each field stands in the bytes of records, keys, values and frames, and in which
    byte order: the formats themselves, apart from the decoders that undo them. */
module Layouts {
  import opened Bytes
  import Crc32c
  import opened WalRecords
  import WalLog
  import Packing
  import Transport

  lemma BigEndian(n: nat)
    requires n < U32
    ensures BE(n, 4) == [n / 0x100_0000 % 256, n / 0x1_0000 % 256, n / 0x100 % 256, n % 256]
  {
    var a, b, c := n / 256, n / 256 / 256, n / 256 / 256 / 256;
    assert BE(c, 1) == [] + [c % 256] == [c % 256];
    assert BE(b, 2) == [c % 256] + [b % 256];
    assert BE(a, 3) == [c % 256, b % 256] + [a % 256];
    assert BE(n, 4) == [c % 256, b % 256, a % 256] + [n % 256];
  }

  lemma LittleEndian(n: nat)
    requires n < U32
    ensures LE(n, 4) == [n % 256, n / 0x100 % 256, n / 0x1_0000 % 256, n / 0x100_0000 % 256]
  {
    var a, b, c := n / 256, n / 256 / 256, n / 256 / 256 / 256;
    assert LE(c, 1) == [c % 256] + [] == [c % 256];
    assert LE(b, 2) == [b % 256] + [c % 256];
    assert LE(a, 3) == [a % 256] + [b % 256, c % 256];
    assert LE(n, 4) == [n % 256] + [a % 256, b % 256, c % 256];
  }

  /** `part` stands in `b` at `off`. */
  predicate At(b: seq<Byte>, off: nat, part: seq<Byte>) {
    off + |part| <= |b| && b[off..off + |part|] == part
  }

  lemma AtFront(a: seq<Byte>, rest: seq<Byte>)
    ensures At(a + rest, 0, a)
  {
  }

  /** What stands in the rest stands behind what is put before it. */
  lemma AtBehind(a: seq<Byte>, rest: seq<Byte>, off: nat, part: seq<Byte>)
    requires At(rest, off, part)
    ensures At(a + rest, |a| + off, part)
  {
    assert (a + rest)[|a| + off..|a| + off + |part|] == rest[off..off + |part|];
  }

  // ---- Write-ahead log ---------------------------------------------------------------------------

  lemma TwoFields(a: seq<Byte>, b: seq<Byte>)
    ensures At(a + b, 0, a) && At(a + b, |a|, b)
  {
  }

  lemma ThreeFields(a: seq<Byte>, b: seq<Byte>, c: seq<Byte>)
    ensures var s := a + (b + c); At(s, 0, a) && At(s, |a|, b) && At(s, |a| + |b|, c)
  {
    TwoFields(b, c);
    AtFront(a, b + c);
    AtBehind(a, b + c, 0, b);
    AtBehind(a, b + c, |b|, c);
  }

  lemma FourFields(a: seq<Byte>, b: seq<Byte>, c: seq<Byte>, d: seq<Byte>)
    ensures var s := a + (b + (c + d)); At(s, 0, a) && At(s, |a|, b) && At(s, |a| + |b|, c) && At(s, |a| + |b| + |c|, d)
  {
    var rest := b + (c + d);
    ThreeFields(b, c, d);
    AtFront(a, rest);
    AtBehind(a, rest, 0, b);
    AtBehind(a, rest, |b|, c);
    AtBehind(a, rest, |b| + |c|, d);
  }

  lemma FiveFields(a: seq<Byte>, b: seq<Byte>, c: seq<Byte>, d: seq<Byte>, e: seq<Byte>)
    ensures var s := a + (b + (c + (d + e)));
            && At(s, 0, a) && At(s, |a|, b) && At(s, |a| + |b|, c) && At(s, |a| + |b| + |c|, d)
            && At(s, |a| + |b| + |c| + |d|, e)
  {
    var rest := b + (c + (d + e));
    FourFields(b, c, d, e);
    AtFront(a, rest);
    AtBehind(a, rest, 0, b);
    AtBehind(a, rest, |b|, c);
    AtBehind(a, rest, |b| + |c|, d);
    AtBehind(a, rest, |b| + |c| + |d|, e);
  }

  /** The 120-byte entry. */
  lemma EntryLayout(e: Entry)
    requires EntryOk(e)
    ensures var b := EntryBytes(e);
            && |b| == 120 && At(b, 0, e.digest) && At(b, 32, e.origin) && At(b, 48, e.dotNode)
            && At(b, 64, BE(e.dotCounter, 8)) && At(b, 72, BE(ToU64(e.sysT), 8)) && At(b, 80, BE(ToU64(e.vs), 8))
            && At(b, 88, BE(ToU64(e.ve), 8)) && At(b, 96, BE(ToU64(e.ast), 8)) && At(b, 104, BE(ToU64(e.dec), 8))
            && At(b, 112, BE(e.h3, 8))
  {
    var t, sys := TimesBytes(e), BE(ToU64(e.sysT), 8);
    FiveFields(BE(ToU64(e.vs), 8), BE(ToU64(e.ve), 8), BE(ToU64(e.ast), 8), BE(ToU64(e.dec), 8), BE(e.h3, 8));
    FiveFields(e.digest, e.origin, e.dotNode, BE(e.dotCounter, 8), sys + t);
    var b := EntryBytes(e);
    AtFront(sys, t);
    Nested(b, 72, sys + t, 0, sys);
    AtBehind(sys, t, 0, BE(ToU64(e.vs), 8));
    Nested(b, 72, sys + t, 8, BE(ToU64(e.vs), 8));
    AtBehind(sys, t, 8, BE(ToU64(e.ve), 8));
    Nested(b, 72, sys + t, 16, BE(ToU64(e.ve), 8));
    AtBehind(sys, t, 16, BE(ToU64(e.ast), 8));
    Nested(b, 72, sys + t, 24, BE(ToU64(e.ast), 8));
    AtBehind(sys, t, 24, BE(ToU64(e.dec), 8));
    Nested(b, 72, sys + t, 32, BE(ToU64(e.dec), 8));
    AtBehind(sys, t, 32, BE(e.h3, 8));
    Nested(b, 72, sys + t, 40, BE(e.h3, 8));
  }

  lemma Nested(b: seq<Byte>, off: nat, part: seq<Byte>, inner: nat, x: seq<Byte>)
    requires At(b, off, part) && At(part, inner, x)
    ensures At(b, off + inner, x)
  {
    forall i | 0 <= i < |x| ensures b[off + inner + i] == x[i] {
      assert b[off..off + |part|][inner + i] == b[off + inner + i];
      assert part[inner..inner + |x|][i] == part[inner + i];
    }
  }

  /** A mutation: the length of its id, the id, the dot, the entry. */
  lemma MutationLayout(m: Mutation, entry: seq<Byte>)
    requires MutationOk(m)
    ensures var b, n := MutationBytes(m, entry), |m.id|;
            && |b| == 28 + n + |entry| && At(b, 0, BE(n, 4)) && At(b, 4, m.id) && At(b, 4 + n, m.node)
            && At(b, 20 + n, BE(m.counter, 8)) && At(b, 28 + n, entry)
  {
    FiveFields(BE(|m.id|, 4), m.id, m.node, BE(m.counter, 8), entry);
  }

  /** A checkpoint: root and watermark, then cut and clock, then the fingerprint. */
  lemma CheckpointLayout(c: Checkpoint)
    requires CheckpointOk(c)
    ensures var b := CheckpointBytes(c);
            && At(b, 0, c.root) && At(b, 32, BE(c.lamportHigh, 8))
            && (c.hasCutSeq ==> At(b, 40, BE(c.cutSeq, 8)) && At(b, 48, BE(c.clockHigh, 8)))
            && (c.hasCutSeq && c.hasFingerprint ==> At(b, 56, c.fingerprint))
            && |b| == (if !c.hasCutSeq then 40 else if c.hasFingerprint then 88 else 56)
  {
    if c.hasCutSeq {
      FiveFields(c.root, BE(c.lamportHigh, 8), BE(c.cutSeq, 8), BE(c.clockHigh, 8),
                 if c.hasFingerprint then c.fingerprint else []);
    } else {
      TwoFields(c.root, BE(c.lamportHigh, 8));
    }
  }

  /** A record in the file: number, kind, length, and the payload; the checksummed one holds the
      inner kind, the inner payload and their checksum. */
  lemma RecordLayout(n: nat, r: Raw)
    requires n < U64 && |r.payload| < U32
    ensures var b := WalLog.RecordBytes(n, r);
            && |b| == 13 + |r.payload| && At(b, 0, BE(n, 8)) && At(b, 8, [r.kind]) && At(b, 9, BE(|r.payload|, 4))
            && At(b, 13, r.payload)
    ensures var f := Framed(r).payload;
            && Framed(r).kind == 6 && At(f, 0, [r.kind]) && At(f, 1, r.payload)
            && At(f, 1 + |r.payload|, BE(Crc32c.Checksum([r.kind] + r.payload), 4))
  {
    FourFields(BE(n, 8), [r.kind], BE(|r.payload|, 4), r.payload);
    var crc := BE(Crc32c.Checksum([r.kind] + r.payload), 4);
    ThreeFields([r.kind], r.payload, crc);
    assert [r.kind] + (r.payload + crc) == ([r.kind] + r.payload) + crc;
  }

  lemma MutationKind(p: seq<Byte>, v2: bool, m: Mutation)
    requires DecodeMutation(p, v2) == Ok(m)
    ensures Decode(Raw(if v2 then 4 else 1, p)) == Ok(Mutated(m))
  {
  }

  lemma CheckpointKind(p: seq<Byte>, v2: bool, c: Checkpoint)
    requires (if v2 then DecodeCheckpointV2(p) else DecodeCheckpoint(p)) == Ok(c)
    ensures Decode(Raw(if v2 then 5 else 2, p)) == Ok(Checkpointed(c))
  {
  }

  /** The kinds of record, by number: 1 the old mutation, 4 the newer one, 3 the clock advance. */
  lemma MutationKinds(m: Mutation, to: nat, rest: seq<Byte>)
    requires MutationOk(m) && to < U64
    ensures Decode(Raw(1, MutationBytes(m, IdentityBytes(m.full, [])) + rest))
         == Ok(Mutated(m.(full := m.full.(vs := 0, ve := 0, ast := 0, dec := 0, h3 := 0), legacy := true)))
    ensures Decode(Raw(4, MutationBytes(m, EntryBytes(m.full)) + rest)) == Ok(Mutated(m.(legacy := false)))
    ensures Decode(Raw(3, BE(to, 8) + rest)) == Ok(Advanced(to))
  {
    MutationRoundTrip(m, false, rest);
    MutationKind(MutationBytes(m, EntryPart(m, false)) + rest, false,
                 m.(full := m.full.(vs := 0, ve := 0, ast := 0, dec := 0, h3 := 0), legacy := true));
    MutationRoundTrip(m, true, rest);
    MutationKind(MutationBytes(m, EntryPart(m, true)) + rest, true, m.(legacy := false));
    Word64Front(to, rest);
  }

  /** And 2 the old checkpoint, 5 the newer one with or without a fingerprint. */
  lemma CheckpointKinds(c: Checkpoint)
    requires CheckpointOk(c)
    ensures !c.hasCutSeq ==>
              Decode(Raw(2, CheckpointBytes(c))) == Ok(Checkpointed(Checkpoint(c.root, ZERO32, c.lamportHigh, 0, 0, false, false)))
    ensures c.hasCutSeq && c.hasFingerprint ==> Decode(Raw(5, CheckpointBytes(c))) == Ok(Checkpointed(c))
    ensures c.hasCutSeq && !c.hasFingerprint ==> Decode(Raw(5, CheckpointBytes(c))) == Ok(Checkpointed(c.(fingerprint := ZERO32)))
  {
    CheckpointRoundTrip(c);
    var p := CheckpointBytes(c);
    if !c.hasCutSeq {
      CheckpointKind(p, false, Checkpoint(c.root, ZERO32, c.lamportHigh, 0, 0, false, false));
    } else {
      CheckpointKind(p, true, if c.hasFingerprint then c else c.(fingerprint := ZERO32));
    }
  }

  // ---- Memtable ------------------------------------------------------------------------------------

  /** The composite key and the value packed with it. */
  lemma EventLayout(hash: seq<Byte>, e: Packing.Event)
    requires |hash| == 16 && Packing.EventOk(e)
    ensures var k := Packing.KeyOf(hash, e);
            && |k| == 40 && At(k, 0, hash) && At(k, 16, BE(ToU64(e.sysT), 8)) && At(k, 24, BE(ToU64(e.vs), 8))
            && At(k, 32, BE(ToU64(e.ast), 8))
    ensures var v, n := Packing.ValueOf(e), |e.id|;
            && |v| == 54 + n + |e.payload| && At(v, 0, LE(n, 2)) && At(v, 2, e.id) && At(v, 2 + n, LE(e.h3, 8))
            && At(v, 10 + n, LE(ToU64(e.ve), 8)) && At(v, 18 + n, e.digest) && At(v, 50 + n, LE(|e.payload|, 4))
            && At(v, 54 + n, e.payload)
  {
    Packing.KeyFields(hash, BE(ToU64(e.sysT), 8), BE(ToU64(e.vs), 8), BE(ToU64(e.ast), 8));
    Packing.ValueFields(LE(|e.id|, 2), e.id, LE(e.h3, 8), LE(ToU64(e.ve), 8), e.digest, LE(|e.payload|, 4), e.payload);
  }

  // ---- Transport -----------------------------------------------------------------------------------

  /** A frame: a zero word for one segment, the size in words of eight bytes, the segment. */
  lemma FrameLayout(segment: seq<Byte>, rest: seq<Byte>)
    requires Transport.SegmentOk(segment)
    ensures var s := Transport.Frame(segment) + rest;
            At(s, 0, LE(0, 4)) && At(s, 4, LE(|segment| / 8, 4)) && At(s, 8, segment) && At(s, 8 + |segment|, rest)
  {
    FrameParts(LE(0, 4), LE(|segment| / 8, 4), segment, rest);
  }

  lemma FrameParts(zero: seq<Byte>, size: seq<Byte>, segment: seq<Byte>, rest: seq<Byte>)
    requires |zero| == |size| == 4
    ensures var s := zero + size + segment + rest;
            At(s, 0, zero) && At(s, 4, size) && At(s, 8, segment) && At(s, 8 + |segment|, rest)
  {
    FourFields(zero, size, segment, rest);
    assert zero + (size + (segment + rest)) == zero + size + segment + rest;
  }
}
