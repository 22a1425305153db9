/** The writer of the log: records built field by field in a buffer, then appended to the
    file and numbered; opening a log cuts its tail at the last whole record. */
module WalWriter {
  import opened Basics
  import opened Bytes
  import opened WalRecords
  import opened WalReplay
  import opened WalLog
  import WalProtocol

  // ---- Records built in a buffer ------------------------------------------------------------------

  /** Writes the next field at `off` and returns the offset after it. */
  method Put(dst: array<Byte>, ghost was: seq<Byte>, ghost start: nat, ghost done: seq<Byte>, off: nat, src: seq<Byte>)
    returns (next: nat)
    requires start + |done| + |src| <= dst.Length == |was| && off == start + |done|
    requires dst[..] == Patch(was, start, done)
    modifies dst
    ensures dst[..] == Patch(was, start, done + src) && next == start + |done + src|
  {
    CopyAt(dst, off, src);
    PatchNext(was, start, done, src);
    next := off + |src|;
  }

  lemma Nest5(a: seq<Byte>, b: seq<Byte>, c: seq<Byte>, d: seq<Byte>, e: seq<Byte>)
    ensures [] + a + b + c + d + e == a + (b + (c + (d + e)))
  {
  }

  method PutIdentity(dst: array<Byte>, ghost was: seq<Byte>, start: nat, e: Entry) returns (next: nat)
    requires EntryOk(e) && start + 80 <= dst.Length == |was| && dst[..] == was
    modifies dst
    ensures dst[..] == Patch(was, start, IdentityBytes(e, [])) && next == start + 80
  {
    ghost var done: seq<Byte> := [];
    assert Patch(was, start, []) == was;
    next := Put(dst, was, start, done, start, e.digest);
    done := done + e.digest;
    next := Put(dst, was, start, done, next, e.origin);
    done := done + e.origin;
    next := Put(dst, was, start, done, next, e.dotNode);
    done := done + e.dotNode;
    next := Put(dst, was, start, done, next, BE(e.dotCounter, 8));
    done := done + BE(e.dotCounter, 8);
    next := Put(dst, was, start, done, next, BE(ToU64(e.sysT), 8));
    Nest5(e.digest, e.origin, e.dotNode, BE(e.dotCounter, 8), BE(ToU64(e.sysT), 8));
    assert BE(ToU64(e.sysT), 8) + [] == BE(ToU64(e.sysT), 8);
  }

  method PutTimes(dst: array<Byte>, ghost was: seq<Byte>, start: nat, e: Entry) returns (next: nat)
    requires EntryOk(e) && start + 40 <= dst.Length == |was| && dst[..] == was
    modifies dst
    ensures dst[..] == Patch(was, start, TimesBytes(e)) && next == start + 40
  {
    ghost var done: seq<Byte> := [];
    assert Patch(was, start, []) == was;
    next := Put(dst, was, start, done, start, BE(ToU64(e.vs), 8));
    done := done + BE(ToU64(e.vs), 8);
    next := Put(dst, was, start, done, next, BE(ToU64(e.ve), 8));
    done := done + BE(ToU64(e.ve), 8);
    next := Put(dst, was, start, done, next, BE(ToU64(e.ast), 8));
    done := done + BE(ToU64(e.ast), 8);
    next := Put(dst, was, start, done, next, BE(ToU64(e.dec), 8));
    done := done + BE(ToU64(e.dec), 8);
    next := Put(dst, was, start, done, next, BE(e.h3, 8));
    Nest5(BE(ToU64(e.vs), 8), BE(ToU64(e.ve), 8), BE(ToU64(e.ast), 8), BE(ToU64(e.dec), 8), BE(e.h3, 8));
  }

  lemma IdentityThen(e: Entry, rest: seq<Byte>)
    requires EntryOk(e)
    ensures IdentityBytes(e, []) + rest == IdentityBytes(e, rest)
  {
    var t := BE(ToU64(e.sysT), 8);
    assert (t + []) + rest == t + rest;
    assert (BE(e.dotCounter, 8) + (t + [])) + rest == BE(e.dotCounter, 8) + (t + rest);
  }

  /** The 120 bytes of an entry. */
  method EncodeEntry(dst: array<Byte>, start: nat, e: Entry)
    requires EntryOk(e) && start + 120 <= dst.Length
    modifies dst
    ensures dst[..] == Patch(old(dst[..]), start, EntryBytes(e))
  {
    ghost var was := dst[..];
    var next := PutIdentity(dst, was, start, e);
    next := PutTimes(dst, dst[..], next, e);
    PatchNext(was, start, IdentityBytes(e, []), TimesBytes(e));
    IdentityThen(e, TimesBytes(e));
  }

  lemma MutationNested(m: Mutation, entry: seq<Byte>)
    requires MutationOk(m)
    ensures ([] + BE(|m.id|, 4) + m.id + m.node + BE(m.counter, 8)) + entry == MutationBytes(m, entry)
  {
    Nest5(BE(|m.id|, 4), m.id, m.node, BE(m.counter, 8), entry);
  }

  method PutMutation(dst: array<Byte>, start: nat, m: Mutation)
    requires MutationOk(m) && start + 148 + |m.id| <= dst.Length
    modifies dst
    ensures dst[..] == Patch(old(dst[..]), start, MutationBytes(m, EntryBytes(m.full)))
  {
    ghost var was, done := dst[..], [];
    assert Patch(was, start, []) == was;
    var off := Put(dst, was, start, done, start, BE(|m.id|, 4));
    done := done + BE(|m.id|, 4);
    off := Put(dst, was, start, done, off, m.id);
    done := done + m.id;
    off := Put(dst, was, start, done, off, m.node);
    done := done + m.node;
    off := Put(dst, was, start, done, off, BE(m.counter, 8));
    done := done + BE(m.counter, 8);
    EncodeEntry(dst, off, m.full);
    PatchNext(was, start, done, EntryBytes(m.full));
    MutationNested(m, EntryBytes(m.full));
  }

  method PutCheckpoint(dst: array<Byte>, start: nat, c: Checkpoint)
    requires CheckpointOk(c) && start + |CheckpointBytes(c)| <= dst.Length
    modifies dst
    ensures dst[..] == Patch(old(dst[..]), start, CheckpointBytes(c))
  {
    ghost var was, done := dst[..], [];
    assert Patch(was, start, []) == was;
    var off := Put(dst, was, start, done, start, c.root);
    done := done + c.root;
    off := Put(dst, was, start, done, off, BE(c.lamportHigh, 8));
    done := done + BE(c.lamportHigh, 8);
    if c.hasCutSeq {
      off := Put(dst, was, start, done, off, BE(c.cutSeq, 8));
      done := done + BE(c.cutSeq, 8);
      off := Put(dst, was, start, done, off, BE(c.clockHigh, 8));
      done := done + BE(c.clockHigh, 8);
      ghost var last := if c.hasFingerprint then c.fingerprint else [];
      if c.hasFingerprint {
        off := Put(dst, was, start, done, off, c.fingerprint);
      }
      assert done + [] == done;
      Nest5(c.root, BE(c.lamportHigh, 8), BE(c.cutSeq, 8), BE(c.clockHigh, 8), last);
    } else {
      assert done == CheckpointBytes(c);
    }
  }

  method PutPayload(dst: array<Byte>, start: nat, e: Event)
    requires EventOk(e) && start + |RawOf(e).payload| <= dst.Length
    modifies dst
    ensures dst[..] == Patch(old(dst[..]), start, RawOf(e).payload)
  {
    match e
    case Mutated(m) => PutMutation(dst, start, m);
    case Advanced(to) => CopyAt(dst, start, BE(to, 8));
    case Checkpointed(c) => PutCheckpoint(dst, start, c);
  }

  /** The bytes of a frame before its payload. */
  function FrameHead(n: nat, len: nat): (b: seq<Byte>)
    ensures |b| == 13
  {
    BE(n, 8) + [CHECKSUMMED] + BE(1 + len + 4, 4)
  }

  lemma Nest6(a: seq<Byte>, b: seq<Byte>, c: seq<Byte>, d: seq<Byte>, e: seq<Byte>)
    ensures ((a + b + c) + d) + e == a + (b + (c + (d + e)))
  {
  }

  lemma RecordNested(n: nat, body: seq<Byte>, crc: seq<Byte>)
    requires |body| >= 1 && |crc| == 4
    ensures (FrameHead(n, |body| - 1) + body) + crc == RecordBytes(n, Raw(CHECKSUMMED, body + crc))
  {
    Nest6(BE(n, 8), [CHECKSUMMED], BE(|body| + 4, 4), body, crc);
  }

  method PutHead(rec: array<Byte>, n: nat, len: nat)
    requires rec.Length >= 13
    modifies rec
    ensures rec[..] == Patch(old(rec[..]), 0, FrameHead(n, len))
  {
    ghost var was := rec[..];
    CopyAt(rec, 0, BE(n, 8));
    CopyAt(rec, 8, [CHECKSUMMED]);
    PatchNext(was, 0, BE(n, 8), [CHECKSUMMED]);
    CopyAt(rec, 9, BE(1 + len + 4, 4));
    PatchNext(was, 0, BE(n, 8) + [CHECKSUMMED], BE(1 + len + 4, 4));
  }

  lemma PatchedBody(was: seq<Byte>, head: seq<Byte>, body: seq<Byte>)
    requires |head| + |body| <= |was|
    ensures Patch(was, 0, head + body)[|head|..|head| + |body|] == body
  {
  }

  lemma Filled(was: seq<Byte>, all: seq<Byte>)
    requires |all| == |was|
    ensures Patch(was, 0, all) == all
  {
  }

  /** Ends a frame with the checksum of its body. */
  method Seal(rec: array<Byte>, ghost was: seq<Byte>, n: nat, len: nat, ghost body: seq<Byte>)
    requires |body| == 1 + len && rec.Length == |was| == 18 + len
    requires rec[..] == Patch(was, 0, FrameHead(n, len) + body)
    modifies rec
    ensures rec[..] == RecordBytes(n, Raw(CHECKSUMMED, body + BE(Crc32c.Checksum(body), 4)))
  {
    ghost var head := FrameHead(n, len);
    PatchedBody(was, head, body);
    assert rec[13..14 + len] == rec[..][13..14 + len];
    var crc := BE(Crc32c.Checksum(rec[13..14 + len]), 4);
    var off := Put(rec, was, 0, head + body, 14 + len, crc);
    RecordNested(n, body, crc);
    Filled(was, (head + body) + crc);
  }

  /** The type of a record and the length of its payload. */
  method Shape(e: Event) returns (kind: Byte, len: nat)
    requires EventOk(e)
    ensures kind == RawOf(e).kind && len == |RawOf(e).payload|
  {
    match e
    case Mutated(m) => kind, len := MUTATION_V2, 4 + |m.id| + 16 + 8 + 120;
    case Advanced(_) => kind, len := CLOCK_ADVANCE, 8;
    case Checkpointed(c) =>
      if c.hasCutSeq {
        kind, len := CHECKPOINT_V2, if c.hasFingerprint then 88 else 56;
      } else {
        kind, len := CHECKPOINT, 40;
      }
  }

  /** One record: its number, the frame type, the length, and a payload ending in the
      checksum of what precedes it. */
  method Encode(n: nat, e: Event) returns (rec: array<Byte>)
    requires EventOk(e)
    ensures fresh(rec) && rec[..] == RecordBytes(n, FrameOf(e))
  {
    var kind, len := Shape(e);
    rec := new Byte[18 + len](i => 0);
    ghost var was, inner := rec[..], RawOf(e).payload;
    PutHead(rec, n, len);
    CopyAt(rec, 13, [kind]);
    PatchNext(was, 0, FrameHead(n, len), [kind]);
    PutPayload(rec, 14, e);
    PatchNext(was, 0, FrameHead(n, len) + [kind], inner);
    Assoc(FrameHead(n, len), [kind], inner);
    Seal(rec, was, n, len, [kind] + inner);
  }

  // ---- The writer ------------------------------------------------------------------------------------

  /** What an appender checks of a mutation before writing it. */
  predicate Valid(m: Mutation) {
    && m.id != [] && !m.legacy
    && m.full.dotNode == m.node && m.full.dotCounter == m.counter && m.full.origin != ZERO16
  }

  /** A mutation within its field types, its id short enough for the length field. */
  predicate Shaped(m: Mutation) {
    MutationOk(m) && |m.id| + 153 < U32
  }

  function MutationFrame(m: Mutation): Raw {
    FrameOf(Mutated(m))
  }

  /** The bytes of the first `k` records of a batch, numbered from `start`. */
  function Records<T>(frame: T -> Raw, xs: seq<T>, k: nat, start: nat): seq<Byte>
    requires k <= |xs|
  {
    if k == 0 then [] else Records(frame, xs, k - 1, start) + RecordBytes(start + k - 1, frame(xs[k - 1]))
  }

  lemma LogOfOne(r: Raw, start: nat)
    ensures Log([r], start) == RecordBytes(start, r)
  {
    assert [r][1..] == [];
    assert Log([r], start) == RecordBytes(start, r) + [];
  }

  lemma LogSnoc(raws: seq<Raw>, start: nat, r: Raw)
    ensures Log(raws + [r], start) == Log(raws, start) + RecordBytes(start + |raws|, r)
  {
    LogJoin(raws, [r], start);
    LogOfOne(r, start + |raws|);
  }

  lemma RecordsNext<T>(was: seq<Byte>, frame: T -> Raw, xs: seq<T>, k: nat, start: nat)
    requires k < |xs|
    ensures was + Records(frame, xs, k + 1, start)
         == (was + Records(frame, xs, k, start)) + RecordBytes(start + k, frame(xs[k]))
  {
    Assoc(was, Records(frame, xs, k, start), RecordBytes(start + k, frame(xs[k])));
  }

  lemma RecordsLast<T>(frame: T -> Raw, xs: seq<T>, k: nat, start: nat)
    requires 0 < k <= |xs|
    ensures Records(frame, xs, k, start) == Records(frame, xs, k - 1, start) + RecordBytes(start + (k - 1), frame(xs[k - 1]))
  {
  }

  lemma MapNext<T>(frame: T -> Raw, xs: seq<T>, k: nat)
    requires k < |xs|
    ensures Map(frame, xs[..k + 1]) == Map(frame, xs[..k]) + [frame(xs[k])]
  {
    assert xs[..k + 1][..k] == xs[..k];
  }

  lemma LogMapNext<T>(frame: T -> Raw, xs: seq<T>, k: nat, start: nat)
    requires k < |xs|
    ensures Log(Map(frame, xs[..k + 1]), start) == Log(Map(frame, xs[..k]), start) + RecordBytes(start + k, frame(xs[k]))
  {
    MapNext(frame, xs, k);
    LogSnoc(Map(frame, xs[..k]), start, frame(xs[k]));
  }

  /** They are consecutive records of a log. */
  lemma {:induction false} RecordsAreLog<T>(frame: T -> Raw, xs: seq<T>, k: nat, start: nat)
    requires k <= |xs|
    ensures Records(frame, xs, k, start) == Log(Map(frame, xs[..k]), start)
  {
    if k == 0 {
      assert xs[..0] == [];
    } else {
      RecordsAreLog(frame, xs, k - 1, start);
      RecordsStep(frame, xs, k, start, Log(Map(frame, xs[..k - 1]), start));
    }
  }

  lemma RecordsStep<T>(frame: T -> Raw, xs: seq<T>, k: nat, start: nat, before: seq<Byte>)
    requires 0 < k <= |xs| && Records(frame, xs, k - 1, start) == before == Log(Map(frame, xs[..k - 1]), start)
    ensures Records(frame, xs, k, start) == Log(Map(frame, xs[..k]), start)
  {
    var last := RecordBytes(start + (k - 1), frame(xs[k - 1]));
    assert Records(frame, xs, k, start) == before + last by { RecordsLast(frame, xs, k, start); }
    assert Log(Map(frame, xs[..k]), start) == before + last by { LogMapNext(frame, xs, k - 1, start); }
  }

  predicate AllValid(ms: seq<Mutation>, k: nat) {
    k <= |ms| && forall i :: 0 <= i < k ==> Valid(ms[i])
  }

  lemma ValidMore(ms: seq<Mutation>, k: nat)
    requires AllValid(ms, k) && k < |ms| && Valid(ms[k])
    ensures AllValid(ms, k + 1)
  {
  }

  predicate AllShaped(ms: seq<Mutation>) {
    forall i :: 0 <= i < |ms| ==> Shaped(ms[i])
  }

  /** The file with the first `k` records of the batch after it. */
  predicate Wrote(was: seq<Byte>, start: nat, ms: seq<Mutation>, k: nat, file: seq<Byte>) {
    k <= |ms| && file == was + Records(MutationFrame, ms, k, start)
  }

  lemma WroteNext(was: seq<Byte>, start: nat, ms: seq<Mutation>, k: nat, file: seq<Byte>, longer: seq<Byte>)
    requires k < |ms| && Wrote(was, start, ms, k, file) && longer == file + RecordBytes(start + k, MutationFrame(ms[k]))
    ensures Wrote(was, start, ms, k + 1, longer)
  {
    RecordsNext(was, MutationFrame, ms, k, start);
  }

  lemma WroteMore(was: seq<Byte>, start: nat, ms: seq<Mutation>, k: nat, file: seq<Byte>, longer: seq<Byte>)
    requires AllValid(ms, k) && k < |ms| && Valid(ms[k]) && Wrote(was, start, ms, k, file)
    requires longer == file + RecordBytes(start + k, MutationFrame(ms[k]))
    ensures AllValid(ms, k + 1) && Wrote(was, start, ms, k + 1, longer)
  {
    ValidMore(ms, k);
    WroteNext(was, start, ms, k, file, longer);
  }

  /** `k` mutations of a batch are written: those before the first that is refused or
      whose write fails. */
  predicate Stops(ms: seq<Mutation>, failAt: nat, k: nat) {
    && AllValid(ms, k) && k <= failAt
    && (k < |ms| ==> k == failAt || !Valid(ms[k]))
  }

  class Writer {
    /** The bytes of the file; a closed writer has no handle on it. */
    var file: seq<Byte>
    var open: bool
    var nextSeq: nat

    constructor (file: seq<Byte>, nextSeq: nat)
      ensures this.file == file && this.nextSeq == nextSeq && open
    {
      this.file, this.nextSeq, open := file, nextSeq, true;
    }

    /** Opens a log: an empty file gets a header; any other must have one, and is cut after
        its last whole record. */
    static method OpenWAL(bytes: seq<Byte>) returns (w: Writer?)
      ensures w == null <==> bytes != [] && !HeaderOk(bytes)
      ensures w != null ==> fresh(w) && w.open
      ensures w != null && bytes == [] ==> w.file == HEADER && w.nextSeq == 0
      ensures w != null && bytes != [] ==>
                w.file == Repaired(bytes) && w.nextSeq == ScanOf(Parse(bytes[8..]).pieces).nextSeq
    {
      if bytes == [] {
        w := new Writer(HEADER, 0);
      } else if !HeaderOk(bytes) {
        w := null;
      } else {
        var scan := ScanRecords(bytes);
        ParseSizes(bytes[8..]);
        w := new Writer(bytes[..scan.lastGood], scan.nextSeq);
      }
    }

    /** Writes one record; the number is consumed when the bytes are in the file, whatever
        the sync then does. */
    method Append(e: Event, writes: bool, syncs: bool) returns (ok: bool)
      requires EventOk(e) && nextSeq + 1 < U64
      modifies this
      ensures open == old(open) && ok == (open && writes && syncs)
      ensures open && writes ==> file == old(file) + RecordBytes(old(nextSeq), FrameOf(e)) && nextSeq == old(nextSeq) + 1
      ensures !(open && writes) ==> file == old(file) && nextSeq == old(nextSeq)
    {
      var rec := Encode(nextSeq, e);
      if !open || !writes {
        return false;
      }
      file, nextSeq := file + rec[..], nextSeq + 1;
      return syncs;
    }

    method AppendMutation(m: Mutation, writes: bool, syncs: bool) returns (ok: bool)
      requires Shaped(m) && nextSeq + 1 < U64
      modifies this
      ensures open == old(open) && ok == (Valid(m) && open && writes && syncs)
      ensures Valid(m) && open && writes ==>
                file == old(file) + RecordBytes(old(nextSeq), MutationFrame(m)) && nextSeq == old(nextSeq) + 1
      ensures !(Valid(m) && open && writes) ==> file == old(file) && nextSeq == old(nextSeq)
    {
      if !Valid(m) {
        return false;
      }
      ok := Append(Mutated(m), writes, syncs);
    }

    /** Writes the next record of a batch. */
    method WriteNext(ms: seq<Mutation>, k: nat, writes: bool, ghost was: seq<Byte>, ghost start: nat) returns (written: bool)
      requires k < |ms| && Shaped(ms[k]) && nextSeq + 1 < U64 && nextSeq == start + k
      requires AllValid(ms, k) && Wrote(was, start, ms, k, file)
      modifies this
      ensures open == old(open) && written == (Valid(ms[k]) && open && writes)
      ensures written ==> AllValid(ms, k + 1) && Wrote(was, start, ms, k + 1, file) && nextSeq == start + k + 1
      ensures !written ==> file == old(file) && nextSeq == old(nextSeq)
    {
      ghost var before := file;
      written := AppendMutation(ms[k], writes, true);
      if written {
        WroteMore(was, start, ms, k, before, file);
      }
    }

    /** Writes the records of a batch up to the first that is refused or whose write fails. */
    method WriteAll(ms: seq<Mutation>, failAt: nat) returns (k: nat)
      requires AllShaped(ms) && nextSeq + |ms| < U64
      modifies this
      ensures open == old(open) && Stops(ms, if open then failAt else 0, k)
      ensures Wrote(old(file), old(nextSeq), ms, k, file) && nextSeq == old(nextSeq) + k
    {
      k := 0;
      var written := true;
      while k < |ms| && written
        invariant open == old(open) && AllValid(ms, k) && k <= (if open then failAt else 0)
        invariant Wrote(old(file), old(nextSeq), ms, k, file) && nextSeq == old(nextSeq) + k
        invariant !written ==> Stops(ms, if open then failAt else 0, k)
        decreases |ms| - k, written
      {
        written := WriteNext(ms, k, k != failAt, old(file), old(nextSeq));
        if written {
          k := k + 1;
        }
      }
    }

    /** A batch: one sync for all its records. The result names the first that was not
        written, or -1. */
    method AppendMutations(ms: seq<Mutation>, failAt: nat, syncs: bool) returns (firstFail: int, ok: bool)
      requires AllShaped(ms) && nextSeq + |ms| < U64
      modifies this
      ensures open == old(open) && -1 <= firstFail < |ms|
      ensures var k := if firstFail == -1 then |ms| else firstFail;
              && Stops(ms, if open then failAt else 0, k)
              && Wrote(old(file), old(nextSeq), ms, k, file) && nextSeq == old(nextSeq) + k
      ensures ok == (firstFail == -1 && open && syncs)
    {
      var k := WriteAll(ms, failAt);
      if k < |ms| {
        return k, false;
      }
      return -1, open && syncs;
    }

    method AppendCheckpoint(c: Checkpoint, writes: bool, syncs: bool) returns (ok: bool)
      requires CheckpointOk(c) && nextSeq + 1 < U64
      modifies this
      ensures open == old(open) && ok == (open && writes && syncs)
      ensures open && writes ==>
                file == old(file) + RecordBytes(old(nextSeq), FrameOf(Checkpointed(c))) && nextSeq == old(nextSeq) + 1
      ensures !(open && writes) ==> file == old(file) && nextSeq == old(nextSeq)
    {
      ok := Append(Checkpointed(c), writes, syncs);
    }

    method AppendClockAdvance(to: int, writes: bool, syncs: bool) returns (ok: bool)
      requires IsU64(to) && nextSeq + 1 < U64
      modifies this
      ensures open == old(open) && ok == (open && writes && syncs)
      ensures open && writes ==>
                file == old(file) + RecordBytes(old(nextSeq), FrameOf(Advanced(to))) && nextSeq == old(nextSeq) + 1
      ensures !(open && writes) ==> file == old(file) && nextSeq == old(nextSeq)
    {
      ok := Append(Advanced(to), writes, syncs);
    }

    method Close()
      modifies this
      ensures !open && file == old(file) && nextSeq == old(nextSeq)
    {
      open := false;
    }
  }

  // ---- The writer takes the protocol's steps -----------------------------------------------------------

  /** Taking the mutex and writing `k` records. */
  predicate LockedWrites(steps: seq<WalProtocol.Step>, events: seq<Event>, k: nat) {
    |steps| == k + 1 && steps[0] == WalProtocol.Lock(events) && forall i :: 0 < i <= k ==> steps[i] == WalProtocol.Write
  }

  /** The state when the holder of the mutex has written `data`, its first `k` records. */
  function Midway(w: WalProtocol.Wal, events: seq<Event>, k: nat, data: seq<Byte>): WalProtocol.Wal {
    w.(file := w.file + data, nextSeq := w.nextSeq + k, turns := w.turns + 1,
       lock := Some(WalProtocol.Holder(w.turns, w.nextSeq, events, k)))
  }

  lemma MidwayNext(c: WalProtocol.Codec, w: WalProtocol.Wal, events: seq<Event>, k: nat, data: seq<Byte>)
    requires k < |events|
    ensures WalProtocol.WriteNext(c, Midway(w, events, k, data), WalProtocol.Holder(w.turns, w.nextSeq, events, k))
         == Midway(w, events, k + 1, data + RecordBytes(w.nextSeq + k, c.frame(events[k])))
  {
    Assoc(w.file, data, RecordBytes(w.nextSeq + k, c.frame(events[k])));
  }

  lemma RunsSnoc(c: WalProtocol.Codec, w: WalProtocol.Wal, steps: seq<WalProtocol.Step>, s: WalProtocol.Step, mid: WalProtocol.Wal)
    requires WalProtocol.Runs(c, w, steps) && WalProtocol.Exec(c, w, steps) == mid && WalProtocol.Enabled(c, mid, s)
    ensures WalProtocol.Runs(c, w, steps + [s])
    ensures WalProtocol.Exec(c, w, steps + [s]) == WalProtocol.Apply(c, mid, s)
  {
    assert (steps + [s])[..|steps|] == steps;
  }

  lemma TakeWrite(c: WalProtocol.Codec, w: WalProtocol.Wal, steps: seq<WalProtocol.Step>, events: seq<Event>, k: nat, data: seq<Byte>)
    requires k < |events| && w.nextSeq + |events| < U64
    requires WalProtocol.Runs(c, w, steps) && WalProtocol.Exec(c, w, steps) == Midway(w, events, k, data)
    ensures WalProtocol.Runs(c, w, steps + [WalProtocol.Write])
    ensures WalProtocol.Exec(c, w, steps + [WalProtocol.Write])
         == Midway(w, events, k + 1, data + RecordBytes(w.nextSeq + k, c.frame(events[k])))
  {
    RunsSnoc(c, w, steps, WalProtocol.Write, Midway(w, events, k, data));
    MidwayNext(c, w, events, k, data);
  }

  lemma TakeLock(c: WalProtocol.Codec, w: WalProtocol.Wal, events: seq<Event>)
    requires w.open && w.lock.None? && WalProtocol.AllOk(c, events)
    ensures WalProtocol.Runs(c, w, [WalProtocol.Lock(events)])
    ensures WalProtocol.Exec(c, w, [WalProtocol.Lock(events)]) == Midway(w, events, 0, [])
  {
    RunsSnoc(c, w, [], WalProtocol.Lock(events), w);
    assert [] + [WalProtocol.Lock(events)] == [WalProtocol.Lock(events)];
    assert w.file + [] == w.file;
  }

  /** The first `k` records of an append or batch reach the file, and take their numbers,
      just as the protocol's steps have it. */
  lemma {:induction false} AppendTakesSteps(c: WalProtocol.Codec, w: WalProtocol.Wal, events: seq<Event>, k: nat)
    returns (steps: seq<WalProtocol.Step>)
    requires w.open && w.lock.None? && WalProtocol.AllOk(c, events) && k <= |events| && w.nextSeq + |events| < U64
    ensures LockedWrites(steps, events, k) && WalProtocol.Runs(c, w, steps)
    ensures WalProtocol.Exec(c, w, steps) == Midway(w, events, k, Records(c.frame, events, k, w.nextSeq))
  {
    if k == 0 {
      steps := [WalProtocol.Lock(events)];
      TakeLock(c, w, events);
    } else {
      var before := AppendTakesSteps(c, w, events, k - 1);
      steps := before + [WalProtocol.Write];
      TakeWrite(c, w, before, events, k - 1, Records(c.frame, events, k - 1, w.nextSeq));
    }
  }
}
