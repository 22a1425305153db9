/** Logs as the appenders write them: what replay makes of every cut of one, of a reopened
    and extended one, of bare and framed records mixed, and of a changed byte. */
module WalLog {
  import opened Basics
  import opened Bytes
  import opened WalRecords
  import opened WalReplay
  import opened WalMeaning

  /** One record in the file; a length of four gibibytes or more would be truncated. */
  function RecordBytes(n: nat, r: Raw): (b: seq<Byte>)
    ensures |b| == 13 + |r.payload|
  {
    BE(n, 8) + ([r.kind] + (BE(|r.payload|, 4) + r.payload))
  }

  /** Consecutive records, numbered from `start`. */
  function Log(raws: seq<Raw>, start: nat): seq<Byte> {
    if raws == [] then [] else RecordBytes(start, raws[0]) + Log(raws[1..], start + 1)
  }

  predicate Sized(raws: seq<Raw>) {
    forall i :: 0 <= i < |raws| ==> |raws[i].payload| < U32
  }

  // ---- Parsing a log -----------------------------------------------------------------------------------

  lemma HeadOfRecord(n: nat, r: Raw, rest: seq<Byte>)
    requires n < U64 && |r.payload| < U32
    ensures var data := RecordBytes(n, r) + rest;
            && |data| >= 13 + |r.payload| && HeadOf(data) == Head(n, r.kind, |r.payload|)
            && data[13..13 + |r.payload|] == r.payload && data[13 + |r.payload|..] == rest
  {
    var data := RecordBytes(n, r) + rest;
    var b2 := BE(|r.payload|, 4) + (r.payload + rest);
    var b1 := [r.kind] + b2;
    assert data == BE(n, 8) + b1;
    Word64Front(n, b1);
    assert data[8] == r.kind;
    assert data[9..] == data[8..][1..] == b2;
    Word32Front(|r.payload|, r.payload + rest);
    assert data[13..] == data[9..][4..] == r.payload + rest;
    Front(r.payload, rest);
    assert data[13..13 + |r.payload|] == data[13..][..|r.payload|];
    assert data[13 + |r.payload|..] == data[13..][|r.payload|..];
  }

  function Numbered(raws: seq<Raw>, start: nat): (ps: seq<Piece>)
    ensures |ps| == |raws| && forall i :: 0 <= i < |ps| ==> ps[i] == Piece(start + i, raws[i])
  {
    if raws == [] then [] else [Piece(start, raws[0])] + Numbered(raws[1..], start + 1)
  }

  lemma ParseRecord(n: nat, r: Raw, rest: seq<Byte>)
    requires n < U64 && |r.payload| < U32
    ensures Parse(RecordBytes(n, r) + rest) == Parse(rest).(pieces := [Piece(n, r)] + Parse(rest).pieces)
  {
    HeadOfRecord(n, r, rest);
  }

  lemma Assoc<T>(a: seq<T>, b: seq<T>, c: seq<T>)
    ensures (a + b) + c == a + (b + c)
  {
  }

  /** The records of a log parse back, whatever follows them. */
  lemma {:induction false} ParseLog(raws: seq<Raw>, start: nat, rest: seq<Byte>)
    requires Sized(raws) && start + |raws| <= U64
    ensures Parse(Log(raws, start) + rest) == Parse(rest).(pieces := Numbered(raws, start) + Parse(rest).pieces)
  {
    if raws == [] {
      assert Log(raws, start) + rest == rest;
      assert Numbered(raws, start) + Parse(rest).pieces == Parse(rest).pieces;
    } else {
      var b := Log(raws[1..], start + 1);
      Assoc(RecordBytes(start, raws[0]), b, rest);
      ParseLog(raws[1..], start + 1, rest);
      ParseRecord(start, raws[0], b + rest);
      Assoc([Piece(start, raws[0])], Numbered(raws[1..], start + 1), Parse(rest).pieces);
    }
  }

  /** A record cut short parses to no record, and its header when that is whole. */
  lemma ParseTorn(n: nat, r: Raw, m: nat)
    requires n < U64 && |r.payload| < U32 && m < 13 + |r.payload|
    ensures Parse(RecordBytes(n, r)[..m])
         == Parsed([], if m < 13 then None else Some(Head(n, r.kind, |r.payload|)))
  {
    var data := RecordBytes(n, r);
    if m >= 13 {
      HeadOfRecord(n, r, []);
      assert data + [] == data;
      HeadOfCut(data, m);
    }
  }

  // ---- Cuts ----------------------------------------------------------------------------------------------

  /** How many whole records lie in the first `n` bytes. */
  function WholeIn(raws: seq<Raw>, n: nat): (k: nat)
    ensures k <= |raws|
  {
    if raws == [] || n < 13 + |raws[0].payload| then 0
    else 1 + WholeIn(raws[1..], n - 13 - |raws[0].payload|)
  }

  lemma LogCons(raws: seq<Raw>, start: nat)
    requires raws != []
    ensures Log(raws, start) == RecordBytes(start, raws[0]) + Log(raws[1..], start + 1)
  {
  }

  lemma {:induction false} LogJoin(a: seq<Raw>, b: seq<Raw>, start: nat)
    ensures Log(a + b, start) == Log(a, start) + Log(b, start + |a|)
  {
    if a == [] {
      assert a + b == b;
    } else {
      var head, la, lb := RecordBytes(start, a[0]), Log(a[1..], start + 1), Log(b, start + |a|);
      assert Log(a[1..] + b, start + 1) == la + lb by { LogJoin(a[1..], b, start + 1); }
      assert Log(a + b, start) == head + (la + lb) by {
        LogCons(a + b, start);
        assert (a + b)[1..] == a[1..] + b && (a + b)[0] == a[0];
      }
      assert Log(a, start) == head + la by { LogCons(a, start); }
      Assoc(head, la, lb);
    }
  }

  lemma LogSplit(raws: seq<Raw>, start: nat, k: nat)
    requires k <= |raws|
    ensures Log(raws, start) == Log(raws[..k], start) + Log(raws[k..], start + k)
  {
    assert raws[..k] + raws[k..] == raws;
    LogJoin(raws[..k], raws[k..], start);
  }

  /** It is the greatest number of records whose bytes fit. */
  lemma {:induction false} WholeIsGreatest(raws: seq<Raw>, start: nat, n: nat)
    ensures var k := WholeIn(raws, n);
            && |Log(raws[..k], start)| <= n
            && (k < |raws| ==> |Log(raws[..k], start)| + 13 + |raws[k].payload| > n)
  {
    if raws != [] && n >= 13 + |raws[0].payload| {
      var k := WholeIn(raws, n);
      WholeIsGreatest(raws[1..], start + 1, n - 13 - |raws[0].payload|);
      assert raws[..k][1..] == raws[1..][..k - 1];
      assert k < |raws| ==> raws[1..][k - 1] == raws[k];
    } else {
      assert raws[..0] == [];
    }
  }

  /** The first `m` bytes of record `k`, nothing when there is no such record. */
  function Tail(raws: seq<Raw>, start: nat, k: nat, m: nat): seq<Byte>
    requires k < |raws| ==> m <= 13 + |raws[k].payload|
  {
    if k < |raws| then RecordBytes(start + k, raws[k])[..m] else []
  }

  /** What is left of a log after a cut: whole records, then part of one. */
  lemma CutForm(raws: seq<Raw>, start: nat, n: nat)
    requires n <= |Log(raws, start)|
    ensures var k := WholeIn(raws, n);
            var m := n - |Log(raws[..k], start)|;
            && 0 <= m && (k == |raws| ==> m == 0) && (k < |raws| ==> m < 13 + |raws[k].payload|)
            && Log(raws, start)[..n] == Log(raws[..k], start) + Tail(raws, start, k, m)
  {
    var k := WholeIn(raws, n);
    WholeIsGreatest(raws, start, n);
    LogSplit(raws, start, k);
    RestBegins(raws, start, k);
    CutBytes(Log(raws, start), Log(raws[..k], start), Log(raws[k..], start + k), n, raws, start, k);
  }

  /** After the last record nothing is left; before it, the next record. */
  lemma RestBegins(raws: seq<Raw>, start: nat, k: nat)
    requires k <= |raws|
    ensures k == |raws| ==> Log(raws[k..], start + k) == []
    ensures k < |raws| ==> RecordBytes(start + k, raws[k]) <= Log(raws[k..], start + k)
  {
    if k < |raws| {
      LogHead(raws, start, k);
    } else {
      assert raws[k..] == [];
    }
  }

  lemma CutBytes(all: seq<Byte>, a: seq<Byte>, b: seq<Byte>, n: nat, raws: seq<Raw>, start: nat, k: nat)
    requires all == a + b && |a| <= n <= |all| && k <= |raws|
    requires k == |raws| ==> b == []
    requires k < |raws| ==> RecordBytes(start + k, raws[k]) <= b && n - |a| < 13 + |raws[k].payload|
    ensures all[..n] == a + Tail(raws, start, k, n - |a|)
  {
    TakeAcross(a, b, n);
    if k < |raws| {
      var r := RecordBytes(start + k, raws[k]);
      assert b == r + b[|r|..];
      TakeWithin(r, b[|r|..], n - |a|);
    }
  }

  lemma TakeAcross<T>(a: seq<T>, b: seq<T>, n: nat)
    requires |a| <= n <= |a| + |b|
    ensures (a + b)[..n] == a + b[..n - |a|]
  {
  }

  lemma TakeWithin<T>(a: seq<T>, b: seq<T>, n: nat)
    requires n <= |a|
    ensures (a + b)[..n] == a[..n]
  {
  }

  lemma LogHead(raws: seq<Raw>, start: nat, k: nat)
    requires k < |raws|
    ensures Log(raws[k..], start + k) == RecordBytes(start + k, raws[k]) + Log(raws[k + 1..], start + k + 1)
  {
    assert raws[k..][1..] == raws[k + 1..] && raws[k..][0] == raws[k];
  }

  /** Every cut parses to the whole records, numbered from zero, and perhaps a torn header
      that carries the next number. */
  lemma ParseCutLog(raws: seq<Raw>, n: nat)
    requires Sized(raws) && |raws| <= U64 && n <= |Log(raws, 0)|
    ensures var k := WholeIn(raws, n);
            var p := Parse(Log(raws, 0)[..n]);
            && p.pieces == Numbered(raws[..k], 0)
            && (p.torn.Some? ==> k < |raws| && p.torn.value == Head(k, raws[k].kind, |raws[k].payload|))
  {
    var k := WholeIn(raws, n);
    CutForm(raws, 0, n);
    var m := n - |Log(raws[..k], 0)|;
    ParseTail(raws, k, m);
    ParseEnd(raws[..k], Tail(raws, 0, k, m));
  }

  lemma ParseTail(raws: seq<Raw>, k: nat, m: nat)
    requires Sized(raws) && |raws| <= U64 && k <= |raws| && (k < |raws| ==> m < 13 + |raws[k].payload|)
    ensures var p := Parse(Tail(raws, 0, k, m));
            && p.pieces == []
            && (p.torn.Some? ==> k < |raws| && p.torn.value == Head(k, raws[k].kind, |raws[k].payload|))
  {
    if k < |raws| {
      ParseTorn(k, raws[k], m);
    }
  }

  lemma ParseEnd(raws: seq<Raw>, tail: seq<Byte>)
    requires Sized(raws) && |raws| <= U64 && Parse(tail).pieces == []
    ensures Parse(Log(raws, 0) + tail) == Parsed(Numbered(raws, 0), Parse(tail).torn)
  {
    ParseLog(raws, 0, tail);
  }

  // ---- Replay of a log --------------------------------------------------------------------------------------

  /** Record `i` carries number `i`, fits the bound, and decodes to event `i`. */
  predicate Clean(records: seq<Record>, events: seq<Event>) {
    |records| == |events| <= U64
    && forall i :: 0 <= i < |records| ==>
         records[i].seqNo == i && records[i].len <= MAX_PAYLOAD && records[i].content == Ok(events[i])
  }

  lemma {:induction false} CleanReplays(records: seq<Record>, events: seq<Event>)
    requires Clean(records, events)
    ensures ReplayRecords(records) == Ok(FoldAll(events))
    ensures Expected(records) == |records| % U64
  {
    if records != [] {
      var n := |records| - 1;
      CleanReplays(records[..n], events[..n]);
      assert records[n].seqNo == n;
    }
  }

  function Map<A, B>(f: A -> B, xs: seq<A>): (ys: seq<B>)
    ensures |ys| == |xs| && forall i :: 0 <= i < |ys| ==> ys[i] == f(xs[i])
  {
    if xs == [] then [] else Map(f, xs[..|xs| - 1]) + [f(xs[|xs| - 1])]
  }

  lemma MapConcat<A, B>(f: A -> B, a: seq<A>, b: seq<A>)
    ensures Map(f, a + b) == Map(f, a) + Map(f, b)
  {
  }

  lemma MapPrefix<A, B>(f: A -> B, xs: seq<A>, k: nat)
    requires k <= |xs|
    ensures Map(f, xs)[..k] == Map(f, xs[..k])
  {
  }

  /** The frame an appender writes for an event it accepts. */
  function FrameOf(e: Event): Raw {
    if EventOk(e) then Framed(RawOf(e)) else Raw(0, [])
  }

  /** What the appenders write for a list of events. */
  function Frames(events: seq<Event>): (raws: seq<Raw>)
    ensures |raws| == |events|
  {
    Map(FrameOf, events)
  }

  function AsReplayed(events: seq<Event>): (r: seq<Event>)
    ensures |r| == |events|
  {
    Map(Replayable, events)
  }

  lemma FrameAt(events: seq<Event>, i: nat)
    requires EventsOk(events) && i < |events|
    ensures Frames(events)[i] == Framed(RawOf(events[i])) && AsReplayed(events)[i] == Replayable(events[i])
  {
  }

  predicate EventsOk(events: seq<Event>) {
    forall i :: 0 <= i < |events| ==> EventOk(events[i])
  }

  /** The payload of the event's frame is within the bound replay enforces. */
  predicate Bounded(e: Event)
    requires EventOk(e)
  {
    |RawOf(e).payload| + 5 <= MAX_PAYLOAD
  }

  predicate AllBounded(events: seq<Event>)
    requires EventsOk(events)
  {
    forall i :: 0 <= i < |events| ==> Bounded(events[i])
  }

  /** The bound is a bound on the entity id alone. */
  lemma BoundedIsShortId(e: Event)
    requires EventOk(e)
    ensures Bounded(e) <==> (e.Mutated? ==> |e.m.id| <= MAX_PAYLOAD - 153)
  {
  }

  /** The file of a list of events. */
  function FileOf(events: seq<Event>): seq<Byte>
    requires EventsOk(events)
  {
    HEADER + Log(Frames(events), 0)
  }

  lemma FramesSized(events: seq<Event>)
    requires EventsOk(events)
    ensures Sized(Frames(events))
  {
    forall i | 0 <= i < |events| ensures |Frames(events)[i].payload| < U32 {
      FrameAt(events, i);
      FrameLength(events[i]);
    }
  }

  lemma FrameLength(e: Event)
    requires EventOk(e)
    ensures |Framed(RawOf(e)).payload| == |RawOf(e).payload| + 5 < U32
  {
  }

  /** Frames decode to their events. */
  predicate DecodesTo(decode: Decoder, raws: seq<Raw>, events: seq<Event>) {
    |raws| == |events|
    && forall i :: 0 <= i < |raws| ==> decode(raws[i]) == Ok(events[i]) && |raws[i].payload| <= MAX_PAYLOAD
  }

  lemma FramesDecode(events: seq<Event>)
    requires EventsOk(events) && AllBounded(events)
    ensures DecodesTo(Decode, Frames(events), AsReplayed(events))
  {
    forall i | 0 <= i < |events|
      ensures Decode(Frames(events)[i]) == Ok(AsReplayed(events)[i]) && |Frames(events)[i].payload| <= MAX_PAYLOAD
    {
      FrameAt(events, i);
      AppendedDecodes(events[i]);
      FrameLength(events[i]);
    }
  }

  lemma CleanPrefix(decode: Decoder, raws: seq<Raw>, events: seq<Event>, k: nat)
    requires DecodesTo(decode, raws, events) && k <= |raws| <= U64
    ensures Clean(Decoded(decode, Numbered(raws[..k], 0)), events[..k])
  {
  }

  lemma HeaderFits(data: seq<Byte>, n: nat)
    requires 8 <= n <= 8 + |data|
    ensures HeaderOk((HEADER + data)[..n]) && (HEADER + data)[..n][8..] == data[..n - 8]
    ensures (HEADER + data)[..n] == HEADER + data[..n - 8]
  {
    var file := (HEADER + data)[..n];
    assert file[..4] == [0x57, 0x41, 0x4C, 0x00] && file[4..6] == [0, 1];
    HeaderNumbers();
    assert (HEADER + data)[8..] == data;
  }

  lemma HeaderNumbers()
    ensures FromBE([0x57, 0x41, 0x4C, 0x00]) == MAGIC && FromBE([0, 1]) == VERSION
  {
    assert [0x57, 0x41, 0x4C, 0x00][..3] == [0x57, 0x41, 0x4C];
    assert [0x57, 0x41, 0x4C][..2] == [0x57, 0x41];
    assert [0x57, 0x41][..1] == [0x57];
    assert [0x57][..0] == [];
    assert FromBE([0x57]) == 0x57;
    assert FromBE([0x57, 0x41]) == 0x5741;
    assert FromBE([0x57, 0x41, 0x4C]) == 0x57414C;
    assert [0, 1][..1] == [0] && [0][..0] == [];
    assert FromBE([0]) == 0;
  }

  lemma ReplayOfPieces(decode: Decoder, file: seq<Byte>, raws: seq<Raw>, events: seq<Event>, k: nat, torn: Option<Head>)
    requires DecodesTo(decode, raws, events) && k <= |raws| <= U64
    requires HeaderOk(file) && Parse(file[8..]) == Parsed(Numbered(raws[..k], 0), torn)
    requires torn.Some? ==> k < |raws| && torn.value == Head(k, raws[k].kind, |raws[k].payload|)
    ensures ReplayBy(decode, file) == Ok(FoldAll(events[..k]))
  {
    CleanPrefix(decode, raws, events, k);
    TornAccepted(Decoded(decode, Numbered(raws[..k], 0)), events[..k], torn);
  }

  lemma TornAccepted(records: seq<Record>, events: seq<Event>, torn: Option<Head>)
    requires Clean(records, events)
    requires torn.Some? ==> torn.value.seqNo == |records| < U64 && torn.value.len <= MAX_PAYLOAD
    ensures ReplayParsed(records, torn) == Ok(FoldAll(events))
  {
    CleanReplays(records, events);
  }

  lemma CutReplaysBy(decode: Decoder, raws: seq<Raw>, events: seq<Event>, n: nat)
    requires DecodesTo(decode, raws, events) && |raws| <= U64 && 8 <= n <= 8 + |Log(raws, 0)|
    ensures ReplayBy(decode, (HEADER + Log(raws, 0))[..n]) == Ok(FoldAll(events[..WholeIn(raws, n - 8)]))
  {
    var data := Log(raws, 0)[..n - 8];
    HeaderFits(Log(raws, 0), n);
    FitsFit(decode, raws, events);
    ParseCutLog(raws, n - 8);
    ReplayOfCut(decode, (HEADER + Log(raws, 0))[..n], data, raws, events, WholeIn(raws, n - 8));
  }

  lemma FitsFit(decode: Decoder, raws: seq<Raw>, events: seq<Event>)
    requires DecodesTo(decode, raws, events)
    ensures Sized(raws)
  {
  }

  lemma ReplayOfCut(decode: Decoder, file: seq<Byte>, data: seq<Byte>, raws: seq<Raw>, events: seq<Event>, k: nat)
    requires DecodesTo(decode, raws, events) && k <= |raws| <= U64 && HeaderOk(file) && file[8..] == data
    requires Parse(data).pieces == Numbered(raws[..k], 0)
    requires Parse(data).torn.Some? ==> k < |raws| && Parse(data).torn.value == Head(k, raws[k].kind, |raws[k].payload|)
    ensures ReplayBy(decode, file) == Ok(FoldAll(events[..k]))
  {
    ReplayOfPieces(decode, file, raws, events, k, Parse(data).torn);
  }

  /** For every cut of the file at byte 8 or later, replay succeeds and returns exactly what
      the longest prefix of whole records means. */
  lemma CutReplays(events: seq<Event>, n: nat)
    requires EventsOk(events) && AllBounded(events) && |events| <= U64 && 8 <= n <= |FileOf(events)|
    ensures var kept := AsReplayed(events[..WholeIn(Frames(events), n - 8)]);
            && Replay(FileOf(events)[..n]) == Ok(FoldAll(kept)) && Means(Replay(FileOf(events)[..n]).value, kept)
  {
    FramesDecode(events);
    CutReplaysBy(Decode, Frames(events), AsReplayed(events), n);
    MapPrefix(Replayable, events, WholeIn(Frames(events), n - 8));
    FoldMeans(AsReplayed(events[..WholeIn(Frames(events), n - 8)]));
  }

  /** The whole file replays to all its events. */
  lemma FileReplays(events: seq<Event>)
    requires EventsOk(events) && AllBounded(events) && |events| <= U64
    ensures Replay(FileOf(events)) == Ok(FoldAll(AsReplayed(events))) && Means(Replay(FileOf(events)).value, AsReplayed(events))
  {
    var file := FileOf(events);
    CutReplays(events, |file|);
    WholeLog(Frames(events), 0);
    assert file[..|file|] == file && events[..|events|] == events;
  }

  lemma {:induction false} WholeLog(raws: seq<Raw>, start: nat)
    ensures WholeIn(raws, |Log(raws, start)|) == |raws|
  {
    if raws != [] {
      WholeLog(raws[1..], start + 1);
    }
  }

  // ---- Reopening ------------------------------------------------------------------------------------------

  lemma {:induction false} SizesLog(raws: seq<Raw>, start: nat)
    ensures Sizes(Numbered(raws, start)) == |Log(raws, start)|
  {
    if raws != [] {
      SizesLog(raws[1..], start + 1);
      SizesCons(Piece(start, raws[0]), Numbered(raws[1..], start + 1));
    }
  }

  lemma {:induction false} NextAfterLog(raws: seq<Raw>)
    requires |raws| < U64
    ensures NextAfter(Numbered(raws, 0)) == |raws|
  {
    if raws != [] {
      var n := |raws| - 1;
      NextAfterLog(raws[..n]);
      assert Numbered(raws, 0)[..n] == Numbered(raws[..n], 0);
    }
  }

  /** Opening a file cut anywhere leaves the whole records, and the writer goes on with the
      number after the last of them. */
  lemma RepairCut(file: seq<Byte>, raws: seq<Raw>, n: nat)
    requires Sized(raws) && |raws| < U64 && 8 <= n <= 8 + |Log(raws, 0)|
    requires file == (HEADER + Log(raws, 0))[..n]
    ensures Repaired(file) == HEADER + Log(raws[..WholeIn(raws, n - 8)], 0)
    ensures ScanOf(Parse(file[8..]).pieces).nextSeq == WholeIn(raws, n - 8)
  {
    var data, kept := Log(raws, 0)[..n - 8], raws[..WholeIn(raws, n - 8)];
    CutData(raws, n - 8, data, kept);
    assert file == HEADER + data by { HeaderFits(Log(raws, 0), n); }
    RepairedIs(file, data, kept);
  }

  lemma CutData(raws: seq<Raw>, n: nat, data: seq<Byte>, kept: seq<Raw>)
    requires Sized(raws) && |raws| <= U64 && n <= |Log(raws, 0)|
    requires data == Log(raws, 0)[..n] && kept == raws[..WholeIn(raws, n)]
    ensures Parse(data).pieces == Numbered(kept, 0) && Log(kept, 0) <= data
  {
    ParseCutLog(raws, n);
    KeptBytes(raws, n);
  }

  lemma RepairedIs(file: seq<Byte>, data: seq<Byte>, kept: seq<Raw>)
    requires file == HEADER + data && |kept| < U64
    requires Parse(data).pieces == Numbered(kept, 0) && Log(kept, 0) <= data
    ensures Repaired(file) == HEADER + Log(kept, 0) && ScanOf(Parse(file[8..]).pieces).nextSeq == |kept|
  {
    assert file[8..] == data;
    SizesLog(kept, 0);
    NextAfterLog(kept);
  }

  lemma KeptBytes(raws: seq<Raw>, n: nat)
    requires n <= |Log(raws, 0)|
    ensures Log(raws[..WholeIn(raws, n)], 0) <= Log(raws, 0)[..n]
  {
    CutForm(raws, 0, n);
  }

  lemma LogConcat(a: seq<Raw>, b: seq<Raw>)
    ensures Log(a + b, 0) == Log(a, 0) + Log(b, |a|)
  {
    LogJoin(a, b, 0);
  }

  /** Reopening at any cut and appending more replays as the whole records before the cut
      followed by the new ones. */
  lemma ReopenAppends(events: seq<Event>, n: nat, more: seq<Event>)
    requires EventsOk(events) && AllBounded(events) && EventsOk(more) && AllBounded(more)
    requires |events| + |more| < U64 && 8 <= n <= |FileOf(events)|
    ensures var file, k := FileOf(events)[..n], WholeIn(Frames(events), n - 8);
            && ScanOf(Parse(file[8..]).pieces).nextSeq == k
            && Replay(Repaired(file) + Log(Frames(more), k)).Ok?
            && Means(Replay(Repaired(file) + Log(Frames(more), k)).value, AsReplayed(events[..k] + more))
  {
    var k := WholeIn(Frames(events), n - 8);
    FramesSized(events);
    RepairCut(FileOf(events)[..n], Frames(events), n);
    MapPrefix(FrameOf, events, k);
    PrefixOk(events, k);
    ExtendReplays(events[..k], more);
  }

  lemma PrefixOk(events: seq<Event>, k: nat)
    requires EventsOk(events) && AllBounded(events) && k <= |events|
    ensures EventsOk(events[..k]) && AllBounded(events[..k])
  {
  }

  lemma ExtendReplays(events: seq<Event>, more: seq<Event>)
    requires EventsOk(events) && AllBounded(events) && EventsOk(more) && AllBounded(more)
    requires |events| + |more| <= U64
    ensures Replay(FileOf(events) + Log(Frames(more), |events|)).Ok?
    ensures Means(Replay(FileOf(events) + Log(Frames(more), |events|)).value, AsReplayed(events + more))
  {
    Appended(events, more);
    BoundedConcat(events, more);
    FileReplays(events + more);
  }

  lemma BoundedConcat(a: seq<Event>, b: seq<Event>)
    requires EventsOk(a) && EventsOk(b) && EventsOk(a + b) && AllBounded(a) && AllBounded(b)
    ensures AllBounded(a + b)
  {
  }

  /** Appending to the file of a list of events is the file of the longer list. */
  lemma Appended(events: seq<Event>, more: seq<Event>)
    requires EventsOk(events) && EventsOk(more)
    ensures EventsOk(events + more) && FileOf(events + more) == FileOf(events) + Log(Frames(more), |events|)
  {
    EventsConcat(events, more);
    MapConcat(FrameOf, events, more);
    FileConcat(Frames(events), Frames(more));
  }

  lemma EventsConcat(a: seq<Event>, b: seq<Event>)
    requires EventsOk(a) && EventsOk(b)
    ensures EventsOk(a + b)
  {
  }

  lemma FileConcat(a: seq<Raw>, b: seq<Raw>)
    ensures HEADER + Log(a + b, 0) == (HEADER + Log(a, 0)) + Log(b, |a|)
  {
    LogConcat(a, b);
    Assoc(HEADER, Log(a, 0), Log(b, |a|));
  }

  // ---- The payload bound -------------------------------------------------------------------------------------

  /** Nothing stops an appender from writing a payload that replay then refuses: a log
      replays exactly when every entity id is short enough. */
  lemma ReplaysIffBounded(events: seq<Event>)
    requires EventsOk(events) && |events| <= U64
    ensures Replay(FileOf(events)).Ok? <==> AllBounded(events)
  {
    if AllBounded(events) {
      FileReplays(events);
    } else {
      var i :| 0 <= i < |events| && !Bounded(events[i]);
      FramesSized(events);
      FrameAt(events, i);
      FrameLength(events[i]);
      LongRefusedBy(Decode, Frames(events), i);
    }
  }

  lemma LongRefusedBy(decode: Decoder, raws: seq<Raw>, i: nat)
    requires Sized(raws) && i < |raws| <= U64 && |raws[i].payload| > MAX_PAYLOAD
    ensures ReplayBy(decode, HEADER + Log(raws, 0)).Err?
  {
    WholeParse(raws);
    WholeHeader(Log(raws, 0));
    LongRefused(Decoded(decode, Numbered(raws, 0)), i);
  }

  lemma WholeParse(raws: seq<Raw>)
    requires Sized(raws) && |raws| <= U64
    ensures Parse(Log(raws, 0)) == Parsed(Numbered(raws, 0), None)
  {
    ParseLog(raws, 0, []);
    assert Log(raws, 0) + [] == Log(raws, 0) && Numbered(raws, 0) + [] == Numbered(raws, 0);
  }

  lemma {:induction false} LongRefused(records: seq<Record>, i: nat)
    requires i < |records| && records[i].len > MAX_PAYLOAD
    ensures ReplayRecords(records).Err?
  {
    if i < |records| - 1 {
      LongRefused(records[..|records| - 1], i);
    }
  }

  // ---- Bare and framed records ---------------------------------------------------------------------------------

  /** Some of the records framed, the others bare. */
  function Mixed(raws: seq<Raw>, framed: seq<bool>): (m: seq<Raw>)
    requires |raws| == |framed|
    ensures |m| == |raws| && forall i :: 0 <= i < |m| ==> m[i] == if framed[i] then Framed(raws[i]) else raws[i]
  {
    if raws == [] then []
    else Mixed(raws[..|raws| - 1], framed[..|raws| - 1])
         + [if framed[|raws| - 1] then Framed(raws[|raws| - 1]) else raws[|raws| - 1]]
  }

  predicate BareOk(r: Raw) {
    r.kind != CHECKSUMMED && |r.payload| + 5 <= MAX_PAYLOAD
  }

  lemma FrameIsTransparent(r: Raw)
    requires BareOk(r)
    ensures Decode(Framed(r)) == Decode(r) && |Framed(r).payload| <= MAX_PAYLOAD
  {
    FrameRoundTrip(r);
  }

  /** Records that differ only in an acceptable length replay alike, errors included. */
  lemma {:induction false} LengthIrrelevant(a: seq<Record>, b: seq<Record>)
    requires |a| == |b|
    requires forall i :: 0 <= i < |a| ==> a[i] == b[i].(len := a[i].len) && a[i].len <= MAX_PAYLOAD && b[i].len <= MAX_PAYLOAD
    ensures ReplayRecords(a) == ReplayRecords(b)
  {
    if a != [] {
      LengthIrrelevant(a[..|a| - 1], b[..|b| - 1]);
    }
  }

  /** A log of any records, any of them framed, replays like the same log all bare. */
  lemma MixedReplaysAsBare(raws: seq<Raw>, framed: seq<bool>)
    requires |raws| == |framed| <= U64 && forall i :: 0 <= i < |raws| ==> BareOk(raws[i])
    ensures Replay(HEADER + Log(Mixed(raws, framed), 0)) == Replay(HEADER + Log(raws, 0))
  {
    var mixed := Mixed(raws, framed);
    forall i | 0 <= i < |raws|
      ensures Decode(mixed[i]) == Decode(raws[i]) && |mixed[i].payload| <= MAX_PAYLOAD
    {
      FrameIsTransparent(raws[i]);
    }
    MixedBy(Decode, mixed, raws);
  }

  lemma MixedBy(decode: Decoder, mixed: seq<Raw>, raws: seq<Raw>)
    requires |mixed| == |raws| <= U64
    requires forall i :: 0 <= i < |raws| ==> decode(mixed[i]) == decode(raws[i])
    requires forall i :: 0 <= i < |raws| ==> |mixed[i].payload| <= MAX_PAYLOAD && |raws[i].payload| <= MAX_PAYLOAD
    ensures ReplayBy(decode, HEADER + Log(mixed, 0)) == ReplayBy(decode, HEADER + Log(raws, 0))
  {
    WholeParse(mixed);
    WholeParse(raws);
    WholeHeader(Log(mixed, 0));
    WholeHeader(Log(raws, 0));
    LengthIrrelevant(Decoded(decode, Numbered(mixed, 0)), Decoded(decode, Numbered(raws, 0)));
  }

  lemma WholeHeader(data: seq<Byte>)
    ensures HeaderOk(HEADER + data) && (HEADER + data)[8..] == data
  {
    HeaderFits(data, 8 + |data|);
    assert (HEADER + data)[..8 + |data|] == HEADER + data && data[..|data|] == data;
  }

  // ---- A changed byte ------------------------------------------------------------------------------------------

  /** Changing one byte in the payload of any record of a written log makes replay refuse
      the whole log as corrupt. */
  lemma CorruptionDetected(events: seq<Event>, j: nat, i: nat, x: Byte)
    requires EventsOk(events) && AllBounded(events) && |events| <= U64
    requires j < |events| && i < |Frames(events)[j].payload| && x != Frames(events)[j].payload[i]
    ensures var raws := Frames(events);
            Replay(HEADER + Log(raws[j := raws[j].(payload := raws[j].payload[i := x])], 0)) == Err(Corrupt)
  {
    var raws := Frames(events);
    var bad := raws[j].(payload := raws[j].payload[i := x]);
    FramesDecode(events);
    FrameAt(events, j);
    FrameDetects(RawOf(events[j]), i, x);
    assert Decode(bad) == Err(Corrupt);
    CorruptBy(Decode, raws, AsReplayed(events), j, bad);
  }

  lemma CorruptBy(decode: Decoder, raws: seq<Raw>, events: seq<Event>, j: nat, bad: Raw)
    requires DecodesTo(decode, raws, events) && |raws| <= U64 && j < |raws|
    requires |bad.payload| == |raws[j].payload| && decode(bad) == Err(Corrupt)
    ensures ReplayBy(decode, HEADER + Log(raws[j := bad], 0)) == Err(Corrupt)
  {
    var changed := raws[j := bad];
    WholeParse(changed);
    WholeHeader(Log(changed, 0));
    CorruptRecord(Decoded(decode, Numbered(changed, 0)), events, j);
  }

  lemma RecordsSnoc(records: seq<Record>, j: nat, out: Replayed)
    requires j < |records| && ReplayRecords(records[..j]) == Ok(out)
    ensures ReplayRecords(records[..j + 1]) == Take(out, Expected(records[..j]), records[j])
  {
    assert records[..j + 1][..j] == records[..j];
  }

  lemma CorruptRecord(records: seq<Record>, events: seq<Event>, j: nat)
    requires j < |records| && j <= |events| && Clean(records[..j], events[..j])
    requires records[j].seqNo == j < U64 && records[j].len <= MAX_PAYLOAD && records[j].content == Err(Corrupt)
    ensures ReplayRecords(records) == Err(Corrupt)
  {
    CorruptLast(records, events[..j], j);
    CorruptStays(records[..j + 1], records[j + 1..], records);
  }

  lemma CorruptLast(records: seq<Record>, events: seq<Event>, j: nat)
    requires j < |records| && Clean(records[..j], events)
    requires records[j].seqNo == j < U64 && records[j].len <= MAX_PAYLOAD && records[j].content == Err(Corrupt)
    ensures ReplayRecords(records[..j + 1]) == Err(Corrupt)
  {
    CleanReplays(records[..j], events);
    RecordsSnoc(records, j, FoldAll(events));
  }

  lemma CorruptStays(a: seq<Record>, b: seq<Record>, all: seq<Record>)
    requires all == a + b && ReplayRecords(a) == Err(Corrupt)
    ensures ReplayRecords(all) == Err(Corrupt)
  {
    ErrorStays(a, b);
  }
}
