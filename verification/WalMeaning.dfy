/** What a replay says of the events in the log, each field on its own terms and not by the
    fold that computes it. */
module WalMeaning {
  import opened Basics
  import opened Bytes
  import opened WalRecords
  import opened WalReplay

  // ---- The log handed back ------------------------------------------------------------------------

  /** The entry is an event of the log under the number of its place, and no checkpoint. */
  predicate StandsIn(o: Ordered, events: seq<Event>) {
    0 <= o.seqNo < |events| && events[o.seqNo] == o.event && !o.event.Checkpointed?
  }

  predicate Rising(ordered: seq<Ordered>) {
    forall i, j :: 0 <= i < j < |ordered| ==> ordered[i].seqNo < ordered[j].seqNo
  }

  /** How many events are not checkpoints. */
  function Others(events: seq<Event>): nat {
    if events == [] then 0
    else Others(events[..|events| - 1]) + (if events[|events| - 1].Checkpointed? then 0 else 1)
  }

  /** Exactly the mutations and advances, each under its number, in the order of the log. */
  predicate OrderedMeans(ordered: seq<Ordered>, events: seq<Event>) {
    && (forall i :: 0 <= i < |ordered| ==> StandsIn(ordered[i], events))
    && (forall n :: 0 <= n < |events| && !events[n].Checkpointed? ==> Ordered(n, events[n]) in ordered)
    && Rising(ordered) && |ordered| == Others(events)
  }

  // ---- The high-water mark --------------------------------------------------------------------------

  predicate AtMost(e: Event, high: int) {
    match e
    case Mutated(m) => m.counter <= high
    case Advanced(to) => to <= high
    case Checkpointed(c) => c.lamportHigh <= high
  }

  predicate Bears(e: Event, high: int) {
    match e
    case Mutated(m) => m.counter == high
    case Advanced(to) => to == high
    case Checkpointed(c) => c.lamportHigh == high
  }

  /** The greatest counter, advance or watermark, or zero. */
  predicate HighOver(high: int, events: seq<Event>) {
    && 0 <= high && (forall i :: 0 <= i < |events| ==> AtMost(events[i], high))
    && (high == 0 || exists i :: 0 <= i < |events| && Bears(events[i], high))
  }

  // ---- The final checkpoint and its clock --------------------------------------------------------------

  /** Position `i` holds the last checkpoint. */
  predicate LastCheckpointAt(events: seq<Event>, i: int) {
    0 <= i < |events| && events[i].Checkpointed? && forall j :: i < j < |events| ==> !events[j].Checkpointed?
  }

  /** The final checkpoint is the one at `i`, field by field, under that number. Its clock is
      its own when that is credible, and otherwise the high-water mark of the log up to it. */
  predicate FinalIs(out: Replayed, events: seq<Event>, i: int)
    requires 0 <= i < |events| && events[i].Checkpointed?
  {
    var c, f := events[i].c, out.finalCheckpoint;
    && out.finalCheckpointSeq == i && (out.legacyCheckpoint <==> !c.hasFingerprint)
    && f.root == c.root && f.fingerprint == c.fingerprint && f.lamportHigh == c.lamportHigh && f.cutSeq == c.cutSeq
    && f.hasCutSeq == c.hasCutSeq && f.hasFingerprint == c.hasFingerprint
    && (if c.clockHigh <= MAX_CREDIBLE_CLOCK then f.clockHigh == c.clockHigh else HighOver(f.clockHigh, events[..i + 1]))
  }

  ghost predicate CheckpointMeans(out: Replayed, events: seq<Event>) {
    if out.hasCheckpoint then exists i :: LastCheckpointAt(events, i) && FinalIs(out, events, i)
    else
      && (forall i :: 0 <= i < |events| ==> !events[i].Checkpointed?)
      && out.finalCheckpoint == NO_CHECKPOINT && out.finalCheckpointSeq == 0 && !out.legacyCheckpoint
  }

  predicate Incredible(events: seq<Event>, i: int) {
    0 <= i < |events| && events[i].Checkpointed? && events[i].c.clockHigh > MAX_CREDIBLE_CLOCK
  }

  /** Whether some clock was incredible, and the greatest that was, or zero. */
  ghost predicate ClampMeans(out: Replayed, events: seq<Event>) {
    && (out.clockClamped <==> exists i :: Incredible(events, i))
    && (forall i :: Incredible(events, i) ==> events[i].c.clockHigh <= out.clockRaw)
    && (if out.clockClamped then exists i :: Incredible(events, i) && events[i].c.clockHigh == out.clockRaw
        else out.clockRaw == 0)
  }

  /** What a replay of the events is. */
  ghost predicate Means(out: Replayed, events: seq<Event>) {
    && out.records == |events| && out.nextSeq == |events| % U64
    && OrderedMeans(out.ordered, events)
    && HighOver(out.lamportHigh, events)
    && CheckpointMeans(out, events)
    && ClampMeans(out, events)
  }

  // ---- The fold has that meaning -------------------------------------------------------------------------

  lemma StandsMore(ordered: seq<Ordered>, events: seq<Event>, e: Event, i: nat)
    requires i < |ordered| && StandsIn(ordered[i], events)
    ensures StandsIn(ordered[i], events + [e]) && ordered[i].seqNo < |events|
  {
    assert (events + [e])[ordered[i].seqNo] == events[ordered[i].seqNo];
  }

  lemma OthersMore(events: seq<Event>, e: Event)
    ensures Others(events + [e]) == Others(events) + (if e.Checkpointed? then 0 else 1)
  {
    assert (events + [e])[..|events|] == events;
  }

  lemma HandedMore(ordered: seq<Ordered>, longer: seq<Ordered>, events: seq<Event>, e: Event, n: nat)
    requires OrderedMeans(ordered, events) && n <= |events| && !(events + [e])[n].Checkpointed?
    requires longer == if e.Checkpointed? then ordered else ordered + [Ordered(|events|, e)]
    ensures Ordered(n, (events + [e])[n]) in longer
  {
    if n < |events| {
      assert (events + [e])[n] == events[n] && Ordered(n, events[n]) in ordered;
    } else {
      assert longer[|ordered|] == Ordered(n, e);
    }
  }

  lemma OrderedMore(ordered: seq<Ordered>, events: seq<Event>, e: Event)
    requires OrderedMeans(ordered, events)
    ensures OrderedMeans(if e.Checkpointed? then ordered else ordered + [Ordered(|events|, e)], events + [e])
  {
    var more := events + [e];
    var longer := if e.Checkpointed? then ordered else ordered + [Ordered(|events|, e)];
    forall i | 0 <= i < |ordered| ensures StandsIn(ordered[i], more) && ordered[i].seqNo < |events| {
      StandsMore(ordered, events, e, i);
    }
    assert forall i :: 0 <= i < |longer| ==> StandsIn(longer[i], more) by {
      assert !e.Checkpointed? ==> StandsIn(Ordered(|events|, e), more);
    }
    forall n | 0 <= n < |more| && !more[n].Checkpointed? ensures Ordered(n, more[n]) in longer {
      HandedMore(ordered, longer, events, e, n);
    }
    OthersMore(events, e);
  }

  lemma LamportBears(e: Event, high: int)
    ensures (AtMost(e, high) <==> Lamport(e) <= high) && (Bears(e, high) <==> Lamport(e) == high)
  {
  }

  lemma HighMore(high: int, events: seq<Event>, e: Event)
    requires HighOver(high, events)
    ensures HighOver(Max(high, Lamport(e)), events + [e])
  {
    var more, top := events + [e], Max(high, Lamport(e));
    assert more[|events|] == e;
    forall i | 0 <= i < |more| ensures AtMost(more[i], top) {
      LamportBears(more[i], top);
      if i < |events| {
        LamportBears(events[i], high);
      }
    }
    if top != 0 {
      if Lamport(e) > high {
        LamportBears(e, top);
        assert Bears(more[|events|], top);
      } else {
        var i :| 0 <= i < |events| && Bears(events[i], high);
        assert more[i] == events[i];
      }
    }
  }

  lemma CheckpointMore(out: Replayed, events: seq<Event>, e: Event, next: Replayed)
    requires CheckpointMeans(out, events) && HighOver(out.lamportHigh, events) && next == Absorb(out, |events|, e)
    ensures CheckpointMeans(next, events + [e])
  {
    var more := events + [e];
    if e.Checkpointed? {
      HighMore(out.lamportHigh, events, e);
      assert more[..|events| + 1] == more && more[|events|] == e;
      assert LastCheckpointAt(more, |events|) && FinalIs(next, more, |events|);
    } else if out.hasCheckpoint {
      var i :| LastCheckpointAt(events, i) && FinalIs(out, events, i);
      assert more[..i + 1] == events[..i + 1] && more[i] == events[i];
      assert LastCheckpointAt(more, i) && FinalIs(next, more, i);
    }
  }

  lemma IncredibleMore(events: seq<Event>, e: Event, i: int)
    ensures Incredible(events + [e], i)
       <==> Incredible(events, i) || (i == |events| && e.Checkpointed? && e.c.clockHigh > MAX_CREDIBLE_CLOCK)
  {
  }

  lemma ClampMore(out: Replayed, events: seq<Event>, e: Event, next: Replayed)
    requires ClampMeans(out, events) && next == Absorb(out, |events|, e)
    ensures ClampMeans(next, events + [e])
  {
    var more := events + [e];
    forall i ensures Incredible(more, i)
                <==> Incredible(events, i) || (i == |events| && e.Checkpointed? && e.c.clockHigh > MAX_CREDIBLE_CLOCK) {
      IncredibleMore(events, e, i);
    }
    if out.clockClamped {
      var i :| Incredible(events, i) && events[i].c.clockHigh == out.clockRaw;
      assert Incredible(more, i) && more[i] == events[i];
    }
    if e.Checkpointed? && e.c.clockHigh > MAX_CREDIBLE_CLOCK {
      assert Incredible(more, |events|) && more[|events|] == e;
    }
  }

  lemma AbsorbMeans(out: Replayed, events: seq<Event>, e: Event)
    requires Means(out, events) && |events| < U64
    ensures Means(Absorb(out, |events|, e), events + [e])
  {
    var next, more := Absorb(out, |events|, e), events + [e];
    AbsorbFields(out, |events|, e, next);
    assert OrderedMeans(next.ordered, more) by { OrderedMore(out.ordered, events, e); }
    assert HighOver(next.lamportHigh, more) by { HighMore(out.lamportHigh, events, e); }
    assert CheckpointMeans(next, more) by { CheckpointMore(out, events, e, next); }
    assert ClampMeans(next, more) by { ClampMore(out, events, e, next); }
  }

  lemma AbsorbFields(out: Replayed, n: nat, e: Event, next: Replayed)
    requires next == Absorb(out, n, e) && out.nextSeq == n % U64 && n < U64
    ensures next.records == out.records + 1 && next.nextSeq == (n + 1) % U64
    ensures next.ordered == (if e.Checkpointed? then out.ordered else out.ordered + [Ordered(n, e)])
    ensures next.lamportHigh == Max(out.lamportHigh, Lamport(e))
  {
  }

  lemma {:induction false} FoldMeans(events: seq<Event>)
    requires |events| <= U64
    ensures Means(FoldAll(events), events)
  {
    if events == [] {
      EmptyMeans();
    } else {
      var init, last := events[..|events| - 1], events[|events| - 1];
      FoldMeans(init);
      MeansNext(FoldAll(init), init, last, events, FoldAll(events));
    }
  }

  lemma EmptyMeans()
    ensures Means(EMPTY, [])
  {
  }

  lemma MeansNext(out: Replayed, init: seq<Event>, e: Event, events: seq<Event>, next: Replayed)
    requires Means(out, init) && |init| < U64 && events == init + [e] && next == Absorb(out, |init|, e)
    ensures Means(next, events)
  {
    AbsorbMeans(out, init, e);
  }

  // ---- The meaning leaves no choice -----------------------------------------------------------------------

  /** Two rising lists with the same members are equal. */
  lemma {:induction false} RisingUnique(a: seq<Ordered>, b: seq<Ordered>)
    requires Rising(a) && Rising(b) && forall o :: o in a <==> o in b
    ensures a == b
  {
    if |a| > 0 || |b| > 0 {
      assert |a| > 0 ==> a[0] in a;
      assert |b| > 0 ==> b[0] in b;
      var m, n := |a| - 1, |b| - 1;
      assert a[m] in b && b[n] in a;
      assert a[m] == b[n];
      forall o ensures o in a[..m] <==> o in b[..n] {
        assert o in a[..m] <==> o in a && o != a[m];
        assert o in b[..n] <==> o in b && o != b[n];
      }
      RisingUnique(a[..m], b[..n]);
      assert a == a[..m] + [a[m]] && b == b[..n] + [b[n]];
    }
  }

  lemma OrderedUnique(a: seq<Ordered>, b: seq<Ordered>, events: seq<Event>)
    requires OrderedMeans(a, events) && OrderedMeans(b, events)
    ensures a == b
  {
    forall o ensures o in a <==> o in b {
      OrderedIff(a, events, o);
      OrderedIff(b, events, o);
    }
    RisingUnique(a, b);
  }

  /** An entry is handed back exactly when it is a mutation or an advance of the log under its
      own number. */
  lemma OrderedIff(ordered: seq<Ordered>, events: seq<Event>, o: Ordered)
    requires OrderedMeans(ordered, events)
    ensures o in ordered <==> StandsIn(o, events)
  {
    if o in ordered {
      var i :| 0 <= i < |ordered| && ordered[i] == o;
      assert StandsIn(ordered[i], events);
    }
    if StandsIn(o, events) {
      assert Ordered(o.seqNo, events[o.seqNo]) in ordered;
    }
  }

  lemma HighUnique(a: int, b: int, events: seq<Event>)
    requires HighOver(a, events) && HighOver(b, events)
    ensures a <= b
  {
    if a != 0 {
      var i :| 0 <= i < |events| && Bears(events[i], a);
      assert AtMost(events[i], b);
    }
  }

  lemma CheckpointUnique(a: Replayed, b: Replayed, events: seq<Event>)
    requires CheckpointMeans(a, events) && CheckpointMeans(b, events)
    ensures a.hasCheckpoint == b.hasCheckpoint && a.finalCheckpoint == b.finalCheckpoint
    ensures a.finalCheckpointSeq == b.finalCheckpointSeq && a.legacyCheckpoint == b.legacyCheckpoint
  {
    if a.hasCheckpoint && b.hasCheckpoint {
      var i :| LastCheckpointAt(events, i) && FinalIs(a, events, i);
      var j :| LastCheckpointAt(events, j) && FinalIs(b, events, j);
      assert i == j;
      if events[i].c.clockHigh > MAX_CREDIBLE_CLOCK {
        HighUnique(a.finalCheckpoint.clockHigh, b.finalCheckpoint.clockHigh, events[..i + 1]);
        HighUnique(b.finalCheckpoint.clockHigh, a.finalCheckpoint.clockHigh, events[..i + 1]);
      }
    }
  }

  lemma ClampUnique(a: Replayed, b: Replayed, events: seq<Event>)
    requires ClampMeans(a, events) && ClampMeans(b, events)
    ensures a.clockClamped == b.clockClamped && a.clockRaw == b.clockRaw
  {
    if a.clockClamped {
      var i :| Incredible(events, i) && events[i].c.clockHigh == a.clockRaw;
      var j :| Incredible(events, j) && events[j].c.clockHigh == b.clockRaw;
    }
  }

  lemma MeansUnique(a: Replayed, b: Replayed, events: seq<Event>)
    requires Means(a, events) && Means(b, events)
    ensures a == b
  {
    OrderedUnique(a.ordered, b.ordered, events);
    HighUnique(a.lamportHigh, b.lamportHigh, events);
    HighUnique(b.lamportHigh, a.lamportHigh, events);
    CheckpointUnique(a, b, events);
    ClampUnique(a, b, events);
  }

  /** The final clock is credible or at most the high-water mark. */
  lemma ClockCredible(out: Replayed, events: seq<Event>)
    requires Means(out, events)
    ensures out.finalCheckpoint.clockHigh <= Max(MAX_CREDIBLE_CLOCK, out.lamportHigh)
  {
    if out.hasCheckpoint {
      var i :| LastCheckpointAt(events, i) && FinalIs(out, events, i);
      var clock := out.finalCheckpoint.clockHigh;
      if clock > MAX_CREDIBLE_CLOCK {
        var j :| 0 <= j < i + 1 && Bears(events[..i + 1][j], clock);
        assert events[..i + 1][j] == events[j] && AtMost(events[j], out.lamportHigh);
      }
    }
  }

  // ---- Accepted logs ------------------------------------------------------------------------------------------

  /** Record `i` carries number `i` and decodes to event `i`. */
  predicate Carries(records: seq<Record>, events: seq<Event>) {
    |records| == |events| && forall i :: 0 <= i < |records| ==> records[i].seqNo == i && records[i].content == Ok(events[i])
  }

  lemma {:induction false} AcceptedFolds(records: seq<Record>) returns (events: seq<Event>)
    requires ReplayRecords(records).Ok? && |records| <= U64
    ensures Carries(records, events) && ReplayRecords(records) == Ok(FoldAll(events))
  {
    if records == [] {
      events := [];
    } else {
      var n := |records| - 1;
      LastSeq(records);
      var before := AcceptedFolds(records[..n]);
      events := before + [records[n].content.value];
      assert events[..n] == before;
      assert forall i :: 0 <= i < n ==> records[..n][i] == records[i];
      SeqIsPosition(records, n);
    }
  }

  /** Of any log that replay accepts, record `i` carries number `i` and decodes to an event, and
      the result is what those events mean. */
  lemma AcceptedLog(records: seq<Record>) returns (events: seq<Event>)
    requires ReplayRecords(records).Ok? && |records| <= U64
    ensures Carries(records, events) && Means(ReplayRecords(records).value, events)
  {
    events := AcceptedFolds(records);
    FoldMeans(events);
  }

  lemma AcceptedBy(decode: Decoder, file: seq<Byte>) returns (events: seq<Event>)
    requires ReplayBy(decode, file).Ok? && |Parse(file[8..]).pieces| <= U64
    ensures var ps := Parse(file[8..]).pieces;
            && |events| == |ps| && Means(ReplayBy(decode, file).value, events)
            && forall i :: 0 <= i < |ps| ==> ps[i].seqNo == i && decode(ps[i].raw) == Ok(events[i])
  {
    var ps := Parse(file[8..]).pieces;
    events := AcceptedLog(Decoded(decode, ps));
    forall i | 0 <= i < |ps| ensures ps[i].seqNo == i && decode(ps[i].raw) == Ok(events[i]) {
      assert Decoded(decode, ps)[i] == RecordOf(decode, ps[i]);
    }
  }

  /** Of any file that replay accepts: its whole records carry the numbers of their places, each
      decodes, and the result is what the events mean. */
  lemma AcceptedFile(file: seq<Byte>) returns (events: seq<Event>)
    requires Replay(file).Ok? && |Parse(file[8..]).pieces| <= U64
    ensures var ps := Parse(file[8..]).pieces;
            && |events| == |ps| && Means(Replay(file).value, events)
            && forall i :: 0 <= i < |ps| ==> ps[i].seqNo == i && Decode(ps[i].raw) == Ok(events[i])
  {
    events := AcceptedBy(Decode, file);
  }

  // ---- Refused logs --------------------------------------------------------------------------------------------

  /** Why the header of record `i` is refused: its length is looked at first, then its number. */
  predicate HeaderRefused(seqNo: int, len: int, i: nat, why: Error) {
    if len > MAX_PAYLOAD then why == TooLong else seqNo != i && why == SeqGap
  }

  /** Record `i` is the first at fault: its header, or else what it holds. */
  predicate RecordRefused(records: seq<Record>, i: nat, why: Error)
    requires i < |records|
  {
    var r := records[i];
    || HeaderRefused(r.seqNo, r.len, i, why)
    || (r.len <= MAX_PAYLOAD && r.seqNo == i && r.content == Err(why))
  }

  lemma {:induction false} RefusedRecords(records: seq<Record>) returns (i: nat)
    requires ReplayRecords(records).Err? && |records| <= U64
    ensures i < |records| && ReplayRecords(records[..i]).Ok? && RecordRefused(records, i, ReplayRecords(records).error)
  {
    var n := |records| - 1;
    if ReplayRecords(records[..n]).Err? {
      i := RefusedRecords(records[..n]);
      assert records[..n][..i] == records[..i];
    } else {
      i := n;
      NextNumber(records[..n]);
    }
  }

  lemma NextNumber(records: seq<Record>)
    requires ReplayRecords(records).Ok? && |records| < U64
    ensures Expected(records) == |records|
  {
    if records != [] {
      SeqIsPosition(records, |records| - 1);
    }
  }

  /** Replay refuses a file without the header, and otherwise for its first record at fault, whole
      or torn: a torn one only for its header. */
  lemma RefusedFile(file: seq<Byte>) returns (i: nat)
    requires Replay(file).Err? && (|file| >= 8 ==> |Parse(file[8..]).pieces| < U64)
    ensures !HeaderOk(file) ==> Replay(file).error == BadHeader
    ensures HeaderOk(file) ==>
              var p := Parse(file[8..]);
              var records := Decoded(Decode, p.pieces);
              if i < |records| then ReplayRecords(records[..i]).Ok? && RecordRefused(records, i, Replay(file).error)
              else i == |records| && ReplayRecords(records).Ok? && p.torn.Some?
                   && HeaderRefused(p.torn.value.seqNo, p.torn.value.len, i, Replay(file).error)
  {
    i := 0;
    if HeaderOk(file) {
      i := RefusedParsed(Decoded(Decode, Parse(file[8..]).pieces), Parse(file[8..]).torn);
    }
  }

  lemma RefusedParsed(records: seq<Record>, torn: Option<Head>) returns (i: nat)
    requires ReplayParsed(records, torn).Err? && |records| < U64
    ensures var why := ReplayParsed(records, torn).error;
            if i < |records| then ReplayRecords(records[..i]).Ok? && RecordRefused(records, i, why)
            else i == |records| && ReplayRecords(records).Ok? && torn.Some?
                 && HeaderRefused(torn.value.seqNo, torn.value.len, i, why)
  {
    if ReplayRecords(records).Err? {
      i := RefusedRecords(records);
    } else {
      i := |records|;
      NextNumber(records);
    }
  }
}
