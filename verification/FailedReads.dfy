/** Compactions whose reads may fail. A job then merges a part of what it listed, and its
    manifest still names all of it: an upload does no harm exactly when what it overwrites
    and what it did not read is covered in L1. */
module FailedReads {
  import opened Basics
  import opened Rows
  import opened Pruning
  import opened Merging
  import opened Store
  import opened StoreInvariant
  import opened StoreSafety

  // ---- The condition on an upload -----------------------------------------------------------

  predicate NamedIn(f: File, keys: seq<int>) {
    f != [] && FirstSys(f) in keys
  }

  /** Every row of a listed file that the job does not hold is covered. */
  ghost predicate UnreadCovered(s: State, l1: map<int, File>)
    requires s.job.Reading?
  {
    forall i, x :: 0 <= i < |s.hist| && NamedIn(s.hist[i], s.job.listed) && x in s.hist[i] && x !in s.job.rows ==>
                     Covered(x, l1, s.horizon)
  }

  /** With the merge in place, L1 covers the rows of the object it overwrites and the rows
      that the job listed and did not read. */
  ghost predicate Replaces(s: State, out: File)
    requires s.job.Reading? && out != []
  {
    var k := FirstSys(out);
    && (k in s.l1 ==> FileCovered(s.l1[k], s.l1[k := out], s.horizon))
    && UnreadCovered(s, s.l1[k := out])
  }

  ghost predicate Harmless(s: State, prune: bool)
    requires Enabled(s, UploadL1(prune))
  {
    var out := Merged(s.job.rows, prune, s.horizon);
    out != [] ==> Replaces(s, out)
  }

  // ---- The invariant ------------------------------------------------------------------------

  ghost predicate Among(hist: seq<File>, a: int, b: int, x: Row) {
    exists i :: 0 <= a <= i < b && i < |hist| && x in hist[i]
  }

  /** The L1 object `k` starts at its least row and draws on the first `n` files. */
  ghost predicate Drawn(k: int, f: File, hist: seq<File>, n: int) {
    f != [] && FirstSys(f) == k && forall x :: x in f ==> k <= x.sysT && Among(hist, 0, n, x)
  }

  ghost predicate L1Drawn(l1: map<int, File>, hist: seq<File>, n: int) {
    forall k :: k in l1 ==> Drawn(k, l1[k], hist, n)
  }

  /** The job listed the files from `a` on and has tried to read the first `next`. */
  ghost predicate Tried(s: State, listed: seq<int>, next: nat, rows: seq<Row>, a: int) {
    && listed != [] && Segment(listed, s.hist, a) && next <= |listed|
    && (forall x :: x in rows ==> Among(s.hist, a, a + next, x))
    && L1Drawn(s.l1, s.hist, a + |listed|)
  }

  ghost predicate PartJobOk(s: State, lo: int) {
    match s.job
    case NoJob => true
    case Reading(listed, next, rows) => exists a :: a <= lo && Tried(s, listed, next, rows, a)
    case Uploaded(listed, _) => ManifestOk(Manifest(0, listed), s, lo)
  }

  ghost predicate ManifestsOk(s: State, lo: int) {
    forall mk :: mk in s.manifests ==> ManifestOk(s.manifests[mk], s, lo)
  }

  ghost predicate PartInvAt(s: State, lo: int) {
    && HistOk(s.hist, s.eid, s.width)
    && L0Suffix(s.l0, s.hist, lo)
    && RangeCovered(s.hist, 0, lo, s.l1, s.horizon)
    && L1Drawn(s.l1, s.hist, |s.hist|)
    && ManifestsOk(s, lo)
    && PartJobOk(s, lo)
    && ReapOk(s, lo)
  }

  ghost predicate PartInv(s: State) {
    exists lo :: PartInvAt(s, lo)
  }

  /** No read of the current job has failed: it holds all rows of the files it has tried. */
  ghost predicate AllRead(s: State) {
    s.job.Reading? && s.job.next <= |s.job.listed| ==>
      forall i, x :: 0 <= i < |s.hist| && NamedIn(s.hist[i], s.job.listed[..s.job.next]) && x in s.hist[i] ==> x in s.job.rows
  }

  // ---- Steps that leave L1 alone ------------------------------------------------------------

  lemma AmongMore(hist: seq<File>, hist': seq<File>, a: int, b: int, b': int, x: Row)
    requires Among(hist, a, b, x) && hist <= hist' && b <= b'
    ensures Among(hist', a, b', x)
  {
    var i :| 0 <= a <= i < b && i < |hist| && x in hist[i];
    assert hist'[i] == hist[i];
  }

  lemma DrawnMore(l1: map<int, File>, hist: seq<File>, hist': seq<File>, n: int, n': int)
    requires L1Drawn(l1, hist, n) && hist <= hist' && n <= n'
    ensures L1Drawn(l1, hist', n')
  {
    forall k, x | k in l1 && x in l1[k] ensures Among(hist', 0, n', x) {
      assert Drawn(k, l1[k], hist, n);
      AmongMore(hist, hist', 0, n, n', x);
    }
    assert forall k :: k in l1 ==> Drawn(k, l1[k], hist, n);
  }

  lemma PartJobCarries(s: State, t: State, lo: int, lo': int)
    requires Extends(s, t) && lo <= lo' && PartJobOk(s, lo) && t.job == s.job && t.l1 == s.l1
    ensures PartJobOk(t, lo')
  {
    match s.job
    case NoJob =>
    case Uploaded(listed, _) => ManifestCarries(Manifest(0, listed), s, t, lo, lo');
    case Reading(listed, next, rows) =>
      var a :| a <= lo && Tried(s, listed, next, rows, a);
      TriedCarries(s, t, listed, next, rows, a);
  }

  lemma TriedCarries(s: State, t: State, listed: seq<int>, next: nat, rows: seq<Row>, a: int)
    requires Tried(s, listed, next, rows, a) && s.hist <= t.hist && t.l1 == s.l1
    ensures Tried(t, listed, next, rows, a)
  {
    SegmentCarries(listed, s.hist, t.hist, a);
    DrawnMore(s.l1, s.hist, t.hist, a + |listed|, a + |listed|);
    forall x | x in rows ensures Among(t.hist, a, a + next, x) {
      AmongMore(s.hist, t.hist, a, a + next, a + next, x);
    }
  }

  lemma ManifestsCarry(s: State, t: State, lo: int, lo': int)
    requires Extends(s, t) && lo <= lo' && ManifestsOk(s, lo)
    requires forall mk :: mk in t.manifests ==> mk in s.manifests && t.manifests[mk] == s.manifests[mk]
    ensures ManifestsOk(t, lo')
  {
    forall mk | mk in t.manifests ensures ManifestOk(t.manifests[mk], t, lo') {
      ManifestCarries(s.manifests[mk], s, t, lo, lo');
    }
  }

  lemma PartRest(s: State, t: State, lo: int, lo': int)
    requires PartInvAt(s, lo) && s.hist <= t.hist && t.l1 == s.l1 && s.horizon <= t.horizon && lo <= lo'
    requires forall mk :: mk in t.manifests ==> mk in s.manifests && t.manifests[mk] == s.manifests[mk]
    ensures Extends(s, t) && ManifestsOk(t, lo')
    ensures RangeCovered(t.hist, 0, lo, t.l1, t.horizon) && L1Drawn(t.l1, t.hist, |t.hist|)
  {
    L1Unchanged(s, t);
    ManifestsCarry(s, t, lo, lo');
    RangeExtends(s, t, 0, lo);
    DrawnMore(s.l1, s.hist, t.hist, |s.hist|, |t.hist|);
  }

  lemma GrowKeeps(s: State, lo: int, t: State)
    requires PartInvAt(s, lo) && s.hist <= t.hist && t.l1 == s.l1 && s.horizon <= t.horizon
    requires t.job == s.job && t.reap == s.reap && t.manifests == s.manifests
    requires HistOk(t.hist, t.eid, t.width) && L0Suffix(t.l0, t.hist, lo)
    ensures PartInvAt(t, lo)
  {
    PartRest(s, t, lo, lo);
    PartJobCarries(s, t, lo, lo);
    ReapCarries(s, t, lo, lo);
  }

  lemma FlushKeepsPart(s: State, lo: int, f: File)
    requires PartInvAt(s, lo) && Enabled(s, Flush(f))
    ensures PartInvAt(Apply(s, Flush(f)), lo)
  {
    SuffixGrows(s.l0, s.hist, lo, f);
    HistGrows(s.hist, s.eid, s.width, f);
    GrowKeeps(s, lo, Apply(s, Flush(f)));
  }

  /** The job changes, and nothing else does. */
  lemma JobKeepsPart(s: State, lo: int, t: State)
    requires PartInvAt(s, lo) && t == s.(job := t.job) && PartJobOk(t, lo)
    ensures PartInvAt(t, lo)
  {
    PartRest(s, t, lo, lo);
    ReapCarries(s, t, lo, lo);
  }

  lemma ListKeepsPart(s: State, lo: int, listed: seq<int>)
    requires PartInvAt(s, lo) && Enabled(s, ListL0(listed))
    ensures PartInvAt(Apply(s, ListL0(listed)), lo)
  {
    var t := Apply(s, ListL0(listed));
    ListingIsSegment(s, lo, listed);
    assert Tried(t, listed, 0, [], lo);
    JobKeepsPart(s, lo, t);
  }

  /** What a read adds are the rows of the next listed file. */
  lemma ReadAdds(s: State, lo: int, i: int)
    requires HistOk(s.hist, s.eid, s.width) && L0Suffix(s.l0, s.hist, lo) && Enabled(s, Read)
    requires 0 <= i < |s.hist| && s.hist[i] != [] && FirstSys(s.hist[i]) == s.job.listed[s.job.next]
    ensures Apply(s, Read).job == Reading(s.job.listed, s.job.next + 1, s.job.rows + s.hist[i])
  {
    var f := s.hist[i];
    NamedFile(s, lo, i, s.job.listed[s.job.next]);
    assert Extract(f, s.eid) == f by {
      assert FileOk(f, s.eid, s.width);
      ExtractAll(f, s.eid);
    }
    ReadApplied(s, f);
  }

  lemma ReadApplied(s: State, f: File)
    requires Enabled(s, Read) && s.l0[s.job.listed[s.job.next]] == f && Extract(f, s.eid) == f
    ensures Apply(s, Read).job == Reading(s.job.listed, s.job.next + 1, s.job.rows + f)
  {
  }

  /** A read that succeeds adds rows of the next file, one that fails adds none. */
  lemma TriedNext(s: State, listed: seq<int>, next: nat, rows: seq<Row>, a: int, more: seq<Row>)
    requires Tried(s, listed, next, rows, a) && next < |listed| && (more == [] || more == s.hist[a + next])
    ensures Tried(s.(job := Reading(listed, next + 1, rows + more)), listed, next + 1, rows + more, a)
  {
    forall x | x in rows + more ensures Among(s.hist, a, a + next + 1, x) {
      if x in rows {
        AmongMore(s.hist, s.hist, a, a + next, a + next + 1, x);
      } else {
        assert x in s.hist[a + next];
      }
    }
  }

  lemma ReadKeepsPart(s: State, lo: int)
    requires PartInvAt(s, lo) && Enabled(s, Read)
    ensures PartInvAt(Apply(s, Read), lo)
  {
    var listed, next, rows := s.job.listed, s.job.next, s.job.rows;
    var a :| a <= lo && Tried(s, listed, next, rows, a);
    ReadAdds(s, lo, a + next);
    TriedNext(s, listed, next, rows, a, s.hist[a + next]);
    JobKeepsPart(s, lo, Apply(s, Read));
  }

  lemma ReadFailsKeepsPart(s: State, lo: int)
    requires PartInvAt(s, lo) && Enabled(s, ReadFails)
    ensures PartInvAt(Apply(s, ReadFails), lo)
  {
    var listed, next, rows := s.job.listed, s.job.next, s.job.rows;
    var a :| a <= lo && Tried(s, listed, next, rows, a);
    TriedNext(s, listed, next, rows, a, []);
    assert rows + [] == rows;
    JobKeepsPart(s, lo, Apply(s, ReadFails));
  }

  lemma ManifestKeepsPart(s: State, lo: int)
    requires PartInvAt(s, lo) && Enabled(s, UploadManifest)
    ensures PartInvAt(Apply(s, UploadManifest), lo)
  {
    var t := Apply(s, UploadManifest);
    var u := s.(job := NoJob);
    JobKeepsPart(s, lo, u);
    var a :| a <= lo && Segment(s.job.listed, s.hist, a)
             && RangeCovered(s.hist, a, a + |s.job.listed|, s.l1, s.horizon);
    assert ManifestOk(t.manifests[s.job.l1Key], t, lo);
    forall mk | mk in t.manifests ensures ManifestOk(t.manifests[mk], t, lo) {
      if mk != s.job.l1Key {
        L1Unchanged(u, t);
        ManifestCarries(u.manifests[mk], u, t, lo, lo);
      }
    }
    L1Unchanged(u, t);
    ReapCarries(u, t, lo, lo);
  }

  lemma ReapKeepsPart(s: State, lo: int, t: State)
    requires PartInvAt(s, lo) && ReapOk(t, lo) && t == s.(reap := t.reap, manifests := t.manifests)
    requires forall mk :: mk in t.manifests ==> mk in s.manifests && t.manifests[mk] == s.manifests[mk]
    ensures PartInvAt(t, lo)
  {
    PartRest(s, t, lo, lo);
    PartJobCarries(s, t, lo, lo);
  }

  lemma PickKeepsPart(s: State, lo: int, mk: int)
    requires PartInvAt(s, lo) && Enabled(s, PickManifest(mk))
    ensures PartInvAt(Apply(s, PickManifest(mk)), lo)
  {
    var m := s.manifests[mk];
    assert ManifestOk(m, s, lo);
    var a :| a <= lo && Segment(m.l0Keys, s.hist, a) && RangeCovered(s.hist, a, a + |m.l0Keys|, s.l1, s.horizon);
    ReapKeepsPart(s, lo, Apply(s, PickManifest(mk)));
  }

  lemma DeleteKeepsPart(s: State, lo: int) returns (lo': int)
    requires PartInvAt(s, lo) && Enabled(s, DeleteL0)
    ensures PartInvAt(Apply(s, DeleteL0), lo')
  {
    var a :| a + s.reap.next <= lo && Segment(s.reap.l0Keys, s.hist, a)
             && RangeCovered(s.hist, a, a + |s.reap.l0Keys|, s.l1, s.horizon);
    lo' := DeletedSuffix(s, lo, a);
    var t := Apply(s, DeleteL0);
    PartRest(s, t, lo, lo');
    PartJobCarries(s, t, lo, lo');
  }

  // ---- The upload ---------------------------------------------------------------------------

  lemma SortedRows(rows: seq<Row>, sorted: seq<Row>)
    requires sorted == StableSort(rows) && forall x :: x in rows ==> x.sysT > 0
    ensures SysAscending(sorted) && forall x :: x in sorted <==> x in rows
  {
    StableSortSorts(rows);
    forall x ensures x in sorted <==> x in rows {
      assert x in multiset(sorted) <==> x in multiset(rows);
    }
    KeySortedSysAscending(sorted);
  }

  lemma FirstOfAscending(out: File, x: Row)
    requires SysAscending(out) && x in out
    ensures FirstSys(out) <= x.sysT
  {
    var p :| 0 <= p < |out| && out[p] == x;
    assert p > 0 ==> out[0].sysT <= out[p].sysT;
  }

  /** A merge starts at its least row, draws on the rows it was given and covers them all. */
  lemma MergedOf(s: State, rows: seq<Row>, prune: bool, out: File, x: Row)
    requires out == Merged(rows, prune, s.horizon) && forall y :: y in rows ==> y.sysT > 0
    ensures x in rows ==> CoveredBy(x, out, s.horizon)
    ensures x in out ==> x in rows && FirstSys(out) <= x.sysT
  {
    var sorted, h := StableSort(rows), PruneHorizon(prune, s.horizon);
    SortedRows(rows, sorted);
    PrunedOf(sorted, h, s.horizon, out, x);
  }

  lemma PrunedOf(sorted: seq<Row>, h: int, horizon: int, out: File, x: Row)
    requires SysAscending(sorted) && out == Pruned(sorted, h) && (h <= 0 || h == horizon)
    ensures x in sorted ==> CoveredBy(x, out, horizon)
    ensures x in out ==> x in sorted && FirstSys(out) <= x.sysT
  {
    if x in sorted {
      MergeCovers(sorted, h, horizon, x);
    }
    if x in out {
      var at := PrunedSubsequence(sorted, h);
      PrunedSysAscending(sorted, h);
      FirstOfAscending(out, x);
    }
  }

  lemma RowPositive(hist: seq<File>, eid: seq<int>, width: nat, a: int, b: int, x: Row)
    requires HistOk(hist, eid, width) && Among(hist, a, b, x)
    ensures x.sysT > 0
  {
    var i :| 0 <= a <= i < b && i < |hist| && x in hist[i];
    assert FileOk(hist[i], eid, width);
  }

  lemma TriedPositive(s: State, listed: seq<int>, next: nat, rows: seq<Row>, a: int)
    requires HistOk(s.hist, s.eid, s.width) && Tried(s, listed, next, rows, a)
    ensures forall x :: x in rows ==> x.sysT > 0
  {
    forall x | x in rows ensures x.sysT > 0 {
      RowPositive(s.hist, s.eid, s.width, a, a + next, x);
    }
  }

  lemma ListedName(s: State, listed: seq<int>, a: int, i: int)
    requires HistOk(s.hist, s.eid, s.width) && Segment(listed, s.hist, a) && 0 <= i < |s.hist|
    ensures NamedIn(s.hist[i], listed) <==> a <= i < a + |listed|
  {
    if a <= i < a + |listed| {
      assert listed[i - a] == FirstSys(s.hist[i]);
    }
    if NamedIn(s.hist[i], listed) {
      var p :| 0 <= p < |listed| && listed[p] == FirstSys(s.hist[i]);
      assert s.hist[a + p] != [] && listed[a + p - a] == FirstSys(s.hist[a + p]);
      KeyOrder(s, i, a + p);
    }
  }

  /** Harmless means that after the upload L1 covers the whole listing. */
  lemma ListingCovered(s: State, prune: bool, out: File, a: int, t: State)
    requires HistOk(s.hist, s.eid, s.width) && Enabled(s, UploadL1(prune)) && out == Merged(s.job.rows, prune, s.horizon)
    requires out != [] && Tried(s, s.job.listed, s.job.next, s.job.rows, a) && Replaces(s, out)
    requires t == s.(l1 := s.l1[FirstSys(out) := out], job := t.job)
    ensures RangeCovered(t.hist, a, a + |s.job.listed|, t.l1, t.horizon)
  {
    TriedPositive(s, s.job.listed, s.job.next, s.job.rows, a);
    forall i, x | a <= i < a + |s.job.listed| && x in t.hist[i] ensures Covered(x, t.l1, t.horizon) {
      if x in s.job.rows {
        MergedOf(s, s.job.rows, prune, out, x);
        assert CoveredBy(x, t.l1[FirstSys(out)], t.horizon);
      } else {
        ListedName(s, s.job.listed, a, i);
      }
    }
  }

  lemma ReplacedCovered(s: State, out: File, t: State)
    requires s.job.Reading? && out != [] && Replaces(s, out) && t == s.(l1 := s.l1[FirstSys(out) := out], job := t.job)
    ensures Extends(s, t)
  {
    forall k, y | k in s.l1 && y in s.l1[k] ensures Covered(y, t.l1, t.horizon) {
      if k != FirstSys(out) {
        assert CoveredBy(y, t.l1[k], t.horizon);
      }
    }
  }

  lemma UploadDrawn(s: State, prune: bool, out: File, a: int, n: int)
    requires HistOk(s.hist, s.eid, s.width) && Enabled(s, UploadL1(prune)) && out == Merged(s.job.rows, prune, s.horizon)
    requires out != [] && Tried(s, s.job.listed, s.job.next, s.job.rows, a) && a + |s.job.listed| <= n
    ensures Drawn(FirstSys(out), out, s.hist, n)
  {
    TriedPositive(s, s.job.listed, s.job.next, s.job.rows, a);
    forall x | x in out ensures FirstSys(out) <= x.sysT && Among(s.hist, 0, n, x) {
      MergedOf(s, s.job.rows, prune, out, x);
      assert Among(s.hist, a, a + s.job.next, x);
      var i :| 0 <= a <= i < a + s.job.next && i < |s.hist| && x in s.hist[i];
      assert 0 <= i < n;
    }
  }

  lemma UploadKeepsPart(s: State, lo: int, prune: bool)
    requires PartInvAt(s, lo) && Enabled(s, UploadL1(prune)) && Harmless(s, prune)
    ensures PartInvAt(Apply(s, UploadL1(prune)), lo)
  {
    var t, out := Apply(s, UploadL1(prune)), Merged(s.job.rows, prune, s.horizon);
    if out == [] {
      JobKeepsPart(s, lo, t);
    } else {
      UploadApplied(s, prune, out);
      var a :| a <= lo && Tried(s, s.job.listed, s.job.next, s.job.rows, a);
      HarmlessUpload(s, lo, prune, out, a, t);
    }
  }

  lemma HarmlessUpload(s: State, lo: int, prune: bool, out: File, a: int, t: State)
    requires PartInvAt(s, lo) && Enabled(s, UploadL1(prune)) && out == Merged(s.job.rows, prune, s.horizon) && out != []
    requires a <= lo && Tried(s, s.job.listed, s.job.next, s.job.rows, a) && Replaces(s, out)
    requires t == s.(l1 := s.l1[FirstSys(out) := out], job := Uploaded(s.job.listed, FirstSys(out)))
    ensures PartInvAt(t, lo)
  {
    ListingCovered(s, prune, out, a, t);
    assert ManifestOk(Manifest(0, s.job.listed), t, lo);
    ReplacedCovered(s, out, t);
    ManifestsCarry(s, t, lo, lo);
    RangeExtends(s, t, 0, lo);
    ReapCarries(s, t, lo, lo);
    UploadDrawn(s, prune, out, a, |s.hist|);
    forall k | k in t.l1 ensures Drawn(k, t.l1[k], t.hist, |t.hist|) {
      assert k != FirstSys(out) ==> Drawn(k, s.l1[k], s.hist, |s.hist|);
    }
  }

  // ---- Every action, harmless uploads only --------------------------------------------------

  ghost predicate Allowed(s: State, a: Action) {
    Enabled(s, a) && (a.UploadL1? ==> Harmless(s, a.prune))
  }

  lemma PartStepKeeps(s: State, a: Action)
    requires PartInv(s) && Allowed(s, a)
    ensures PartInv(Apply(s, a))
  {
    var lo :| PartInvAt(s, lo);
    match a
    case Flush(f) => FlushKeepsPart(s, lo, f);
    case RaiseHorizon(to) => GrowKeeps(s, lo, Apply(s, a));
    case ListL0(listed) => ListKeepsPart(s, lo, listed);
    case Read => ReadKeepsPart(s, lo);
    case ReadFails => ReadFailsKeepsPart(s, lo);
    case UploadL1(prune) => UploadKeepsPart(s, lo, prune);
    case UploadManifest => ManifestKeepsPart(s, lo);
    case AbortJob => JobKeepsPart(s, lo, Apply(s, a));
    case PickManifest(mk) => PickKeepsPart(s, lo, mk);
    case DeleteL0 => var lo' := DeleteKeepsPart(s, lo);
    case DeleteManifest => ReapKeepsPart(s, lo, Apply(s, a));
    case StopReap => ReapKeepsPart(s, lo, Apply(s, a));
  }

  ghost predicate AllSafe(s: State) {
    forall x :: x in Flat(s.hist) ==> Safe(x, s)
  }

  lemma PartSafe(s: State)
    requires PartInv(s)
    ensures AllSafe(s)
  {
    var lo :| PartInvAt(s, lo);
    forall x | x in Flat(s.hist) ensures Safe(x, s) {
      FlatMembers(s.hist, x);
      var i :| 0 <= i < |s.hist| && x in s.hist[i];
      if i < lo {
        assert FileCovered(s.hist[i], s.l1, s.horizon);
      } else {
        assert x in s.l0[FirstSys(s.hist[i])];
      }
    }
  }

  // ---- Jobs whose reads succeed are harmless --------------------------------------------------

  lemma FlushAllRead(s: State, lo: int, f: File)
    requires PartInvAt(s, lo) && AllRead(s) && Enabled(s, Flush(f))
    ensures AllRead(Apply(s, Flush(f)))
  {
    var t := Apply(s, Flush(f));
    if s.job.Reading? && s.job.next <= |s.job.listed| {
      var a :| a <= lo && Tried(s, s.job.listed, s.job.next, s.job.rows, a);
      HistGrows(s.hist, s.eid, s.width, f);
      SegmentCarries(s.job.listed, s.hist, t.hist, a);
      forall i, x | 0 <= i < |t.hist| && NamedIn(t.hist[i], t.job.listed[..t.job.next]) && x in t.hist[i]
        ensures x in t.job.rows
      {
        ListedName(t, t.job.listed, a, i);
        assert s.hist[i] == t.hist[i];
      }
    }
  }

  lemma ReadAllRead(s: State, lo: int)
    requires PartInvAt(s, lo) && AllRead(s) && Enabled(s, Read)
    ensures AllRead(Apply(s, Read))
  {
    var t, next := Apply(s, Read), s.job.next;
    assert s.job.listed[..next + 1] == s.job.listed[..next] + [s.job.listed[next]];
    forall i, x | 0 <= i < |t.hist| && NamedIn(t.hist[i], t.job.listed[..t.job.next]) && x in t.hist[i]
      ensures x in t.job.rows
    {
      if !NamedIn(s.hist[i], s.job.listed[..next]) {
        ReadAdds(s, lo, i);
      }
    }
  }

  lemma AllReadKeeps(s: State, a: Action)
    requires PartInv(s) && AllRead(s) && Enabled(s, a) && a != ReadFails
    ensures AllRead(Apply(s, a))
  {
    var lo :| PartInvAt(s, lo);
    match a
    case Flush(f) => FlushAllRead(s, lo, f);
    case Read => ReadAllRead(s, lo);
    case _ =>
  }

  /** An overwritten row was in the listing: its object starts where the merge starts, and
      no L1 object draws on files after the listing. */
  lemma OverwrittenListed(s: State, prune: bool, out: File, a: int, y: Row)
    requires HistOk(s.hist, s.eid, s.width) && Enabled(s, UploadL1(prune)) && out == Merged(s.job.rows, prune, s.horizon)
    requires out != [] && Tried(s, s.job.listed, s.job.next, s.job.rows, a)
    requires FirstSys(out) in s.l1 && y in s.l1[FirstSys(out)]
    ensures exists i :: a <= i < a + |s.job.listed| && y in s.hist[i]
  {
    var k, b := FirstSys(out), a + |s.job.listed|;
    TriedPositive(s, s.job.listed, s.job.next, s.job.rows, a);
    MergedOf(s, s.job.rows, prune, out, out[0]);
    assert Among(s.hist, a, b, out[0]);
    var j :| 0 <= a <= j < b && j < |s.hist| && out[0] in s.hist[j];
    assert Drawn(k, s.l1[k], s.hist, b);
    var i :| 0 <= i < b && i < |s.hist| && y in s.hist[i];
    SameFile(s.hist, s.eid, s.width, j, i, out[0], y);
  }

  lemma AllReadHarmless(s: State, prune: bool)
    requires PartInv(s) && AllRead(s) && Enabled(s, UploadL1(prune))
    ensures Harmless(s, prune)
  {
    var out := Merged(s.job.rows, prune, s.horizon);
    if out != [] {
      var lo :| PartInvAt(s, lo);
      var a :| a <= lo && Tried(s, s.job.listed, s.job.next, s.job.rows, a);
      AllReadReplaces(s, prune, out, a);
    }
  }

  lemma AllReadReplaces(s: State, prune: bool, out: File, a: int)
    requires HistOk(s.hist, s.eid, s.width) && AllRead(s) && Enabled(s, UploadL1(prune))
    requires out == Merged(s.job.rows, prune, s.horizon) && out != []
    requires Tried(s, s.job.listed, s.job.next, s.job.rows, a)
    ensures Replaces(s, out)
  {
    var k := FirstSys(out);
    assert s.job.listed[..s.job.next] == s.job.listed;
    TriedPositive(s, s.job.listed, s.job.next, s.job.rows, a);
    if k in s.l1 {
      forall y | y in s.l1[k] ensures Covered(y, s.l1[k := out], s.horizon) {
        OverwrittenListed(s, prune, out, a, y);
        var i :| a <= i < a + |s.job.listed| && y in s.hist[i];
        ListedName(s, s.job.listed, a, i);
        MergedOf(s, s.job.rows, prune, out, y);
        assert CoveredBy(y, s.l1[k := out][k], s.horizon);
      }
    }
  }

  // ---- Runs ---------------------------------------------------------------------------------

  /** A run, reads failing or not, in which every upload is harmless. */
  ghost predicate HarmlessRun(s: State, acts: seq<Action>) {
    acts == [] ||
    (var init := acts[..|acts| - 1];
     HarmlessRun(s, init) && Exec(s, init).Some? && Allowed(Exec(s, init).value, acts[|acts| - 1]))
  }

  lemma {:induction false} HarmlessKeeps(s: State, acts: seq<Action>)
    requires PartInv(s) && HarmlessRun(s, acts)
    ensures Exec(s, acts).Some? && PartInv(Exec(s, acts).value)
  {
    if acts != [] {
      var init := acts[..|acts| - 1];
      HarmlessKeeps(s, init);
      PartStepKeeps(Exec(s, init).value, acts[|acts| - 1]);
    }
  }

  lemma InitPart(eid: seq<int>, width: nat, h: int)
    ensures PartInv(Init(eid, width, h)) && AllRead(Init(eid, width, h))
  {
    assert PartInvAt(Init(eid, width, h), 0);
  }

  /** Over every run whose uploads are harmless, no row ever flushed is lost. */
  lemma NothingLostIfHarmless(eid: seq<int>, width: nat, h: int, acts: seq<Action>)
    requires HarmlessRun(Init(eid, width, h), acts)
    ensures Exec(Init(eid, width, h), acts).Some? && AllSafe(Exec(Init(eid, width, h), acts).value)
  {
    InitPart(eid, width, h);
    HarmlessKeeps(Init(eid, width, h), acts);
    PartSafe(Exec(Init(eid, width, h), acts).value);
  }

  /** A run whose reads succeed is such a run. */
  lemma {:induction false} SuccessIsHarmless(s: State, acts: seq<Action>)
    requires PartInv(s) && AllRead(s) && Exec(s, acts).Some? && ReadsSucceed(acts)
    ensures HarmlessRun(s, acts) && PartInv(Exec(s, acts).value) && AllRead(Exec(s, acts).value)
  {
    if acts != [] {
      var init, last := acts[..|acts| - 1], acts[|acts| - 1];
      SuccessIsHarmless(s, init);
      var t := Exec(s, init).value;
      if last.UploadL1? {
        AllReadHarmless(t, last.prune);
      }
      PartStepKeeps(t, last);
      AllReadKeeps(t, last);
    }
  }

  lemma LeadsSafe(s: State, t: State)
    requires PartInv(s) && AllRead(s) && Leads(s, t)
    ensures AllSafe(t)
  {
    var acts :| Exec(s, acts) == Some(t) && ReadsSucceed(acts);
    SuccessIsHarmless(s, acts);
    PartSafe(t);
  }

  // ---- Harmful uploads lose a row --------------------------------------------------------------

  /** The directory after the manifest of an upload is written and the reaper has deleted the
      first `n` files it names. */
  function Reaped(s: State, k: int, listed: seq<int>, n: nat): State
    requires n <= |listed|
  {
    s.(l0 := s.l0 - KeySet(listed[..n]), manifests := s.manifests[k := Manifest(k, listed)], job := NoJob,
       reap := Deleting(k, listed, n))
  }

  lemma ReapBegins(s: State, k: int, listed: seq<int>)
    requires s.job == Uploaded(listed, k) && k in s.l1
    ensures Leads(s, Reaped(s, k, listed, 0))
  {
    var t := s.(manifests := s.manifests[k := Manifest(k, listed)], job := NoJob);
    LeadsNowhere(s);
    LeadsOn(s, s, UploadManifest, t);
    if !s.reap.NoReap? {
      LeadsOn(s, t, StopReap, t.(reap := NoReap));
    }
    assert listed[..0] == [] && s.l0 - {} == s.l0;
    LeadsOn(s, t.(reap := NoReap), PickManifest(k), Reaped(s, k, listed, 0));
  }

  lemma {:induction false} ReapRuns(s: State, k: int, listed: seq<int>, n: nat)
    requires s.job == Uploaded(listed, k) && k in s.l1 && n <= |listed|
    ensures Leads(s, Reaped(s, k, listed, n))
  {
    if n == 0 {
      ReapBegins(s, k, listed);
    } else {
      ReapRuns(s, k, listed, n - 1);
      assert listed[..n] == listed[..n - 1] + [listed[n - 1]];
      assert s.l0 - KeySet(listed[..n - 1]) - {listed[n - 1]} == s.l0 - KeySet(listed[..n]);
      LeadsOn(s, Reaped(s, k, listed, n - 1), DeleteL0, Reaped(s, k, listed, n));
    }
  }

  /** An upload that is not harmless leaves a row of the files up to the end of its listing
      uncovered. */
  lemma UncoveredRow(s: State, prune: bool, out: File, a: int) returns (i: int, x: Row)
    requires HistOk(s.hist, s.eid, s.width) && Enabled(s, UploadL1(prune)) && out == Merged(s.job.rows, prune, s.horizon)
    requires out != [] && Tried(s, s.job.listed, s.job.next, s.job.rows, a) && !Replaces(s, out)
    ensures 0 <= i < a + |s.job.listed| <= |s.hist| && x in s.hist[i]
    ensures !Covered(x, s.l1[FirstSys(out) := out], s.horizon)
  {
    var k := FirstSys(out);
    var l1 := s.l1[k := out];
    if k in s.l1 && !FileCovered(s.l1[k], l1, s.horizon) {
      x :| x in s.l1[k] && !Covered(x, l1, s.horizon);
      OverwrittenListed(s, prune, out, a, x);
      i :| a <= i < a + |s.job.listed| && x in s.hist[i];
    } else {
      i, x :| 0 <= i < |s.hist| && NamedIn(s.hist[i], s.job.listed) && x in s.hist[i] && x !in s.job.rows
              && !Covered(x, l1, s.horizon);
      ListedName(s, s.job.listed, a, i);
    }
  }

  /** Once the listing is deleted, no L0 file holds a row of the files up to its end. */
  lemma GoneFromL0(s: State, lo: int, a: int, listed: seq<int>, i: int, x: Row, k: int)
    requires HistOk(s.hist, s.eid, s.width) && L0Suffix(s.l0, s.hist, lo) && Segment(listed, s.hist, a) && a <= lo
    requires 0 <= i < a + |listed| && x in s.hist[i] && k in s.l0 && x in s.l0[k]
    ensures k in listed
  {
    assert Named(s.hist, lo, k);
    var j :| lo <= j < |s.hist| && s.hist[j] != [] && FirstSys(s.hist[j]) == k;
    SameFile(s.hist, s.eid, s.width, i, j, x, x);
    SameFile(s.hist, s.eid, s.width, j, i, x, x);
    assert listed[j - a] == FirstSys(s.hist[j]);
  }

  /** An uncovered row of those files is then nowhere. */
  lemma RowLost(s: State, lo: int, a: int, listed: seq<int>, i: int, x: Row, u: State)
    requires HistOk(s.hist, s.eid, s.width) && L0Suffix(s.l0, s.hist, lo) && Segment(listed, s.hist, a) && a <= lo
    requires 0 <= i < a + |listed| && x in s.hist[i] && !Covered(x, u.l1, u.horizon)
    requires u.hist == s.hist && u.l0 == s.l0 - KeySet(listed)
    ensures !AllSafe(u)
  {
    forall k | k in u.l0 ensures x !in u.l0[k] {
      if x in u.l0[k] {
        GoneFromL0(s, lo, a, listed, i, x, k);
      }
    }
    assert !Safe(x, u);
    FlatMembers(u.hist, x);
  }

  lemma HarmfulLoses(s: State, prune: bool) returns (u: State)
    requires PartInv(s) && Enabled(s, UploadL1(prune)) && !Harmless(s, prune)
    ensures Leads(Apply(s, UploadL1(prune)), u) && !AllSafe(u)
  {
    var lo :| PartInvAt(s, lo);
    var a :| a <= lo && Tried(s, s.job.listed, s.job.next, s.job.rows, a);
    u := LosesFrom(s, lo, a, prune, Merged(s.job.rows, prune, s.horizon), s.job.listed);
  }

  lemma LosesFrom(s: State, lo: int, a: int, prune: bool, out: File, listed: seq<int>) returns (u: State)
    requires HistOk(s.hist, s.eid, s.width) && L0Suffix(s.l0, s.hist, lo) && Enabled(s, UploadL1(prune))
    requires a <= lo && Tried(s, listed, s.job.next, s.job.rows, a) && listed == s.job.listed
    requires out == Merged(s.job.rows, prune, s.horizon) && out != [] && !Replaces(s, out)
    ensures Leads(Apply(s, UploadL1(prune)), u) && !AllSafe(u)
  {
    var i, x := UncoveredRow(s, prune, out, a);
    var k := FirstSys(out);
    var t := s.(l1 := s.l1[k := out], job := Uploaded(listed, k));
    UploadApplied(s, prune, out);
    ReapRuns(t, k, listed, |listed|);
    u := Reaped(t, k, listed, |listed|);
    assert listed[..|listed|] == listed;
    RowLost(s, lo, a, listed, i, x, u);
  }

  /** After any run whose uploads were harmless, the next upload is harmless exactly when no
      continuation loses a row, whatever is flushed, compacted and reaped in it, as long as
      later reads succeed. */
  lemma HarmlessIff(eid: seq<int>, width: nat, h: int, acts: seq<Action>, prune: bool)
    requires HarmlessRun(Init(eid, width, h), acts) && Exec(Init(eid, width, h), acts).Some?
    requires Enabled(Exec(Init(eid, width, h), acts).value, UploadL1(prune))
    ensures var s := Exec(Init(eid, width, h), acts).value;
            Harmless(s, prune) <==> forall u :: Leads(Apply(s, UploadL1(prune)), u) ==> AllSafe(u)
  {
    var s := Exec(Init(eid, width, h), acts).value;
    InitPart(eid, width, h);
    HarmlessKeeps(Init(eid, width, h), acts);
    var t := Apply(s, UploadL1(prune));
    if Harmless(s, prune) {
      PartStepKeeps(s, UploadL1(prune));
      forall u | Leads(t, u) ensures AllSafe(u) {
        LeadsSafe(t, u);
      }
    } else {
      var u := HarmfulLoses(s, prune);
    }
  }
}
