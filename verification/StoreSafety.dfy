/** Every action keeps the invariant, so every run does. */
module StoreSafety {
  import opened Basics
  import opened Rows
  import opened Pruning
  import opened Merging
  import opened ObjectKeys
  import opened Store
  import opened StoreInvariant

  /** `t` extends the history of `s` and has lost nothing from L1. */
  ghost predicate Extends(s: State, t: State) {
    s.hist <= t.hist && L1Kept(s, t)
  }

  lemma SegmentCarries(keys: seq<int>, hist: seq<File>, hist': seq<File>, a: int)
    requires hist <= hist' && Segment(keys, hist, a)
    ensures Segment(keys, hist', a)
  {
  }

  lemma RangeExtends(s: State, t: State, a: int, b: int)
    requires Extends(s, t) && 0 <= a <= b <= |s.hist| && RangeCovered(s.hist, a, b, s.l1, s.horizon)
    ensures RangeCovered(t.hist, a, b, t.l1, t.horizon)
  {
    RangeCarries(s, t, s.hist, a, b);
    assert forall i :: a <= i < b ==> t.hist[i] == s.hist[i];
  }

  lemma ManifestCarries(m: Manifest, s: State, t: State, lo: int, lo': int)
    requires Extends(s, t) && lo <= lo' && ManifestOk(m, s, lo)
    ensures ManifestOk(m, t, lo')
  {
    var a :| a <= lo && Segment(m.l0Keys, s.hist, a) && RangeCovered(s.hist, a, a + |m.l0Keys|, s.l1, s.horizon);
    SegmentCarries(m.l0Keys, s.hist, t.hist, a);
    RangeExtends(s, t, a, a + |m.l0Keys|);
  }

  lemma L1Carries(k: int, f: File, hist: seq<File>, hist': seq<File>, n: int, n': int, h: int, h': int)
    requires hist <= hist' && n <= n' && h <= h' && L1Ok(k, f, hist, n, h)
    ensures L1Ok(k, f, hist', n', h')
  {
    var a, b, g :| IsMerge(f, hist, a, b, g) && b <= n && g <= h;
    assert hist'[a..b] == hist[a..b];
    assert IsMerge(f, hist', a, b, g);
  }

  lemma ReapCarries(s: State, t: State, lo: int, lo': int)
    requires Extends(s, t) && lo <= lo' && ReapOk(s, lo) && t.reap == s.reap
    ensures ReapOk(t, lo')
  {
    if s.reap.Deleting? {
      var n := |s.reap.l0Keys|;
      var a :| a + s.reap.next <= lo && Segment(s.reap.l0Keys, s.hist, a)
               && RangeCovered(s.hist, a, a + n, s.l1, s.horizon);
      SegmentCarries(s.reap.l0Keys, s.hist, t.hist, a);
      RangeExtends(s, t, a, a + n);
    }
  }

  /** The job survives any step that is not its own. */
  lemma JobCarries(s: State, t: State, lo: int, lo': int)
    requires Extends(s, t) && lo <= lo' && JobOk(s, lo) && t.job == s.job && t.l1 == s.l1
    ensures JobOk(t, lo')
  {
    match s.job
    case NoJob =>
    case Uploaded(listed, _) => ManifestCarries(Manifest(0, listed), s, t, lo, lo');
    case Reading(listed, next, rows) =>
      var a :| a <= lo && ReadingFrom(s, listed, next, rows, a);
      ReadingCarries(s, t, listed, next, rows, a);
  }

  lemma ReadingCarries(s: State, t: State, listed: seq<int>, next: nat, rows: seq<Row>, a: int)
    requires ReadingFrom(s, listed, next, rows, a) && s.hist <= t.hist && s.horizon <= t.horizon && t.l1 == s.l1
    ensures ReadingFrom(t, listed, next, rows, a)
  {
    SegmentCarries(listed, s.hist, t.hist, a);
    assert t.hist[a..a + next] == s.hist[a..a + next];
    forall k | k in t.l1 ensures L1Ok(k, t.l1[k], t.hist, a + |listed|, t.horizon) {
      L1Carries(k, t.l1[k], s.hist, t.hist, a + |listed|, a + |listed|, s.horizon, t.horizon);
    }
  }

  /** All clauses except the L0 suffix follow when L1 is untouched. */
  lemma RestCarries(s: State, t: State, lo: int, lo': int)
    requires InvAt(s, lo) && s.hist <= t.hist && t.l1 == s.l1 && s.horizon <= t.horizon && lo <= lo' <= |t.hist|
    requires t.job == s.job && t.reap == s.reap
    requires forall mk :: mk in t.manifests ==> mk in s.manifests && t.manifests[mk] == s.manifests[mk]
    ensures Extends(s, t) && JobOk(t, lo') && ReapOk(t, lo')
    ensures RangeCovered(t.hist, 0, lo, t.l1, t.horizon)
    ensures L1Within(t.l1, t.hist, |t.hist|, t.horizon)
    ensures forall mk :: mk in t.manifests ==> ManifestOk(t.manifests[mk], t, lo')
  {
    L1Unchanged(s, t);
    JobCarries(s, t, lo, lo');
    ReapCarries(s, t, lo, lo');
    RangeExtends(s, t, 0, lo);
    forall k | k in t.l1 ensures L1Ok(k, t.l1[k], t.hist, |t.hist|, t.horizon) {
      L1Carries(k, t.l1[k], s.hist, t.hist, |s.hist|, |t.hist|, s.horizon, t.horizon);
    }
    forall mk | mk in t.manifests ensures ManifestOk(t.manifests[mk], t, lo') {
      ManifestCarries(t.manifests[mk], s, t, lo, lo');
    }
  }

  // ---- Flush and horizon -------------------------------------------------------------------

  /** A new file lands under a name no older file can have. */
  lemma SuffixGrows(l0: map<int, File>, hist: seq<File>, lo: int, f: File)
    requires L0Suffix(l0, hist, lo) && f != [] && forall i :: 0 <= i < |hist| ==> Before(hist[i], f)
    ensures L0Suffix(l0[FirstSys(f) := f], hist + [f], lo)
  {
    var l0', hist', n := l0[FirstSys(f) := f], hist + [f], |hist|;
    forall i | lo <= i < n ensures FirstSys(hist'[i]) != FirstSys(f) {
      assert Before(hist[i], f) && hist[i][0] in hist[i] && f[0] in f;
    }
    forall k | k in l0' ensures Named(hist', lo, k) {
      if k == FirstSys(f) {
        assert hist'[n] == f;
      } else {
        NamedCarries(hist, lo, hist', lo, k);
      }
    }
  }

  lemma NamedCarries(hist: seq<File>, lo: int, hist': seq<File>, lo': int, k: int)
    requires 0 <= lo && 0 <= lo' && Named(hist, lo, k) && hist <= hist'
    requires forall i :: lo <= i < lo' && i < |hist| && hist[i] != [] ==> FirstSys(hist[i]) != k
    ensures Named(hist', lo', k)
  {
    var i :| lo <= i < |hist| && hist[i] != [] && FirstSys(hist[i]) == k;
    assert hist'[i] == hist[i];
  }

  lemma HistGrows(hist: seq<File>, eid: seq<int>, width: nat, f: File)
    requires HistOk(hist, eid, width) && FileOk(f, eid, width) && forall i :: 0 <= i < |hist| ==> Before(hist[i], f)
    ensures HistOk(hist + [f], eid, width)
  {
  }

  lemma FlushKeeps(s: State, lo: int, f: File)
    requires InvAt(s, lo) && Enabled(s, Flush(f))
    ensures InvAt(Apply(s, Flush(f)), lo)
  {
    SuffixGrows(s.l0, s.hist, lo, f);
    HistGrows(s.hist, s.eid, s.width, f);
    RestCarries(s, Apply(s, Flush(f)), lo, lo);
  }

  lemma RaiseKeeps(s: State, lo: int, to: int)
    requires InvAt(s, lo) && Enabled(s, RaiseHorizon(to))
    ensures InvAt(Apply(s, RaiseHorizon(to)), lo)
  {
    RestCarries(s, Apply(s, RaiseHorizon(to)), lo, lo);
  }

  // ---- Compaction --------------------------------------------------------------------------

  /** File names follow the order of the history. */
  lemma KeyOrder(s: State, i: int, j: int)
    requires HistOk(s.hist, s.eid, s.width) && 0 <= i < |s.hist| && 0 <= j < |s.hist|
    ensures s.hist[i] != [] && s.hist[j] != []
    ensures FirstSys(s.hist[i]) < FirstSys(s.hist[j]) <==> i < j
    ensures FirstSys(s.hist[i]) == FirstSys(s.hist[j]) <==> i == j
  {
    assert s.hist[i] != [] && s.hist[j] != [];
    assert s.hist[i][0] in s.hist[i] && s.hist[j][0] in s.hist[j];
    assert i < j ==> Before(s.hist[i], s.hist[j]);
    assert j < i ==> Before(s.hist[j], s.hist[i]);
  }

  predicate Ascending(keys: seq<int>) {
    forall i, j :: 0 <= i < j < |keys| ==> keys[i] < keys[j]
  }

  lemma WidthOrder(a: nat, b: nat)
    requires Width(a) == Width(b)
    ensures LexLess(FormatInt(a), FormatInt(b)) <==> a < b
  {
    NumeralOrder(Decimal(a), Decimal(b));
    DecimalValue(a);
    DecimalValue(b);
  }

  /** With equal widths, the lexical listing is in numeric order. */
  lemma ListingAscends(s: State, lo: int, listed: seq<int>)
    requires HistOk(s.hist, s.eid, s.width) && L0Suffix(s.l0, s.hist, lo) && IsListing(listed, s.l0.Keys)
    ensures Ascending(listed)
  {
    forall i, j | 0 <= i < j < |listed| ensures listed[i] < listed[j] {
      NameWidth(s, lo, listed[i]);
      NameWidth(s, lo, listed[j]);
      WidthOrder(listed[i], listed[j]);
    }
  }

  lemma NameWidth(s: State, lo: int, k: int)
    requires HistOk(s.hist, s.eid, s.width) && L0Suffix(s.l0, s.hist, lo) && k in s.l0.Keys
    ensures k > 0 && Width(k) == s.width
  {
    var i :| lo <= i < |s.hist| && s.hist[i] != [] && FirstSys(s.hist[i]) == k;
    assert FileOk(s.hist[i], s.eid, s.width) && s.hist[i][0] in s.hist[i];
  }

  /** Two ascending listings of the same names are equal. */
  lemma {:induction false} AscendingUnique(a: seq<int>, b: seq<int>)
    requires Ascending(a) && Ascending(b) && forall k :: k in a <==> k in b
    ensures a == b
  {
    if |a| > 0 || |b| > 0 {
      assert |a| > 0 ==> a[0] in a;
      assert |b| > 0 ==> b[0] in b;
      var m, n := |a| - 1, |b| - 1;
      assert a[m] in b && b[n] in a;
      assert a[m] == b[n];
      forall k ensures k in a[..m] <==> k in b[..n] {
        assert k in a[..m] <==> k in a && k != a[m];
        assert k in b[..n] <==> k in b && k != b[n];
      }
      AscendingUnique(a[..m], b[..n]);
      assert a == a[..m] + [a[m]] && b == b[..n] + [b[n]];
    }
  }

  /** The names of the files from `lo` on. */
  ghost function Names(hist: seq<File>, lo: int): (r: seq<int>)
    requires 0 <= lo <= |hist|
    requires forall i :: 0 <= i < |hist| ==> hist[i] != []
    ensures |r| == |hist| - lo && forall i :: 0 <= i < |r| ==> r[i] == FirstSys(hist[lo + i])
    decreases |hist| - lo
  {
    if lo == |hist| then [] else [FirstSys(hist[lo])] + Names(hist, lo + 1)
  }

  lemma NamesAscend(s: State, lo: int)
    requires HistOk(s.hist, s.eid, s.width) && 0 <= lo <= |s.hist|
    ensures Ascending(Names(s.hist, lo))
  {
    var names := Names(s.hist, lo);
    forall i, j | 0 <= i < j < |names| ensures names[i] < names[j] {
      KeyOrder(s, lo + i, lo + j);
    }
  }

  lemma NamesAreKeys(l0: map<int, File>, hist: seq<File>, lo: int, k: int)
    requires L0Suffix(l0, hist, lo) && forall i :: 0 <= i < |hist| ==> hist[i] != []
    ensures k in Names(hist, lo) <==> k in l0
  {
    var names := Names(hist, lo);
    if k in l0 {
      var i :| lo <= i < |hist| && hist[i] != [] && FirstSys(hist[i]) == k;
      assert names[i - lo] == k;
    }
  }

  /** Listing the directory names the remaining files oldest first. */
  lemma ListingIsSegment(s: State, lo: int, listed: seq<int>)
    requires HistOk(s.hist, s.eid, s.width) && L0Suffix(s.l0, s.hist, lo) && IsListing(listed, s.l0.Keys)
    ensures Segment(listed, s.hist, lo) && lo + |listed| == |s.hist|
  {
    NamesAscend(s, lo);
    forall k ensures k in Names(s.hist, lo) <==> k in listed {
      NamesAreKeys(s.l0, s.hist, lo, k);
    }
    ListingAscends(s, lo, listed);
    AscendingUnique(Names(s.hist, lo), listed);
  }

  lemma ListKeeps(s: State, lo: int, listed: seq<int>)
    requires InvAt(s, lo) && Enabled(s, ListL0(listed))
    ensures InvAt(Apply(s, ListL0(listed)), lo)
  {
    var t := Apply(s, ListL0(listed));
    L1Unchanged(s, t);
    ListingIsSegment(s, lo, listed);
    assert t.hist[lo..lo] == [];
    assert ReadingFrom(t, listed, 0, [], lo);
    forall mk | mk in t.manifests ensures ManifestOk(t.manifests[mk], t, lo) {
      ManifestCarries(t.manifests[mk], s, t, lo, lo);
    }
    ReapCarries(s, t, lo, lo);
  }

  lemma ReadKeeps(s: State, lo: int)
    requires InvAt(s, lo) && Enabled(s, Read)
    ensures InvAt(Apply(s, Read), lo)
  {
    var t := Apply(s, Read);
    var a :| a <= lo && ReadingFrom(s, s.job.listed, s.job.next, s.job.rows, a);
    ReadNext(s, lo, a);
    L1Unchanged(s, t);
    forall mk | mk in t.manifests ensures ManifestOk(t.manifests[mk], t, lo) {
      ManifestCarries(t.manifests[mk], s, t, lo, lo);
    }
    ReapCarries(s, t, lo, lo);
  }

  /** The file read under the next listed name is the next file of the history. */
  lemma ReadNext(s: State, lo: int, a: int)
    requires HistOk(s.hist, s.eid, s.width) && L0Suffix(s.l0, s.hist, lo) && Enabled(s, Read)
    requires ReadingFrom(s, s.job.listed, s.job.next, s.job.rows, a)
    ensures ReadingFrom(Apply(s, Read), s.job.listed, s.job.next + 1, Apply(s, Read).job.rows, a)
  {
    var listed, next := s.job.listed, s.job.next;
    NamedFile(s, lo, a + next, listed[next]);
    var f := s.hist[a + next];
    ExtractAll(f, s.eid);
    ReadGrows(s, listed, next, s.job.rows, a, f);
  }

  lemma {:induction false} ExtractAll(f: File, eid: seq<int>)
    requires forall x :: x in f ==> x.eid == eid
    ensures Extract(f, eid) == f
  {
    if f != [] {
      ExtractAll(f[..|f| - 1], eid);
    }
  }

  lemma ReadGrows(s: State, listed: seq<int>, next: nat, rows: seq<Row>, a: int, f: File)
    requires ReadingFrom(s, listed, next, rows, a) && next < |listed| && f == s.hist[a + next]
    ensures ReadingFrom(s.(job := Reading(listed, next + 1, rows + f)), listed, next + 1, rows + f, a)
  {
    FlatSnoc(s.hist, a, a + next);
  }

  lemma NamedFile(s: State, lo: int, n: int, key: int)
    requires HistOk(s.hist, s.eid, s.width) && L0Suffix(s.l0, s.hist, lo)
    requires 0 <= n < |s.hist| && s.hist[n] != [] && FirstSys(s.hist[n]) == key && key in s.l0
    ensures s.l0[key] == s.hist[n]
  {
    var i :| lo <= i < |s.hist| && s.hist[i] != [] && FirstSys(s.hist[i]) == key;
    KeyOrder(s, i, n);
  }

  lemma UpdateCovers(l1: map<int, File>, k0: int, out: File, h: int)
    requires k0 in l1 ==> forall y :: y in l1[k0] ==> CoveredBy(y, out, h)
    ensures forall k, y :: k in l1 && y in l1[k] ==> Covered(y, l1[k0 := out], h)
  {
    forall k, y | k in l1 && y in l1[k] ensures Covered(y, l1[k0 := out], h) {
      assert CoveredBy(y, l1[k0 := out][k], h);
    }
  }

  /** What the job uploads is the pruned stretch it listed, and covers all of it. */
  lemma MergeOfListed(s: State, a: int, b: int, rows: seq<Row>, h: int, out: File)
    requires HistOk(s.hist, s.eid, s.width) && 0 <= a < b <= |s.hist| && rows == Flat(s.hist[a..b])
    requires (h <= 0 || h == s.horizon) && out == Pruned(StableSort(rows), h)
    ensures |out| > 0 && IsMerge(out, s.hist, a, b, h)
    ensures RangeCovered(s.hist, a, b, map[FirstSys(out) := out], s.horizon)
  {
    StretchSorted(s.hist, s.eid, s.width, a, b);
    assert rows != [] by {
      assert s.hist[a] != [] && s.hist[a][0] in s.hist[a];
      FlatSlice(s.hist, a, b, s.hist[a][0]);
    }
    PrunedNonEmpty(rows, h);
    var only := map[FirstSys(out) := out];
    forall i, x | a <= i < b && x in s.hist[i] ensures Covered(x, only, s.horizon) {
      FlatSlice(s.hist, a, b, x);
      MergeCovers(rows, h, s.horizon, x);
      assert CoveredBy(x, only[FirstSys(out)], s.horizon);
    }
  }

  lemma MergeCovers(rows: seq<Row>, h: int, horizon: int, x: Row)
    requires x in rows && (h <= 0 || h == horizon)
    ensures CoveredBy(x, Pruned(rows, h), horizon)
  {
    if h > 0 {
      SurvivorsMembers(rows, rows, h);
      SurvivorsDominateAlike(rows, x, h);
    }
  }

  /** A merge draws its rows from the files it merged, and starts at its least one. */
  lemma MergeRow(hist: seq<File>, eid: seq<int>, width: nat, f: File, a: int, b: int, h: int, y: Row)
    returns (i: int)
    requires HistOk(hist, eid, width) && IsMerge(f, hist, a, b, h) && y in f
    ensures a <= i < b && y in hist[i] && FirstSys(f) <= y.sysT
  {
    var rows := Flat(hist[a..b]);
    var at := PrunedSubsequence(rows, h);
    FlatSlice(hist, a, b, y);
    i :| a <= i < b && y in hist[i];
    StretchSorted(hist, eid, width, a, b);
    PrunedSysAscending(rows, h);
    var p :| 0 <= p < |f| && f[p] == y;
    assert p > 0 ==> f[0].sysT <= f[p].sysT;
  }

  /** A row of an L1 object that starts at the merge's first row is among the merged rows. */
  lemma OverwrittenWasListed(s: State, a: int, b: int, h: int, out: File, y: Row)
    requires HistOk(s.hist, s.eid, s.width) && out != [] && IsMerge(out, s.hist, a, b, h)
    requires var k := FirstSys(out); k in s.l1 && L1Ok(k, s.l1[k], s.hist, b, s.horizon) && y in s.l1[k]
    ensures exists i :: a <= i < b && y in s.hist[i]
  {
    var k := FirstSys(out);
    var j := MergeRow(s.hist, s.eid, s.width, out, a, b, h, out[0]);
    var a', b', g :| IsMerge(s.l1[k], s.hist, a', b', g) && b' <= b && g <= s.horizon;
    var i := MergeRow(s.hist, s.eid, s.width, s.l1[k], a', b', g, y);
    SameFile(s.hist, s.eid, s.width, j, i, out[0], y);
  }

  /** The upload overwrites at most an L1 object all of whose rows it covers: an object
      under the same name starts in the same file, and that file and all newer ones that
      any L1 object draws on were in the listing. */
  lemma UploadCovers(s: State, a: int, b: int, h: int, out: File)
    requires HistOk(s.hist, s.eid, s.width) && out != [] && IsMerge(out, s.hist, a, b, h)
    requires L1Within(s.l1, s.hist, b, s.horizon)
    requires RangeCovered(s.hist, a, b, map[FirstSys(out) := out], s.horizon)
    ensures forall k, y :: k in s.l1 && y in s.l1[k] ==> Covered(y, s.l1[FirstSys(out) := out], s.horizon)
  {
    var k0 := FirstSys(out);
    if k0 in s.l1 {
      forall y | y in s.l1[k0] ensures CoveredBy(y, out, s.horizon) {
        OverwrittenWasListed(s, a, b, h, out, y);
        var i :| a <= i < b && y in s.hist[i];
        assert FileCovered(s.hist[i], map[k0 := out], s.horizon);
      }
    }
    UpdateCovers(s.l1, k0, out, s.horizon);
  }

  lemma UploadKeeps(s: State, lo: int, prune: bool)
    requires InvAt(s, lo) && Enabled(s, UploadL1(prune))
    ensures InvAt(Apply(s, UploadL1(prune)), lo)
  {
    var a :| a <= lo && ReadingFrom(s, s.job.listed, s.job.next, s.job.rows, a);
    UploadFrom(s, lo, prune, a, Merged(s.job.rows, prune, s.horizon));
  }

  lemma UploadFrom(s: State, lo: int, prune: bool, a: int, out: File)
    requires InvAt(s, lo) && Enabled(s, UploadL1(prune)) && out == Merged(s.job.rows, prune, s.horizon)
    requires a <= lo && ReadingFrom(s, s.job.listed, s.job.next, s.job.rows, a)
    ensures InvAt(Apply(s, UploadL1(prune)), lo)
  {
    var b, h, t := UploadMerges(s, prune, a, out);
    UploadedKeeps(s, t, lo, a, b, h, out);
  }

  /** The upload stores the merge of what was listed. */
  lemma UploadMerges(s: State, prune: bool, a: int, out: File) returns (b: int, h: int, t: State)
    requires HistOk(s.hist, s.eid, s.width) && Enabled(s, UploadL1(prune)) && out == Merged(s.job.rows, prune, s.horizon)
    requires ReadingFrom(s, s.job.listed, s.job.next, s.job.rows, a)
    ensures Segment(s.job.listed, s.hist, a) && b == a + |s.job.listed| && h <= PruneHorizon(true, s.horizon)
    ensures out != [] && IsMerge(out, s.hist, a, b, h) && L1Within(s.l1, s.hist, b, s.horizon)
    ensures RangeCovered(s.hist, a, b, map[FirstSys(out) := out], s.horizon)
    ensures t == s.(l1 := s.l1[FirstSys(out) := out], job := Uploaded(s.job.listed, FirstSys(out)))
    ensures Apply(s, UploadL1(prune)) == t
  {
    b, h := a + |s.job.listed|, PruneHorizon(prune, s.horizon);
    MergeOfListed(s, a, b, s.job.rows, h, out);
    UploadApplied(s, prune, out);
    t := s.(l1 := s.l1[FirstSys(out) := out], job := Uploaded(s.job.listed, FirstSys(out)));
  }

  lemma UploadApplied(s: State, prune: bool, out: File)
    requires Enabled(s, UploadL1(prune)) && out == Merged(s.job.rows, prune, s.horizon) && |out| > 0
    ensures Apply(s, UploadL1(prune))
         == s.(l1 := s.l1[FirstSys(out) := out], job := Uploaded(s.job.listed, FirstSys(out)))
  {
  }

  lemma UploadedKeeps(s: State, t: State, lo: int, a: int, b: int, h: int, out: File)
    requires InvAt(s, lo) && s.job.Reading? && a <= lo && Segment(s.job.listed, s.hist, a) && b == a + |s.job.listed|
    requires out != [] && IsMerge(out, s.hist, a, b, h) && h <= PruneHorizon(true, s.horizon)
    requires L1Within(s.l1, s.hist, b, s.horizon)
    requires RangeCovered(s.hist, a, b, map[FirstSys(out) := out], s.horizon)
    requires t == s.(l1 := s.l1[FirstSys(out) := out], job := Uploaded(s.job.listed, FirstSys(out)))
    ensures InvAt(t, lo)
  {
    UploadCovers(s, a, b, h, out);
    assert Extends(s, t);
    UploadedOk(s, out, a, b, h);
    assert L1Within(t.l1, t.hist, |t.hist|, t.horizon);
    assert RangeCovered(t.hist, a, b, t.l1, t.horizon) by {
      forall i, x | a <= i < b && x in s.hist[i] ensures Covered(x, t.l1, t.horizon) {
        assert FileCovered(s.hist[i], map[FirstSys(out) := out], s.horizon);
        assert CoveredBy(x, t.l1[FirstSys(out)], t.horizon);
      }
    }
    assert ManifestOk(Manifest(0, s.job.listed), t, lo);
    RangeExtends(s, t, 0, lo);
    ReapCarries(s, t, lo, lo);
    forall mk | mk in t.manifests ensures ManifestOk(t.manifests[mk], t, lo) {
      ManifestCarries(t.manifests[mk], s, t, lo, lo);
    }
  }

  /** A merge pruned at no horizon counts as one pruned at any lower horizon. */
  lemma UploadedOk(s: State, out: File, a: int, b: int, g: int)
    requires out != [] && IsMerge(out, s.hist, a, b, g) && g <= PruneHorizon(true, s.horizon)
    ensures L1Ok(FirstSys(out), out, s.hist, |s.hist|, s.horizon)
  {
    if g > s.horizon {
      assert IsMerge(out, s.hist, a, b, s.horizon);
    }
  }

  lemma JobDoneKeeps(s: State, lo: int, t: State)
    requires InvAt(s, lo) && t.job == NoJob && t.hist == s.hist && t.l0 == s.l0 && t.l1 == s.l1
    requires t.eid == s.eid && t.width == s.width && t.horizon == s.horizon && t.reap == s.reap
    requires forall mk :: mk in t.manifests ==> ManifestOk(t.manifests[mk], s, lo)
    ensures InvAt(t, lo)
  {
    L1Unchanged(s, t);
    ReapCarries(s, t, lo, lo);
    forall mk | mk in t.manifests ensures ManifestOk(t.manifests[mk], t, lo) {
      ManifestCarries(t.manifests[mk], s, t, lo, lo);
    }
  }

  lemma ManifestUploadKeeps(s: State, lo: int)
    requires InvAt(s, lo) && Enabled(s, UploadManifest)
    ensures InvAt(Apply(s, UploadManifest), lo)
  {
    var t := Apply(s, UploadManifest);
    var a :| a <= lo && Segment(s.job.listed, s.hist, a)
             && RangeCovered(s.hist, a, a + |s.job.listed|, s.l1, s.horizon);
    assert ManifestOk(t.manifests[s.job.l1Key], s, lo);
    JobDoneKeeps(s, lo, t);
  }

  // ---- Reaper ------------------------------------------------------------------------------

  lemma PickKeeps(s: State, lo: int, mk: int)
    requires InvAt(s, lo) && Enabled(s, PickManifest(mk))
    ensures InvAt(Apply(s, PickManifest(mk)), lo)
  {
    var t := Apply(s, PickManifest(mk));
    var m := s.manifests[mk];
    var a :| a <= lo && Segment(m.l0Keys, s.hist, a) && RangeCovered(s.hist, a, a + |m.l0Keys|, s.l1, s.horizon);
    assert ReapOk(t, lo);
    ReapChangeKeeps(s, lo, t);
  }

  lemma ReapChangeKeeps(s: State, lo: int, t: State)
    requires InvAt(s, lo) && ReapOk(t, lo) && t.hist == s.hist && t.l0 == s.l0 && t.l1 == s.l1
    requires t.eid == s.eid && t.width == s.width && t.horizon == s.horizon && t.job == s.job
    requires forall mk :: mk in t.manifests ==> mk in s.manifests && t.manifests[mk] == s.manifests[mk]
    ensures InvAt(t, lo)
  {
    L1Unchanged(s, t);
    JobCarries(s, t, lo, lo);
    forall mk | mk in t.manifests ensures ManifestOk(t.manifests[mk], t, lo) {
      ManifestCarries(t.manifests[mk], s, t, lo, lo);
    }
  }

  lemma DeleteKeeps(s: State, lo: int) returns (lo': int)
    requires InvAt(s, lo) && Enabled(s, DeleteL0)
    ensures InvAt(Apply(s, DeleteL0), lo')
  {
    var a :| a + s.reap.next <= lo && Segment(s.reap.l0Keys, s.hist, a)
             && RangeCovered(s.hist, a, a + |s.reap.l0Keys|, s.l1, s.horizon);
    lo' := DeletedSuffix(s, lo, a);
    RestAfterDelete(s, Apply(s, DeleteL0), lo, lo');
  }

  /** A delete removes the oldest remaining file, whose rows L1 covers, or nothing. */
  lemma DeletedSuffix(s: State, lo: int, a: int) returns (lo': int)
    requires HistOk(s.hist, s.eid, s.width) && L0Suffix(s.l0, s.hist, lo) && Enabled(s, DeleteL0)
    requires RangeCovered(s.hist, 0, lo, s.l1, s.horizon)
    requires a + s.reap.next <= lo && Segment(s.reap.l0Keys, s.hist, a)
    requires RangeCovered(s.hist, a, a + |s.reap.l0Keys|, s.l1, s.horizon)
    ensures lo <= lo' <= |s.hist| && ReapOk(Apply(s, DeleteL0), lo')
    ensures L0Suffix(Apply(s, DeleteL0).l0, s.hist, lo')
    ensures RangeCovered(s.hist, 0, lo', s.l1, s.horizon)
  {
    var t, n := Apply(s, DeleteL0), a + s.reap.next;
    lo' := if n == lo then lo + 1 else lo;
    SuffixAfterDelete(s, lo, n, s.reap.l0Keys[s.reap.next], lo');
    RangeJoins(s.hist, lo, a, a + |s.reap.l0Keys|, lo', s.l1, s.horizon);
    assert a + t.reap.next <= lo';
  }

  lemma RangeJoins(hist: seq<File>, lo: int, a: int, b: int, lo': int, l1: map<int, File>, h: int)
    requires 0 <= lo <= |hist| && 0 <= a <= b <= |hist| && lo <= lo' && (lo' == lo || a <= lo < lo' <= b)
    requires RangeCovered(hist, 0, lo, l1, h) && RangeCovered(hist, a, b, l1, h)
    ensures RangeCovered(hist, 0, lo', l1, h)
  {
  }

  lemma RestAfterDelete(s: State, t: State, lo: int, lo': int)
    requires InvAt(s, lo) && t == s.(reap := t.reap, l0 := t.l0) && lo <= lo'
    requires L0Suffix(t.l0, t.hist, lo') && RangeCovered(t.hist, 0, lo', t.l1, t.horizon) && ReapOk(t, lo')
    ensures InvAt(t, lo')
  {
    L1Unchanged(s, t);
    JobCarries(s, t, lo, lo');
    forall mk | mk in t.manifests ensures ManifestOk(t.manifests[mk], t, lo') {
      ManifestCarries(t.manifests[mk], s, t, lo, lo');
    }
  }

  lemma SuffixAfterDelete(s: State, lo: int, n: int, key: int, lo': int)
    requires HistOk(s.hist, s.eid, s.width) && L0Suffix(s.l0, s.hist, lo)
    requires 0 <= n <= lo && n < |s.hist| && s.hist[n] != [] && key == FirstSys(s.hist[n])
    requires lo' == if n == lo then lo + 1 else lo
    ensures L0Suffix(s.l0 - {key}, s.hist, lo')
  {
    forall i | 0 <= i < |s.hist| ensures s.hist[i] != [] && (FirstSys(s.hist[i]) == key <==> i == n) {
      KeyOrder(s, i, n);
    }
    forall k | k in s.l0 - {key} ensures Named(s.hist, lo', k) {
      NamedCarries(s.hist, lo, s.hist, lo', k);
    }
  }

  // ---- Runs --------------------------------------------------------------------------------

  /** Every action but a failed read keeps the invariant. */
  lemma StepKeeps(s: State, a: Action)
    requires Inv(s) && Enabled(s, a) && a != ReadFails
    ensures Inv(Apply(s, a))
  {
    var lo :| InvAt(s, lo);
    match a
    case Flush(f) => FlushKeeps(s, lo, f);
    case RaiseHorizon(to) => RaiseKeeps(s, lo, to);
    case ListL0(listed) => ListKeeps(s, lo, listed);
    case Read => ReadKeeps(s, lo);
    case ReadFails =>
    case UploadL1(prune) => UploadKeeps(s, lo, prune);
    case UploadManifest => ManifestUploadKeeps(s, lo);
    case AbortJob => JobDoneKeeps(s, lo, Apply(s, a));
    case PickManifest(mk) => PickKeeps(s, lo, mk);
    case DeleteL0 => var lo' := DeleteKeeps(s, lo);
    case DeleteManifest => ReapChangeKeeps(s, lo, Apply(s, a));
    case StopReap => ReapChangeKeeps(s, lo, Apply(s, a));
  }

  lemma {:induction false} RunKeeps(eid: seq<int>, width: nat, h: int, acts: seq<Action>)
    requires Exec(Init(eid, width, h), acts).Some? && ReadsSucceed(acts)
    ensures Inv(Exec(Init(eid, width, h), acts).value)
  {
    if acts == [] {
      assert InvAt(Init(eid, width, h), 0);
    } else {
      var init := acts[..|acts| - 1];
      RunKeeps(eid, width, h, init);
      StepKeeps(Exec(Init(eid, width, h), init).value, acts[|acts| - 1]);
    }
  }

  lemma {:induction false} ExecKeeps(s: State, acts: seq<Action>)
    requires Inv(s) && Exec(s, acts).Some? && ReadsSucceed(acts)
    ensures Inv(Exec(s, acts).value)
  {
    if acts != [] {
      ExecKeeps(s, acts[..|acts| - 1]);
      StepKeeps(Exec(s, acts[..|acts| - 1]).value, acts[|acts| - 1]);
    }
  }

  lemma LeadsKeeps(s: State, t: State)
    requires Inv(s) && Leads(s, t)
    ensures Inv(t)
  {
    var acts :| Exec(s, acts) == Some(t) && ReadsSucceed(acts);
    ExecKeeps(s, acts);
  }

  /** Row `x` is in an L0 file, in an L1 file, or superseded by a stored L1 row at or below
      the horizon. */
  ghost predicate Safe(x: Row, s: State) {
    (exists k :: k in s.l0 && x in s.l0[k]) || Covered(x, s.l1, s.horizon)
  }

  /** Over every run whose compaction reads succeed, no row ever flushed is lost. */
  lemma NothingLost(eid: seq<int>, width: nat, h: int, acts: seq<Action>, x: Row)
    requires Exec(Init(eid, width, h), acts).Some? && ReadsSucceed(acts)
    requires x in Flat(Exec(Init(eid, width, h), acts).value.hist)
    ensures Safe(x, Exec(Init(eid, width, h), acts).value)
  {
    var s := Exec(Init(eid, width, h), acts).value;
    RunKeeps(eid, width, h, acts);
    var lo :| InvAt(s, lo);
    FlatMembers(s.hist, x);
    var i :| 0 <= i < |s.hist| && x in s.hist[i];
    if i < lo {
      assert FileCovered(s.hist[i], s.l1, s.horizon);
    } else {
      assert x in s.l0[FirstSys(s.hist[i])];
    }
  }
}
