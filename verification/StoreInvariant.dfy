/** What every interleaving keeps: the L0 files still present are the newest of the
    history, every L1 file is a pruned stretch of it, and every row that left L0 or is
    hidden by a manifest is in L1 or dominated there at or below the horizon. */
module StoreInvariant {
  import opened Rows
  import opened Pruning
  import opened Merging
  import opened Store

  // ---- The invariant ---------------------------------------------------------------------

  /** Row `x` is stored in L1, or a stored L1 row supersedes it at or below the horizon. */
  ghost predicate Covered(x: Row, l1: map<int, File>, h: int) {
    exists k :: k in l1 && CoveredBy(x, l1[k], h)
  }

  predicate CoveredBy(x: Row, f: File, h: int) {
    x in f || Dominated(x, f, h)
  }

  ghost predicate FileCovered(f: File, l1: map<int, File>, h: int) {
    forall x :: x in f ==> Covered(x, l1, h)
  }

  ghost predicate RangeCovered(hist: seq<File>, a: int, b: int, l1: map<int, File>, h: int)
    requires 0 <= a <= b <= |hist|
  {
    forall i :: a <= i < b ==> FileCovered(hist[i], l1, h)
  }

  /** `l0` holds exactly the files `hist[lo..]`, each under its first system time. */
  ghost predicate L0Suffix(l0: map<int, File>, hist: seq<File>, lo: int) {
    && 0 <= lo <= |hist|
    && (forall i :: lo <= i < |hist| ==> hist[i] != [] && FirstSys(hist[i]) in l0 && l0[FirstSys(hist[i])] == hist[i])
    && (forall k :: k in l0 ==> Named(hist, lo, k))
  }

  ghost predicate Named(hist: seq<File>, lo: int, k: int)
    requires 0 <= lo
  {
    exists i :: lo <= i < |hist| && hist[i] != [] && FirstSys(hist[i]) == k
  }

  /** `keys` names the consecutive files of the history from `a` on. */
  ghost predicate Segment(keys: seq<int>, hist: seq<File>, a: int) {
    && 0 <= a && a + |keys| <= |hist|
    && (forall j :: a <= j < a + |keys| ==> hist[j] != [] && keys[j - a] == FirstSys(hist[j]))
  }

  /** An L1 file is the merge of the files `hist[a..b]`, pruned at `h`. */
  ghost predicate IsMerge(f: File, hist: seq<File>, a: int, b: int, h: int) {
    0 <= a < b <= |hist| && f == Pruned(Flat(hist[a..b]), h)
  }

  /** The L1 object `k` is such a merge, of files among the first `n`. */
  ghost predicate L1Ok(k: int, f: File, hist: seq<File>, n: int, horizon: int) {
    && f != [] && FirstSys(f) == k
    && exists a, b, h :: IsMerge(f, hist, a, b, h) && b <= n && h <= horizon
  }

  ghost predicate L1Within(l1: map<int, File>, hist: seq<File>, n: int, horizon: int) {
    forall k :: k in l1 ==> L1Ok(k, l1[k], hist, n, horizon)
  }

  ghost predicate ManifestOk(m: Manifest, s: State, lo: int) {
    exists a :: a <= lo && Segment(m.l0Keys, s.hist, a) && RangeCovered(s.hist, a, a + |m.l0Keys|, s.l1, s.horizon)
  }

  ghost predicate JobOk(s: State, lo: int) {
    match s.job
    case NoJob => true
    case Reading(listed, next, rows) =>
      exists a :: a <= lo && ReadingFrom(s, listed, next, rows, a)
    case Uploaded(listed, _) => ManifestOk(Manifest(0, listed), s, lo)
  }

  /** The job listed the files from `a` on, has read the first `next` of them, and no L1
      file holds anything flushed after the listing. */
  ghost predicate ReadingFrom(s: State, listed: seq<int>, next: nat, rows: seq<Row>, a: int) {
    && listed != [] && Segment(listed, s.hist, a) && next <= |listed|
    && rows == Flat(s.hist[a..a + next])
    && L1Within(s.l1, s.hist, a + |listed|, s.horizon)
  }

  ghost predicate ReapOk(s: State, lo: int) {
    s.reap.Deleting? ==>
      && s.reap.next <= |s.reap.l0Keys|
      && exists a :: a + s.reap.next <= lo && Segment(s.reap.l0Keys, s.hist, a)
           && RangeCovered(s.hist, a, a + |s.reap.l0Keys|, s.l1, s.horizon)
  }

  ghost predicate InvAt(s: State, lo: int) {
    && HistOk(s.hist, s.eid, s.width)
    && L0Suffix(s.l0, s.hist, lo)
    && RangeCovered(s.hist, 0, lo, s.l1, s.horizon)
    && L1Within(s.l1, s.hist, |s.hist|, s.horizon)
    && (forall mk :: mk in s.manifests ==> ManifestOk(s.manifests[mk], s, lo))
    && JobOk(s, lo)
    && ReapOk(s, lo)
  }

  ghost predicate Inv(s: State) {
    exists lo :: InvAt(s, lo)
  }

  // ---- Histories --------------------------------------------------------------------------

  lemma {:induction false} FlatMembers(files: seq<File>, x: Row)
    ensures x in Flat(files) <==> exists i :: 0 <= i < |files| && x in files[i]
  {
    if files != [] {
      var n := |files| - 1;
      FlatMembers(files[..n], x);
      if i :| 0 <= i < |files| && x in files[i] {
        assert i < n ==> x in files[..n][i];
      }
      if j :| 0 <= j < n && x in files[..n][j] {
        assert x in files[j];
      }
    }
  }

  lemma FlatSlice(hist: seq<File>, a: int, b: int, x: Row)
    requires 0 <= a <= b <= |hist|
    ensures x in Flat(hist[a..b]) <==> exists i :: a <= i < b && x in hist[i]
  {
    FlatMembers(hist[a..b], x);
    if i :| a <= i < b && x in hist[i] {
      assert hist[a..b][i - a] == hist[i];
    }
  }

  lemma FlatSnoc(hist: seq<File>, a: int, n: int)
    requires 0 <= a <= n < |hist|
    ensures Flat(hist[a..n + 1]) == Flat(hist[a..n]) + hist[n]
  {
    assert hist[a..n + 1][..n - a] == hist[a..n];
  }

  lemma {:induction false} FlatConcat(a: seq<File>, b: seq<File>)
    ensures Flat(a + b) == Flat(a) + Flat(b)
  {
    if b == [] {
      assert a + b == a;
    } else {
      FlatConcat(a, b[..|b| - 1]);
      assert (a + b)[..|a + b| - 1] == a + b[..|b| - 1];
    }
  }

  /** The files of a history, laid end to end, are in key order. */
  lemma {:induction false} FlatSorted(hist: seq<File>, eid: seq<int>, width: nat)
    requires HistOk(hist, eid, width)
    ensures KeySorted(Flat(hist))
  {
    if hist != [] {
      var n := |hist| - 1;
      var init := hist[..n];
      FlatSorted(init, eid, width);
      var a, b := Flat(init), hist[n];
      forall x, y | x in a && y in b ensures x.sysT < y.sysT && x.sysT > 0 {
        FlatMembers(init, x);
        var i :| 0 <= i < |init| && x in init[i];
        assert Before(hist[i], hist[n]) && FileOk(hist[i], eid, width);
      }
      SortedConcat(a, b);
    }
  }

  lemma SortedConcat(a: seq<Row>, b: seq<Row>)
    requires KeySorted(a) && KeySorted(b)
    requires forall x, y :: x in a && y in b ==> 0 < x.sysT < y.sysT
    ensures KeySorted(a + b)
  {
    forall i, j | 0 <= i < j < |a + b| ensures KeyLeq((a + b)[i], (a + b)[j]) {
      if i < |a| <= j {
        assert a[i] in a && b[j - |a|] in b;
      }
    }
  }

  lemma HistSlice(hist: seq<File>, eid: seq<int>, width: nat, a: int, b: int)
    requires HistOk(hist, eid, width) && 0 <= a <= b <= |hist|
    ensures HistOk(hist[a..b], eid, width)
  {
  }

  lemma KeySortedSysAscending(s: seq<Row>)
    requires KeySorted(s) && forall x :: x in s ==> x.sysT >= 0
    ensures SysAscending(s)
  {
  }

  /** A stretch of the history is already sorted, so the merge leaves it as it is. */
  lemma StretchSorted(hist: seq<File>, eid: seq<int>, width: nat, a: int, b: int)
    requires HistOk(hist, eid, width) && 0 <= a <= b <= |hist|
    ensures StableSort(Flat(hist[a..b])) == Flat(hist[a..b])
    ensures SysAscending(Flat(hist[a..b]))
  {
    HistSlice(hist, eid, width, a, b);
    FlatSorted(hist[a..b], eid, width);
    StableSortIdentity(Flat(hist[a..b]));
    forall x | x in Flat(hist[a..b]) ensures x.sysT >= 0 {
      FlatSlice(hist, a, b, x);
      var i :| a <= i < b && x in hist[i];
      assert FileOk(hist[i], eid, width);
    }
    KeySortedSysAscending(Flat(hist[a..b]));
  }

  /** In one file the first row has the least system time. */
  lemma FirstIsLeast(f: File, eid: seq<int>, width: nat, x: Row)
    requires FileOk(f, eid, width) && x in f
    ensures FirstSys(f) <= x.sysT
  {
    var i :| 0 <= i < |f| && f[i] == x;
    assert f[0] in f;
    assert i > 0 ==> KeyLeq(f[0], f[i]);
  }

  /** Rows with the same system time come from the same file. */
  lemma SameFile(hist: seq<File>, eid: seq<int>, width: nat, i: int, j: int, x: Row, y: Row)
    requires HistOk(hist, eid, width) && 0 <= i < |hist| && 0 <= j < |hist|
    requires x in hist[i] && y in hist[j] && x.sysT <= y.sysT
    ensures i <= j
  {
    assert j < i ==> Before(hist[j], hist[i]);
  }

  // ---- Coverage ----------------------------------------------------------------------------

  /** If new L1 files cover every row of the old ones, they cover all that the old covered. */
  lemma CoverageCarries(l1: map<int, File>, h: int, l1': map<int, File>, h': int, x: Row)
    requires h <= h'
    requires forall k, y :: k in l1 && y in l1[k] ==> Covered(y, l1', h')
    requires Covered(x, l1, h)
    ensures Covered(x, l1', h')
  {
    var k :| k in l1 && CoveredBy(x, l1[k], h);
    if x !in l1[k] {
      var d :| d in l1[k] && Dominates(d, x, h);
      assert Covered(d, l1', h');
      var k' :| k' in l1' && CoveredBy(d, l1'[k'], h');
      if d in l1'[k'] {
        assert Dominates(d, x, h');
      } else {
        var e :| e in l1'[k'] && Dominates(e, d, h');
        assert Dominates(e, x, h');
      }
      assert CoveredBy(x, l1'[k'], h');
    }
  }

  ghost predicate L1Kept(s: State, t: State) {
    s.horizon <= t.horizon && forall k, y :: k in s.l1 && y in s.l1[k] ==> Covered(y, t.l1, t.horizon)
  }

  lemma RangeCarries(s: State, t: State, hist: seq<File>, a: int, b: int)
    requires L1Kept(s, t) && 0 <= a <= b <= |hist| && RangeCovered(hist, a, b, s.l1, s.horizon)
    ensures RangeCovered(hist, a, b, t.l1, t.horizon)
  {
    forall i, x | a <= i < b && x in hist[i] ensures Covered(x, t.l1, t.horizon) {
      assert FileCovered(hist[i], s.l1, s.horizon);
      CoverageCarries(s.l1, s.horizon, t.l1, t.horizon, x);
    }
  }

  lemma L1Unchanged(s: State, t: State)
    requires s.l1 == t.l1 && s.horizon <= t.horizon
    ensures L1Kept(s, t)
  {
    forall k, y | k in s.l1 && y in s.l1[k] ensures Covered(y, t.l1, t.horizon) {
      assert CoveredBy(y, t.l1[k], t.horizon);
    }
  }
}
