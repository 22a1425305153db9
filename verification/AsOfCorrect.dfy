/** In every reachable state, for every query at or above the horizon, the point query
    returns the row that a scan of everything ever flushed would return. */
module AsOfCorrect {
  import opened Basics
  import opened Rows
  import opened Pruning
  import opened Store
  import opened StoreInvariant
  import opened StoreSafety
  import opened Resolver
  import opened TailFiles

  /** The answer over the whole history of the directory. */
  function Truth(s: State, q: Query): Option<Row> {
    Scan(Flat(s.hist), q)
  }

  /** The same with the live rows after it. */
  function LiveTruth(s: State, q: Query, live: Option<seq<Row>>): Option<Row> {
    Scan(Flat(s.hist) + (if live.Some? then Stamped(live.value, q.eid) else []), q)
  }

  /** A scanned file's own best is the truth or strictly older. */
  predicate Fits(found: Option<Row>, truth: Option<Row>) {
    found.Some? ==> truth.Some? && (found == truth || found.value.sysT < truth.value.sysT)
  }

  lemma {:induction false} FoldFinds(s: State, order: seq<Object>, q: Query, cfg: Config, truth: Option<Row>)
    requires forall o :: o in order && Stored(s, o) ==> Fits(Scan(Content(s, o), q), truth)
    ensures Fits(ScanObjects(s, order, q, cfg), truth)
    ensures (exists o :: o in order && Stored(s, o) && !Skips(o.key, cfg, q.txTime) && Scan(Content(s, o), q) == truth)
            ==> ScanObjects(s, order, q, cfg) == truth
  {
    if order != [] {
      var init, last := order[..|order| - 1], order[|order| - 1];
      assert order == init + [last];
      FoldFinds(s, init, q, cfg, truth);
      if Stored(s, last) {
        ScanPositive(Content(s, last), q);
      }
    }
  }

  /** If no tied row lies outside a slice, the slice alone gives the answer. */
  lemma ScanSlice(all: seq<Row>, x: int, y: int, q: Query)
    requires 0 <= x <= y <= |all| && Scan(all, q).Some?
    requires forall j :: (0 <= j < x || y <= j < |all|) && Eligible(all[j], q) ==> all[j].sysT != Scan(all, q).value.sysT
    ensures Scan(all[x..y], q) == Scan(all, q)
  {
    var t := Scan(all, q);
    ScanIsAnswer(all, q);
    var i :| FirstBestAt(all, q, i) && all[i] == t.value;
    FirstBestSlice(all, q, i, x, y);
    ScanIsAnswer(all[x..y], q);
    AnswerUnique(all[x..y], q, t, Scan(all[x..y], q));
  }

  lemma FirstBestSlice(all: seq<Row>, q: Query, i: int, x: int, y: int)
    requires FirstBestAt(all, q, i) && 0 <= x <= i < y <= |all|
    ensures FirstBestAt(all[x..y], q, i - x)
  {
  }

  lemma TruthBounds(s: State, q: Query, p: int, x: Row)
    requires 0 <= p < |s.hist| && x in s.hist[p] && Eligible(x, q)
    ensures Truth(s, q).Some? && x.sysT <= Truth(s, q).value.sysT
  {
    FlatMembers(s.hist, x);
    BestBounds(Flat(s.hist), q, x);
  }

  lemma TruthFile(s: State, q: Query) returns (p: int)
    requires Truth(s, q).Some?
    ensures 0 <= p < |s.hist| && Truth(s, q).value in s.hist[p] && Eligible(Truth(s, q).value, q)
  {
    ScanPositive(Flat(s.hist), q);
    FlatMembers(s.hist, Truth(s, q).value);
    p :| 0 <= p < |s.hist| && Truth(s, q).value in s.hist[p];
  }

  lemma Cut(hist: seq<File>, a: int, b: int)
    requires 0 <= a <= b <= |hist|
    ensures Flat(hist) == Flat(hist[..a]) + (Flat(hist[a..b]) + Flat(hist[b..]))
  {
    ThreeParts(hist, a, b);
    FlatJoin(hist[..a], hist[a..b], hist[b..], hist);
  }

  lemma ThreeParts(hist: seq<File>, a: int, b: int)
    requires 0 <= a <= b <= |hist|
    ensures hist == hist[..a] + (hist[a..b] + hist[b..])
  {
  }

  lemma FlatJoin(u: seq<File>, m: seq<File>, w: seq<File>, hist: seq<File>)
    requires hist == u + (m + w)
    ensures Flat(hist) == Flat(u) + (Flat(m) + Flat(w))
  {
    FlatConcat(u, m + w);
    FlatConcat(m, w);
  }

  /** A stretch of the history that holds the file of the true answer answers alike. */
  lemma StretchHit(s: State, q: Query, a: int, b: int, p: int)
    requires HistOk(s.hist, s.eid, s.width) && 0 <= a <= p < b <= |s.hist|
    requires Truth(s, q).Some? && Truth(s, q).value in s.hist[p]
    ensures Scan(Flat(s.hist[a..b]), q) == Truth(s, q)
  {
    var r := Truth(s, q).value;
    var u, m, w := Flat(s.hist[..a]), Flat(s.hist[a..b]), Flat(s.hist[b..]);
    Cut(s.hist, a, b);
    forall x | x in u || x in w ensures x.sysT != r.sysT {
      var i := OutsideFile(s.hist, a, b, x);
      DifferentFile(s, i, p, x, r);
    }
    ScanMiddle(u, m, w, Flat(s.hist), q);
  }

  lemma ScanMiddle(u: seq<Row>, m: seq<Row>, w: seq<Row>, all: seq<Row>, q: Query)
    requires all == u + (m + w) && Scan(all, q).Some?
    requires forall x :: x in u || x in w ==> x.sysT != Scan(all, q).value.sysT
    ensures Scan(m, q) == Scan(all, q)
  {
    var x, y := |u|, |u| + |m|;
    assert all[x..y] == m;
    forall j | 0 <= j < x || y <= j < |all| ensures all[j].sysT != Scan(all, q).value.sysT {
      assert all[j] == if j < x then u[j] else w[j - y];
    }
    ScanSlice(all, x, y, q);
  }

  lemma DifferentFile(s: State, i: int, p: int, x: Row, y: Row)
    requires HistOk(s.hist, s.eid, s.width) && 0 <= i < |s.hist| && 0 <= p < |s.hist| && i != p
    requires x in s.hist[i] && y in s.hist[p]
    ensures x.sysT != y.sysT
  {
    if x.sysT == y.sysT {
      SameFile(s.hist, s.eid, s.width, i, p, x, y);
      SameFile(s.hist, s.eid, s.width, p, i, y, x);
    }
  }

  lemma OutsideFile(hist: seq<File>, a: int, b: int, x: Row) returns (i: int)
    requires 0 <= a <= b <= |hist| && (x in Flat(hist[..a]) || x in Flat(hist[b..]))
    ensures 0 <= i < |hist| && x in hist[i] && !(a <= i < b)
  {
    if x in Flat(hist[..a]) {
      FlatMembers(hist[..a], x);
      i :| 0 <= i < |hist[..a]| && x in hist[..a][i];
    } else {
      FlatMembers(hist[b..], x);
      var j :| 0 <= j < |hist[b..]| && x in hist[b..][j];
      i := j + b;
    }
  }

  /** Any stretch answers with the truth or with something strictly older. */
  lemma StretchFits(s: State, q: Query, a: int, b: int)
    requires HistOk(s.hist, s.eid, s.width) && 0 <= a <= b <= |s.hist|
    ensures Fits(Scan(Flat(s.hist[a..b]), q), Truth(s, q))
  {
    var found := Scan(Flat(s.hist[a..b]), q);
    if found.Some? {
      ScanPositive(Flat(s.hist[a..b]), q);
      FlatSlice(s.hist, a, b, found.value);
      var i :| a <= i < b && found.value in s.hist[i];
      TruthBounds(s, q, i, found.value);
      var p := TruthFile(s, q);
      if found.value.sysT == Truth(s, q).value.sysT {
        assert i == p by {
          if i != p {
            DifferentFile(s, i, p, found.value, Truth(s, q).value);
          }
        }
        StretchHit(s, q, a, b, p);
      }
    }
  }

  lemma StretchOneEntity(s: State, a: int, b: int)
    requires HistOk(s.hist, s.eid, s.width) && 0 <= a <= b <= |s.hist|
    ensures OneEntity(Flat(s.hist[a..b]))
  {
    forall x | x in Flat(s.hist[a..b]) ensures x.eid == s.eid {
      FlatSlice(s.hist, a, b, x);
      var i :| a <= i < b && x in s.hist[i];
      assert FileOk(s.hist[i], s.eid, s.width);
    }
  }

  ghost predicate InHist(hist: seq<File>, x: Row) {
    exists j :: 0 <= j < |hist| && x in hist[j]
  }

  /** Whatever is asked at or above the horizon, the file answers with the truth or with
      something strictly older. */
  ghost predicate FitsAll(s: State, f: File) {
    forall q: Query :: q.txTime >= s.horizon ==> Fits(Scan(f, q), Truth(s, q))
  }

  /** An L1 object that queries may rely on. */
  ghost predicate Answers(s: State, k: int) {
    k in s.l1 && FitsAll(s, s.l1[k]) && forall x :: x in s.l1[k] ==> k <= x.sysT && InHist(s.hist, x)
  }

  /** What queries need of a directory: L0 holds the newest files, L1 covers the others and
      those that a manifest hides, and each of its objects answers. */
  ghost predicate AnsweringAt(s: State, lo: int) {
    && HistOk(s.hist, s.eid, s.width)
    && L0Suffix(s.l0, s.hist, lo)
    && RangeCovered(s.hist, 0, lo, s.l1, s.horizon)
    && (forall k :: k in s.l1 ==> Answers(s, k))
    && (forall mk :: mk in s.manifests ==> ManifestOk(s.manifests[mk], s, lo))
  }

  ghost predicate Answering(s: State) {
    exists lo :: AnsweringAt(s, lo)
  }

  /** A merge of a stretch, pruned at or below the horizon, answers. */
  lemma MergeAnswers(s: State, k: int)
    requires HistOk(s.hist, s.eid, s.width) && k in s.l1 && L1Ok(k, s.l1[k], s.hist, |s.hist|, s.horizon)
    ensures Answers(s, k)
  {
    forall q: Query | q.txTime >= s.horizon ensures Fits(Scan(s.l1[k], q), Truth(s, q)) {
      MergeFits(s, q, k);
    }
    var a, b, g :| IsMerge(s.l1[k], s.hist, a, b, g) && b <= |s.hist| && g <= s.horizon;
    forall x | x in s.l1[k] ensures k <= x.sysT && InHist(s.hist, x) {
      var i := MergeRow(s.hist, s.eid, s.width, s.l1[k], a, b, g, x);
    }
  }

  lemma InvAnswering(s: State)
    requires Inv(s)
    ensures Answering(s)
  {
    var lo :| InvAt(s, lo);
    forall k | k in s.l1 ensures Answers(s, k) {
      MergeAnswers(s, k);
    }
    assert AnsweringAt(s, lo);
  }

  /** Every stored object fits: an L0 file is one file of the history, an L1 object answers. */
  lemma ObjectFits(s: State, lo: int, q: Query, o: Object)
    requires AnsweringAt(s, lo) && Stored(s, o) && q.txTime >= s.horizon
    ensures Fits(Scan(Content(s, o), q), Truth(s, q))
  {
    match o
    case InL0(k) =>
      assert Named(s.hist, lo, k);
      var i :| lo <= i < |s.hist| && s.hist[i] != [] && FirstSys(s.hist[i]) == k;
      FileFits(s, q, i);
    case InL1(k) =>
      assert Answers(s, k);
  }

  lemma FileFits(s: State, q: Query, i: int)
    requires HistOk(s.hist, s.eid, s.width) && 0 <= i < |s.hist|
    ensures Fits(Scan(s.hist[i], q), Truth(s, q))
  {
    OneFile(s.hist, i);
    StretchFits(s, q, i, i + 1);
  }

  lemma MergeFits(s: State, q: Query, k: int)
    requires HistOk(s.hist, s.eid, s.width) && q.txTime >= s.horizon
    requires k in s.l1 && L1Ok(k, s.l1[k], s.hist, |s.hist|, s.horizon)
    ensures Fits(Scan(s.l1[k], q), Truth(s, q))
  {
    var a, b, g :| IsMerge(s.l1[k], s.hist, a, b, g) && b <= |s.hist| && g <= s.horizon;
    StretchOneEntity(s, a, b);
    PruneKeepsAnswer(Flat(s.hist[a..b]), g, q);
    StretchFits(s, q, a, b);
  }

  lemma OneFile(hist: seq<File>, i: int)
    requires 0 <= i < |hist|
    ensures Flat(hist[i..i + 1]) == hist[i]
  {
    assert hist[i..i + 1] == [hist[i]] && [hist[i]][..0] == [];
    assert Flat([hist[i]]) == [] + hist[i];
  }

  // ---- The file of the true answer is scanned ---------------------------------------------

  /** The true answer is not dominated by anything stored in L1 at or below the horizon, so
      being covered means being stored. */
  lemma CoveredTruthStored(s: State, lo: int, q: Query) returns (k: int)
    requires AnsweringAt(s, lo) && q.txTime >= s.horizon && q.eid == s.eid
    requires Truth(s, q).Some? && Covered(Truth(s, q).value, s.l1, s.horizon)
    ensures k in s.l1 && Truth(s, q).value in s.l1[k]
  {
    var r := Truth(s, q).value;
    k :| k in s.l1 && CoveredBy(r, s.l1[k], s.horizon);
    assert Answers(s, k);
    var p := TruthFile(s, q);
    if d :| d in s.l1[k] && Dominates(d, r, s.horizon) {
      NoneDominates(s, q, r, d);
    }
  }

  /** An L1 object that holds the true answer answers with it. */
  lemma StoredTruth(s: State, lo: int, q: Query, k: int)
    requires AnsweringAt(s, lo) && q.txTime >= s.horizon
    requires Truth(s, q).Some? && k in s.l1 && Truth(s, q).value in s.l1[k]
    ensures Scan(s.l1[k], q) == Truth(s, q) && k <= Truth(s, q).value.sysT
  {
    assert Answers(s, k);
    var p := TruthFile(s, q);
    BestBounds(s.l1[k], q, Truth(s, q).value);
  }

  lemma NoneDominates(s: State, q: Query, r: Row, d: Row)
    requires HistOk(s.hist, s.eid, s.width) && q.txTime >= s.horizon && q.eid == s.eid
    requires Truth(s, q) == Some(r) && Eligible(r, q) && InHist(s.hist, d)
    ensures !Dominates(d, r, s.horizon)
  {
    var j :| 0 <= j < |s.hist| && d in s.hist[j];
    assert FileOk(s.hist[j], s.eid, s.width);
    if Dominates(d, r, s.horizon) {
      TruthBounds(s, q, j, d);
    }
  }

  lemma {:induction false} SupersededOrigin(manifests: map<int, Manifest>, listed: seq<int>, cfg: Config, txTime: int, k: int)
    returns (mk: int)
    requires k in Superseded(manifests, listed, cfg, txTime)
    ensures mk in manifests && k in manifests[mk].l0Keys
  {
    var last := listed[|listed| - 1];
    if last in manifests && k in manifests[last].l0Keys {
      mk := last;
    } else {
      mk := SupersededOrigin(manifests, listed[..|listed| - 1], cfg, txTime, k);
    }
  }

  /** A file that a manifest hides has all its rows covered by L1. */
  lemma HiddenCovered(s: State, lo: int, mk: int, p: int)
    requires AnsweringAt(s, lo) && mk in s.manifests && 0 <= p < |s.hist| && s.hist[p] != []
    requires FirstSys(s.hist[p]) in s.manifests[mk].l0Keys
    ensures FileCovered(s.hist[p], s.l1, s.horizon)
  {
    var keys := s.manifests[mk].l0Keys;
    var a :| a <= lo && Segment(keys, s.hist, a) && RangeCovered(s.hist, a, a + |keys|, s.l1, s.horizon);
    var i :| 0 <= i < |keys| && keys[i] == FirstSys(s.hist[p]);
    assert keys[i] == FirstSys(s.hist[a + i]);
    KeyOrder(s, a + i, p);
  }

  lemma TruthInFile(s: State, q: Query, p: int)
    requires HistOk(s.hist, s.eid, s.width) && 0 <= p < |s.hist|
    requires Truth(s, q).Some? && Truth(s, q).value in s.hist[p]
    ensures s.hist[p] != [] && Scan(s.hist[p], q) == Truth(s, q) && FirstSys(s.hist[p]) <= Truth(s, q).value.sysT
  {
    OneFile(s.hist, p);
    StretchHit(s, q, p, p + 1, p);
    FirstIsLeast(s.hist[p], s.eid, s.width, Truth(s, q).value);
  }

  // ---- The files that are taken --------------------------------------------------------------

  lemma CappedSome(tail: seq<int>, max: int)
    requires Capped(tail, max) == []
    ensures tail == []
  {
  }

  /** When there is no L1 object, nothing in L0 is hidden. */
  lemma NothingHidden(s: State, lo: int, cfg: Config, txTime: int, p: int)
    requires AnsweringAt(s, lo) && 0 <= p < |s.hist| && s.hist[p] != [] && Hidden(s, cfg, txTime, FirstSys(s.hist[p]))
    ensures exists k :: k in s.l1
  {
    var mk :| mk in s.manifests && !(cfg.firstSysSkip && 0 <= mk && txTime < mk)
              && FirstSys(s.hist[p]) in s.manifests[mk].l0Keys;
    HiddenCovered(s, lo, mk, p);
    assert Covered(s.hist[p][0], s.l1, s.horizon);
  }

  /** A query takes an L0 file exactly when it is one of the newest that no manifest hides, as
      many as the cap allows, and every L1 object. */
  lemma OrderTakes(s: State, lo: int, q: Query, cfg: Config, ls: Listings, p: int)
    requires AnsweringAt(s, lo) && ListingsOf(ls, s) && 0 <= p < |s.hist|
    ensures s.hist[p] != [] && (InL0(FirstSys(s.hist[p])) in Order(s, q, cfg, ls) <==> Recent(s, cfg, q.txTime, p))
    ensures forall k :: k in s.l1 <==> InL1(k) in Order(s, q, cfg, ls)
  {
    assert FileOk(s.hist[p], s.eid, s.width);
    var key, tail := FirstSys(s.hist[p]), QueryTail(s, q, cfg, ls);
    var capped := Capped(tail, cfg.maxL0Files);
    ScanOrderMembers(ls, capped);
    CappedIsRecent(s, lo, q, cfg, ls, p);
    ListsAll(ls.l1, s.l1);
    ListsAll(ls.l0, s.l0);
    if ls.l1 == [] && capped == [] && key in ls.l0 {
      CappedSome(tail, cfg.maxL0Files);
      EmptyTail(s, lo, q, cfg, ls, p);
    }
  }

  lemma EmptyTail(s: State, lo: int, q: Query, cfg: Config, ls: Listings, p: int)
    requires AnsweringAt(s, lo) && ListingsOf(ls, s) && 0 <= p < |s.hist| && s.hist[p] != [] && FirstSys(s.hist[p]) in s.l0
    requires QueryTail(s, q, cfg, ls) == []
    ensures ls.l1 != []
  {
    ListsAll(ls.l1, s.l1);
    ListsAll(ls.l0, s.l0);
    TailMembers(ls.l0, Superseded(s.manifests, ls.manifests, cfg, q.txTime));
    HiddenIff(s, cfg, q.txTime, ls.manifests, FirstSys(s.hist[p]));
    NothingHidden(s, lo, cfg, q.txTime, p);
  }

  ghost predicate StoredInL1(s: State, r: Row) {
    exists k :: k in s.l1 && r in s.l1[k]
  }

  /** The true answer is stored in L1 or lies in one of the files that are taken. */
  ghost predicate Reached(s: State, q: Query, cfg: Config) {
    Truth(s, q).Some? ==>
      StoredInL1(s, Truth(s, q).value) || exists p :: Recent(s, cfg, q.txTime, p) && Truth(s, q).value in s.hist[p]
  }

  /** Some object that the query takes answers with the truth. */
  lemma TruthScanned(s: State, lo: int, q: Query, cfg: Config, ls: Listings) returns (o: Object)
    requires AnsweringAt(s, lo) && q.txTime >= s.horizon && ListingsOf(ls, s) && Truth(s, q).Some? && Reached(s, q, cfg)
    ensures o in Order(s, q, cfg, ls) && Stored(s, o)
    ensures Scan(Content(s, o), q) == Truth(s, q) && !Skips(o.key, cfg, q.txTime)
  {
    var r := Truth(s, q).value;
    var at := TruthFile(s, q);
    if StoredInL1(s, r) {
      var k :| k in s.l1 && r in s.l1[k];
      o := InL1(k);
      OrderTakes(s, lo, q, cfg, ls, at);
      StoredTruth(s, lo, q, k);
    } else {
      var p :| Recent(s, cfg, q.txTime, p) && r in s.hist[p];
      o := InL0(FirstSys(s.hist[p]));
      OrderTakes(s, lo, q, cfg, ls, p);
      NamedFile(s, lo, p, FirstSys(s.hist[p]));
      TruthInFile(s, q, p);
    }
  }

  predicate Opened(s: State, o: Object, cfg: Config, txTime: int) {
    Stored(s, o) && !Skips(o.key, cfg, txTime)
  }

  lemma {:induction false} DurableOrigin(s: State, order: seq<Object>, q: Query, cfg: Config) returns (o: Object)
    requires ScanObjects(s, order, q, cfg).Some?
    ensures o in order && Opened(s, o, cfg, q.txTime)
    ensures ScanObjects(s, order, q, cfg).value in Content(s, o) && Visible(ScanObjects(s, order, q, cfg).value, q)
  {
    var init, last := order[..|order| - 1], order[|order| - 1];
    assert order == init + [last];
    if Opened(s, last, cfg, q.txTime) && ScanObjects(s, order, q, cfg) != ScanObjects(s, init, q, cfg) {
      o := last;
      ScanPositive(Content(s, last), q);
    } else {
      o := DurableOrigin(s, init, q, cfg);
    }
  }

  /** An answer that is the truth was reached. */
  lemma AnsweredReached(s: State, lo: int, q: Query, cfg: Config, ls: Listings)
    requires AnsweringAt(s, lo) && ListingsOf(ls, s) && Durable(s, q, cfg, ls) == Truth(s, q)
    ensures Reached(s, q, cfg)
  {
    if Truth(s, q).Some? {
      var r := Truth(s, q).value;
      var p := TruthFile(s, q);
      var o := DurableOrigin(s, Order(s, q, cfg, ls), q, cfg);
      if o.InL0? {
        assert Named(s.hist, lo, o.key);
        var j :| lo <= j < |s.hist| && s.hist[j] != [] && FirstSys(s.hist[j]) == o.key;
        OrderTakes(s, lo, q, cfg, ls, j);
      }
    }
  }

  /** The durable scan returns the truth exactly when that is reached: no tail is too long for
      it, only one whose newest files and the L1 objects lack the true row. */
  lemma DurableIsTruthIff(s: State, q: Query, cfg: Config, ls: Listings)
    requires Answering(s) && q.txTime >= s.horizon && ListingsOf(ls, s)
    ensures Durable(s, q, cfg, ls) == Truth(s, q) <==> Reached(s, q, cfg)
  {
    var lo :| AnsweringAt(s, lo);
    if Reached(s, q, cfg) {
      var order := Order(s, q, cfg, ls);
      forall o | o in order && Stored(s, o) ensures Fits(Scan(Content(s, o), q), Truth(s, q)) {
        ObjectFits(s, lo, q, o);
      }
      FoldFinds(s, order, q, cfg, Truth(s, q));
      if Truth(s, q).Some? {
        var o := TruthScanned(s, lo, q, cfg, ls);
      }
    }
    if Durable(s, q, cfg, ls) == Truth(s, q) {
      AnsweredReached(s, lo, q, cfg, ls);
    }
  }

  /** The tail stays under the cap. */
  predicate TailFits(s: State, q: Query, cfg: Config, ls: Listings) {
    cfg.maxL0Files <= 0 || |QueryTail(s, q, cfg, ls)| <= cfg.maxL0Files
  }

  /** Then the truth is reached whatever it is. */
  lemma FittingReached(s: State, q: Query, cfg: Config, ls: Listings)
    requires Answering(s) && q.txTime >= s.horizon && q.eid == s.eid && ListingsOf(ls, s) && TailFits(s, q, cfg, ls)
    ensures Reached(s, q, cfg)
  {
    if Truth(s, q).Some? {
      var lo :| AnsweringAt(s, lo);
      var p := TruthFile(s, q);
      assert FileOk(s.hist[p], s.eid, s.width);
      if !Recent(s, cfg, q.txTime, p) {
        LeftToL1(s, lo, q, cfg, ls, p);
        var k := CoveredTruthStored(s, lo, q);
      }
    }
  }

  /** With a tail under the cap, a file that is not taken is covered. */
  lemma LeftToL1(s: State, lo: int, q: Query, cfg: Config, ls: Listings, p: int)
    requires AnsweringAt(s, lo) && ListingsOf(ls, s) && TailFits(s, q, cfg, ls) && 0 <= p < |s.hist| && s.hist[p] != []
    requires !Recent(s, cfg, q.txTime, p)
    ensures FileCovered(s.hist[p], s.l1, s.horizon)
  {
    var key := FirstSys(s.hist[p]);
    CappedIsRecent(s, lo, q, cfg, ls, p);
    ListsAll(ls.l0, s.l0);
    TailMembers(ls.l0, Superseded(s.manifests, ls.manifests, cfg, q.txTime));
    if p >= lo {
      assert key in s.l0 && key in ls.l0;
      var mk := SupersededOrigin(s.manifests, ls.manifests, cfg, q.txTime, key);
      HiddenCovered(s, lo, mk, p);
    }
  }

  /** The point query agrees with scanning everything ever flushed, then the live entries:
      the identical row, ties included, with the skips on or off. */
  lemma AsOfIsTruth(s: State, q: Query, cfg: Config, ls: Listings, live: Option<seq<Row>>)
    requires Answering(s) && q.txTime >= s.horizon && ListingsOf(ls, s) && Reached(s, q, cfg)
    ensures AsOfAnswer(s, q, cfg, ls, live) == LiveTruth(s, q, live)
  {
    DurableIsTruthIff(s, q, cfg, ls);
    if live.Some? {
      ScanOntoConcat(Flat(s.hist), Stamped(live.value, q.eid), q);
    } else {
      assert Flat(s.hist) + [] == Flat(s.hist);
    }
  }

  // ---- What the answer is ----------------------------------------------------------------------

  /** A row that was flushed, or a live one under the queried id. */
  ghost predicate Known(s: State, q: Query, live: Option<seq<Row>>, x: Row) {
    || (exists j :: 0 <= j < |s.hist| && x in s.hist[j])
    || (live.Some? && exists i :: 0 <= i < |live.value| && x == live.value[i].(eid := q.eid))
  }

  predicate Admits(q: Query, x: Row) {
    x.eid == q.eid && 0 < x.sysT <= q.txTime && x.vs <= q.validTime < x.ve
  }

  /** The answer is an admitted row of those with the greatest system time, and there is none
      exactly when none is admitted. */
  ghost predicate AnswerMeans(s: State, q: Query, live: Option<seq<Row>>, a: Option<Row>) {
    match a
    case None => forall x :: Known(s, q, live, x) ==> !Admits(q, x)
    case Some(r) => Known(s, q, live, r) && Admits(q, r) && forall x :: Known(s, q, live, x) && Admits(q, x) ==> x.sysT <= r.sysT
  }

  lemma KnownMember(s: State, q: Query, live: Option<seq<Row>>, x: Row)
    ensures Known(s, q, live, x) <==> x in Flat(s.hist) + (if live.Some? then Stamped(live.value, q.eid) else [])
  {
    FlatMembers(s.hist, x);
    if live.Some? {
      var stamped := Stamped(live.value, q.eid);
      if i :| 0 <= i < |live.value| && x == live.value[i].(eid := q.eid) {
        assert stamped[i] == x;
      }
      if x in stamped {
        var i :| 0 <= i < |stamped| && stamped[i] == x;
      }
    }
  }

  lemma TruthMeans(s: State, q: Query, live: Option<seq<Row>>)
    ensures AnswerMeans(s, q, live, LiveTruth(s, q, live))
  {
    var all := Flat(s.hist) + (if live.Some? then Stamped(live.value, q.eid) else []);
    forall x ensures Known(s, q, live, x) <==> x in all {
      KnownMember(s, q, live, x);
    }
    ScanPositive(all, q);
    forall x | x in all && Admits(q, x) ensures Scan(all, q).Some? && x.sysT <= Scan(all, q).value.sysT {
      BestBounds(all, q, x);
    }
  }

  /** Over every run of flushes, compactions under a rising horizon and reaper sweeps that
      may stop anywhere, whose compaction reads succeed, the query keeps its answer. */
  lemma AnswersSurviveRuns(eid: seq<int>, width: nat, h: int, acts: seq<Action>,
                           q: Query, cfg: Config, ls: Listings, live: Option<seq<Row>>)
    requires Exec(Init(eid, width, h), acts).Some? && ReadsSucceed(acts)
    requires var s := Exec(Init(eid, width, h), acts).value; q.txTime >= s.horizon && ListingsOf(ls, s) && Reached(s, q, cfg)
    ensures var s := Exec(Init(eid, width, h), acts).value;
            && AsOfAnswer(s, q, cfg, ls, live) == LiveTruth(s, q, live)
            && AnswerMeans(s, q, live, AsOfAnswer(s, q, cfg, ls, live))
  {
    var s := Exec(Init(eid, width, h), acts).value;
    RunKeeps(eid, width, h, acts);
    InvAnswering(s);
    AsOfIsTruth(s, q, cfg, ls, live);
    TruthMeans(s, q, live);
  }

  lemma {:induction false} RunEntity(s: State, acts: seq<Action>)
    requires Exec(s, acts).Some?
    ensures Exec(s, acts).value.eid == s.eid
  {
    if acts != [] {
      RunEntity(s, acts[..|acts| - 1]);
    }
  }
}
