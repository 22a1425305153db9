/** A query whose listings and downloads are not of one moment: L1 is listed first, then L0,
    then the files are downloaded, and the directory may change in between. */
module Interleaved {
  import opened Basics
  import opened Rows
  import opened Pruning
  import opened Merging
  import opened Store
  import opened StoreInvariant
  import opened StoreSafety
  import opened Resolver
  import opened AsOfCorrect
  import opened FailedReads
  import opened PartialAnswers

  // ---- What the answer can be -------------------------------------------------------------------

  predicate NoOlder(found: Option<Row>, than: Option<Row>) {
    than.Some? ==> found.Some? && than.value.sysT <= found.value.sysT
  }

  /** The fold is no older than anything that a downloaded file answers. */
  lemma {:induction false} FoldNoOlder(s: State, order: seq<Object>, q: Query, cfg: Config, o: Object)
    requires o in order && Stored(s, o) && !Skips(o.key, cfg, q.txTime)
    ensures NoOlder(ScanObjects(s, order, q, cfg), Scan(Content(s, o), q))
  {
    var init, last := order[..|order| - 1], order[|order| - 1];
    ScanPositive(Content(s, o), q);
    if o in init {
      FoldNoOlder(s, init, q, cfg, o);
    } else {
      assert o == last;
    }
  }

  /** A name of a file flushed before the run is in L0 after it only if it was before. */
  lemma {:induction false} OldNames(s: State, acts: seq<Action>, i: int)
    requires Exec(s, acts).Some? && 0 <= i < |s.hist| && s.hist[i] != []
    requires FirstSys(s.hist[i]) in Exec(s, acts).value.l0
    ensures FirstSys(s.hist[i]) in s.l0
  {
    if acts != [] {
      var init := acts[..|acts| - 1];
      var mid := Exec(s, init).value;
      HistPrefix(s, init);
      OldNameStep(mid, acts[|acts| - 1], i);
      OldNames(s, init, i);
    }
  }

  lemma OldNameStep(s: State, a: Action, i: int)
    requires Enabled(s, a) && 0 <= i < |s.hist| && s.hist[i] != [] && FirstSys(s.hist[i]) in Apply(s, a).l0
    ensures FirstSys(s.hist[i]) in s.l0
  {
    if a.Flush? {
      assert Before(s.hist[i], a.file) && s.hist[i][0] in s.hist[i] && a.file[0] in a.file;
    }
  }

  lemma {:induction false} HistPrefix(s: State, acts: seq<Action>)
    requires Exec(s, acts).Some?
    ensures s.hist <= Exec(s, acts).value.hist
  {
    if acts != [] {
      HistPrefix(s, acts[..|acts| - 1]);
    }
  }

  // ---- What the query sees ---------------------------------------------------------------------

  predicate Downloads(t: State, q: Query, cfg: Config, ls: Listings, f: File) {
    f != [] && FirstSys(f) in t.l0 && InL0(FirstSys(f)) in Order(t, q, cfg, ls)
  }

  /** The stored L1 objects that were listed. */
  function ListedL1(t: State, ls: Listings): map<int, File> {
    map k | k in t.l1 && k in ls.l1 :: t.l1[k]
  }

  /** Every file of `hist` that is not downloaded from L0 is covered by the listed objects of
      L1. Neither the cap on the tail nor the moment of any listing matters otherwise. */
  ghost predicate Sees(hist: seq<File>, t: State, q: Query, cfg: Config, ls: Listings) {
    forall p :: 0 <= p < |hist| && !Downloads(t, q, cfg, ls, hist[p]) ==>
                  FileCovered(hist[p], ListedL1(t, ls), t.horizon)
  }

  /** A row that the listed objects of L1 cover has a stored row that answers no older. */
  lemma CoveredAnswered(t: State, lo: int, q: Query, ls: Listings, r: Row) returns (k: int)
    requires AnsweringAt(t, lo) && q.txTime >= t.horizon && q.eid == t.eid && Eligible(r, q)
    requires Covered(r, ListedL1(t, ls), t.horizon)
    ensures k in t.l1 && k in ls.l1 && NoOlder(Scan(t.l1[k], q), Some(r)) && k <= q.txTime
  {
    k :| k in ListedL1(t, ls) && CoveredBy(r, ListedL1(t, ls)[k], t.horizon);
    assert Answers(t, k);
    var d := if r in t.l1[k] then r else DominatorIn(r, t.l1[k], t.horizon);
    var j :| 0 <= j < |t.hist| && d in t.hist[j];
    assert FileOk(t.hist[j], t.eid, t.width);
    BestBounds(t.l1[k], q, d);
  }

  ghost function DominatorIn(r: Row, f: File, h: int): (d: Row)
    requires Dominated(r, f, h)
    ensures d in f && Dominates(d, r, h)
  {
    var d :| d in f && Dominates(d, r, h);
    d
  }

  /** A row of a file that the query sees is answered by some object it takes. */
  lemma SeenAnswered(t: State, lo: int, q: Query, cfg: Config, ls: Listings, p: int, r: Row) returns (o: Object)
    requires AnsweringAt(t, lo) && q.txTime >= t.horizon && q.eid == t.eid
    requires 0 <= p < |t.hist| && r in t.hist[p] && Eligible(r, q)
    requires Downloads(t, q, cfg, ls, t.hist[p]) || FileCovered(t.hist[p], ListedL1(t, ls), t.horizon)
    ensures o in Order(t, q, cfg, ls) && Stored(t, o) && !Skips(o.key, cfg, q.txTime)
    ensures NoOlder(Scan(Content(t, o), q), Some(r))
  {
    if Downloads(t, q, cfg, ls, t.hist[p]) {
      var key := FirstSys(t.hist[p]);
      o := InL0(key);
      NamedFile(t, lo, p, key);
      BestBounds(t.hist[p], q, r);
      FirstIsLeast(t.hist[p], t.eid, t.width, r);
    } else {
      var k := CoveredAnswered(t, lo, q, ls, r);
      o := InL1(k);
      ScanOrderMembers(ls, Capped(QueryTail(t, q, cfg, ls), cfg.maxL0Files));
    }
  }

  lemma TruthReached(s: State, t: State, lo: int, q: Query, cfg: Config, ls: Listings)
    requires AnsweringAt(t, lo) && s.hist <= t.hist && q.txTime >= t.horizon && q.eid == t.eid
    requires Sees(s.hist, t, q, cfg, ls)
    ensures NoOlder(Durable(t, q, cfg, ls), Truth(s, q))
  {
    if Truth(s, q).Some? {
      var p := TruthFile(s, q);
      assert t.hist[p] == s.hist[p];
      var o := SeenAnswered(t, lo, q, cfg, ls, p, Truth(s, q).value);
      FoldNoOlder(t, Order(t, q, cfg, ls), q, cfg, o);
    }
  }

  lemma DurableFits(t: State, lo: int, q: Query, cfg: Config, ls: Listings)
    requires AnsweringAt(t, lo) && q.txTime >= t.horizon
    ensures Fits(Durable(t, q, cfg, ls), Truth(t, q))
  {
    var order := Order(t, q, cfg, ls);
    forall o | o in order && Stored(t, o) ensures Fits(Scan(Content(t, o), q), Truth(t, q)) {
      ObjectFits(t, lo, q, o);
    }
    FoldFinds(t, order, q, cfg, Truth(t, q));
  }

  // ---- Live rows ---------------------------------------------------------------------------------

  predicate Positive(r: Option<Row>) {
    r.Some? ==> r.value.sysT > 0
  }

  lemma {:induction false} FoldPositive(t: State, order: seq<Object>, q: Query, cfg: Config)
    ensures Positive(ScanObjects(t, order, q, cfg))
  {
    if order != [] {
      var o := order[|order| - 1];
      FoldPositive(t, order[..|order| - 1], q, cfg);
      if Stored(t, o) {
        ScanPositive(Content(t, o), q);
      }
    }
  }

  lemma {:induction false} LiveNoOlder(a: Option<Row>, b: Option<Row>, live: seq<Row>, q: Query)
    requires NoOlder(a, b) && Positive(a) && Positive(b)
    ensures NoOlder(ScanOnto(a, live, q), ScanOnto(b, live, q))
    ensures Positive(ScanOnto(a, live, q)) && Positive(ScanOnto(b, live, q))
  {
    if live != [] {
      LiveNoOlder(a, b, live[..|live| - 1], q);
    }
  }

  lemma LiveTruthOnto(s: State, q: Query, live: seq<Row>)
    ensures LiveTruth(s, q, Some(live)) == ScanOnto(Truth(s, q), Stamped(live, q.eid), q) && Positive(Truth(s, q))
  {
    ScanOntoConcat(Flat(s.hist), Stamped(live, q.eid), q);
    ScanPositive(Flat(s.hist), q);
  }

  lemma NoLiveTruth(s: State, q: Query)
    ensures LiveTruth(s, q, None) == Truth(s, q)
  {
    assert Flat(s.hist) + [] == Flat(s.hist);
  }

  // ---- The answer ----------------------------------------------------------------------------------

  /** The listings are of any moments and the files are downloaded in `t`, which answers. If the
      query sees the history of an earlier state `s`, its answer is no older than the truth of
      `s` and no newer than that of `t`, live rows included; so it is the truth itself when
      nothing was flushed in between. */
  lemma InterleavedAnswer(s: State, t: State, q: Query, cfg: Config, ls: Listings, live: Option<seq<Row>>)
    requires Answering(t) && s.hist <= t.hist && q.txTime >= t.horizon && q.eid == t.eid
    requires Sees(s.hist, t, q, cfg, ls)
    ensures NoOlder(AsOfAnswer(t, q, cfg, ls, live), LiveTruth(s, q, live))
    ensures NoOlder(LiveTruth(t, q, live), AsOfAnswer(t, q, cfg, ls, live))
    ensures s.hist == t.hist ==> AsOfAnswer(t, q, cfg, ls, live) == LiveTruth(t, q, live)
  {
    var lo :| AnsweringAt(t, lo);
    TruthReached(s, t, lo, q, cfg, ls);
    DurableFits(t, lo, q, cfg, ls);
    FoldPositive(t, Order(t, q, cfg, ls), q, cfg);
    WithLiveRows(s, t, q, Durable(t, q, cfg, ls), live);
  }

  lemma WithLiveRows(s: State, t: State, q: Query, durable: Option<Row>, live: Option<seq<Row>>)
    requires NoOlder(durable, Truth(s, q)) && Fits(durable, Truth(t, q)) && Positive(durable)
    ensures var r := if live.Some? then ScanOnto(durable, Stamped(live.value, q.eid), q) else durable;
            && NoOlder(r, LiveTruth(s, q, live)) && NoOlder(LiveTruth(t, q, live), r)
            && (s.hist == t.hist ==> r == LiveTruth(t, q, live))
  {
    if live.Some? {
      var stamped := Stamped(live.value, q.eid);
      LiveTruthOnto(s, q, live.value);
      LiveTruthOnto(t, q, live.value);
      LiveNoOlder(durable, Truth(s, q), stamped, q);
      LiveNoOlder(Truth(t, q), durable, stamped, q);
    } else {
      NoLiveTruth(s, q);
      NoLiveTruth(t, q);
    }
  }

  /** Over every run, reads failing or not, whose uploads are harmless: `s` is any state of it and
      the files are downloaded at its end. */
  lemma InterleavedOverRuns(eid: seq<int>, width: nat, h: int, acts: seq<Action>, more: seq<Action>,
                            q: Query, cfg: Config, ls: Listings, live: Option<seq<Row>>)
    requires HarmlessRun(Init(eid, width, h), acts + more) && Exec(Init(eid, width, h), acts).Some?
    requires Exec(Init(eid, width, h), acts + more).Some?
    requires var s, t := Exec(Init(eid, width, h), acts).value, Exec(Init(eid, width, h), acts + more).value;
             q.eid == eid && q.txTime >= t.horizon && Sees(s.hist, t, q, cfg, ls)
    ensures var s, t := Exec(Init(eid, width, h), acts).value, Exec(Init(eid, width, h), acts + more).value;
            && NoOlder(AsOfAnswer(t, q, cfg, ls, live), LiveTruth(s, q, live))
            && NoOlder(LiveTruth(t, q, live), AsOfAnswer(t, q, cfg, ls, live))
            && (s.hist == t.hist ==> AsOfAnswer(t, q, cfg, ls, live) == LiveTruth(t, q, live))
  {
    var s, t := Exec(Init(eid, width, h), acts).value, Exec(Init(eid, width, h), acts + more).value;
    HarmlessReaches(eid, width, h, acts + more);
    ExecAppend(Init(eid, width, h), acts, more);
    HistPrefix(s, more);
    InterleavedAnswer(s, t, q, cfg, ls, live);
  }

  lemma HiddenOrGone(t: State, lo: int, q: Query, cfg: Config, ls: Listings, p: int)
    requires AnsweringAt(t, lo) && 0 <= p < |t.hist| && t.hist[p] != []
    requires p >= lo ==> FirstSys(t.hist[p]) in Superseded(t.manifests, ls.manifests, cfg, q.txTime)
    ensures FileCovered(t.hist[p], t.l1, t.horizon)
  {
    if p >= lo {
      var mk := SupersededOrigin(t.manifests, ls.manifests, cfg, q.txTime, FirstSys(t.hist[p]));
      HiddenCovered(t, lo, mk, p);
    }
  }

  /** A query that listed L0 in `s`, and every L1 object that `t` holds at whatever moment, sees
      the history of `s`, provided its tail fits under the cap. */
  lemma AllListedSees(s: State, acts: seq<Action>, t: State, q: Query, cfg: Config, ls: Listings)
    requires Exec(s, acts) == Some(t) && Answering(t) && IsListing(ls.l0, s.l0.Keys)
    requires (forall k :: k in t.l1 ==> k in ls.l1) && TailFits(t, q, cfg, ls)
    ensures Sees(s.hist, t, q, cfg, ls)
  {
    var lo :| AnsweringAt(t, lo);
    HistPrefix(s, acts);
    AllListed(t, ls);
    forall p | 0 <= p < |s.hist| && !Downloads(t, q, cfg, ls, s.hist[p])
      ensures FileCovered(s.hist[p], ListedL1(t, ls), t.horizon)
    {
      assert t.hist[p] == s.hist[p] && FileOk(t.hist[p], t.eid, t.width);
      if p >= lo {
        OldNames(s, acts, p);
        NotDownloaded(t, q, cfg, ls, FirstSys(t.hist[p]));
      }
      HiddenOrGone(t, lo, q, cfg, ls, p);
    }
  }

  lemma AllListed(t: State, ls: Listings)
    requires forall k :: k in t.l1 ==> k in ls.l1
    ensures ListedL1(t, ls) == t.l1
  {
    forall k ensures k in ListedL1(t, ls) <==> k in t.l1 {
      assert k in t.l1 ==> k in ls.l1;
    }
  }

  lemma NotDownloaded(t: State, q: Query, cfg: Config, ls: Listings, key: int)
    requires key in ls.l0 && InL0(key) !in Order(t, q, cfg, ls) && TailFits(t, q, cfg, ls)
    ensures key in Superseded(t.manifests, ls.manifests, cfg, q.txTime)
  {
    ScanOrderMembers(ls, QueryTail(t, q, cfg, ls));
    TailMembers(ls.l0, Superseded(t.manifests, ls.manifests, cfg, q.txTime));
  }

  // ---- A query that a compaction overtakes ---------------------------------------------------------

  /** What a compaction and a sweep make of a directory with a single file. */
  function Single(f: File, eid: seq<int>, width: nat, h: int): State
    requires f != []
  {
    Init(eid, width, h).(hist := [f], l0 := map[FirstSys(f) := f])
  }

  function Swept(f: File, eid: seq<int>, width: nat, h: int): State
    requires f != []
  {
    var k := FirstSys(f);
    Single(f, eid, width, h).(l0 := map[], l1 := map[k := f], manifests := map[k := Manifest(k, [k])],
                              reap := Deleting(k, [k], 1))
  }

  lemma SingleRead(f: File, eid: seq<int>, width: nat, h: int)
    requires FileOk(f, eid, width)
    ensures Leads(Single(f, eid, width, h), Single(f, eid, width, h).(job := Reading([FirstSys(f)], 1, f)))
  {
    var s, k := Single(f, eid, width, h), FirstSys(f);
    LeadsNowhere(s);
    assert s.l0.Keys == {k};
    var t := s.(job := Reading([k], 0, []));
    LeadsOn(s, s, ListL0([k]), t);
    ExtractAll(f, eid);
    assert [] + f == f;
    ReadStep(t, [k], 0, [], f);
    LeadsOn(s, t, Read, s.(job := Reading([k], 1, f)));
  }

  lemma SingleSwept(f: File, eid: seq<int>, width: nat, h: int)
    requires FileOk(f, eid, width)
    ensures Leads(Single(f, eid, width, h), Swept(f, eid, width, h))
  {
    var s, k := Single(f, eid, width, h), FirstSys(f);
    SingleRead(f, eid, width, h);
    var t := s.(job := Reading([k], 1, f));
    assert Merged(f, false, h) == f by { StableSortIdentity(f); }
    var u := s.(l1 := map[k := f], job := Uploaded([k], k));
    UploadApplied(t, false, f);
    LeadsOn(s, t, UploadL1(false), u);
    var v := u.(manifests := map[k := Manifest(k, [k])], job := NoJob);
    LeadsOn(s, u, UploadManifest, v);
    LeadsOn(s, v, PickManifest(k), v.(reap := Deleting(k, [k], 0)));
    assert map[k := f] - {k} == map[];
    LeadsOn(s, v.(reap := Deleting(k, [k], 0)), DeleteL0, Swept(f, eid, width, h));
  }

  /** A query lists L1 first. When a file is compacted and swept between that listing and the
      listing of L0, the query sees neither copy: whatever it asks of the file, it finds
      nothing, though the truth is the same before and after. */
  lemma OvertakenQueryMisses(f: File, eid: seq<int>, width: nat, h: int, q: Query, cfg: Config)
    requires FileOk(f, eid, width)
    ensures var s, t, k := Single(f, eid, width, h), Swept(f, eid, width, h), FirstSys(f);
            && Exec(Init(eid, width, h), [Flush(f)]) == Some(s) && Leads(s, t)
            && IsListing([], s.l1.Keys) && IsListing([], t.l0.Keys) && IsListing([k], t.manifests.Keys)
            && AsOfAnswer(t, q, cfg, Listings([], [], [k]), None) == None
            && Truth(s, q) == Truth(t, q) == Scan(f, q)
  {
    assert [Flush(f)][..0] == [] && [] + [f] == [f] && map[][FirstSys(f) := f] == map[FirstSys(f) := f];
    SingleSwept(f, eid, width, h);
    NothingDurable(Swept(f, eid, width, h), q, cfg, Listings([], [], [FirstSys(f)]));
    assert [f][..0] == [] && Flat([f]) == f;
  }
}
