/** Queries after compactions whose reads failed: an L1 object then merges some of the files a
    job listed, and as long as every upload is harmless the answers are the same. */
module PartialAnswers {
  import opened Basics
  import opened Rows
  import opened Pruning
  import opened Merging
  import opened Store
  import opened StoreInvariant
  import opened StoreSafety
  import opened Resolver
  import opened AsOfCorrect
  import opened FailedReads

  // ---- Files that were read -------------------------------------------------------------------

  /** Files of the history, in its order. */
  ghost predicate OfHist(sel: seq<File>, s: State) {
    HistOk(sel, s.eid, s.width) && forall i :: 0 <= i < |sel| ==> sel[i] in s.hist
  }

  ghost predicate IsPart(f: File, sel: seq<File>, h: int, s: State) {
    OfHist(sel, s) && f == Pruned(Flat(sel), h) && h <= s.horizon
  }

  /** The object is the merge of some files, pruned at or below the horizon. */
  ghost predicate Partial(f: File, s: State) {
    exists sel, h :: IsPart(f, sel, h, s)
  }

  /** The job holds the rows of the files `sel`, which it listed among the first `next`. */
  ghost predicate Gathered(s: State, listed: seq<int>, next: nat, rows: seq<Row>, sel: seq<File>) {
    && OfHist(sel, s) && rows == Flat(sel) && next <= |listed|
    && forall i :: 0 <= i < |sel| ==> NamedIn(sel[i], listed[..next])
  }

  ghost predicate JobPartial(s: State) {
    s.job.Reading? ==> exists sel :: Gathered(s, s.job.listed, s.job.next, s.job.rows, sel)
  }

  ghost predicate L1Partial(s: State) {
    forall k :: k in s.l1 ==> Partial(s.l1[k], s)
  }

  // ---- Every step keeps it ----------------------------------------------------------------------

  predicate Later(s: State, t: State) {
    s.hist <= t.hist && s.horizon <= t.horizon && t.eid == s.eid && t.width == s.width
  }

  lemma OfHistCarries(sel: seq<File>, s: State, t: State)
    requires OfHist(sel, s) && Later(s, t)
    ensures OfHist(sel, t)
  {
  }

  lemma PartialCarries(f: File, s: State, t: State)
    requires Partial(f, s) && Later(s, t)
    ensures Partial(f, t)
  {
    var sel, h :| IsPart(f, sel, h, s);
    OfHistCarries(sel, s, t);
    assert IsPart(f, sel, h, t);
  }

  lemma L1PartialCarries(s: State, t: State)
    requires L1Partial(s) && Later(s, t) && t.l1 == s.l1
    ensures L1Partial(t)
  {
    forall k | k in t.l1 ensures Partial(t.l1[k], t) {
      PartialCarries(s.l1[k], s, t);
    }
  }

  lemma JobPartialCarries(s: State, t: State)
    requires JobPartial(s) && Later(s, t) && (t.job == s.job || !t.job.Reading?)
    ensures JobPartial(t)
  {
    if t.job.Reading? {
      var sel :| Gathered(s, s.job.listed, s.job.next, s.job.rows, sel);
      OfHistCarries(sel, s, t);
      assert Gathered(t, t.job.listed, t.job.next, t.job.rows, sel);
    }
  }

  /** A file listed before the next one comes before it in the history. */
  lemma ListedBefore(s: State, listed: seq<int>, next: nat, a: int, f: File)
    requires HistOk(s.hist, s.eid, s.width) && Segment(listed, s.hist, a) && next < |listed|
    requires f in s.hist && NamedIn(f, listed[..next])
    ensures Before(f, s.hist[a + next])
  {
    var p :| 0 <= p < |s.hist| && s.hist[p] == f;
    var m :| 0 <= m < next && listed[m] == FirstSys(f);
    assert listed[m] == FirstSys(s.hist[a + m]);
    KeyOrder(s, p, a + m);
  }

  lemma GatheredMore(s: State, listed: seq<int>, next: nat, rows: seq<Row>, sel: seq<File>, a: int)
    requires HistOk(s.hist, s.eid, s.width) && Segment(listed, s.hist, a) && next < |listed|
    requires Gathered(s, listed, next, rows, sel)
    ensures Gathered(s, listed, next + 1, rows + s.hist[a + next], sel + [s.hist[a + next]])
  {
    var f, more := s.hist[a + next], sel + [s.hist[a + next]];
    forall i | 0 <= i < |sel| ensures Before(sel[i], f) {
      ListedBefore(s, listed, next, a, sel[i]);
    }
    HistGrows(sel, s.eid, s.width, f);
    assert more[..|sel|] == sel;
    NamesGrow(s, listed, next, sel, a);
  }

  lemma NamesGrow(s: State, listed: seq<int>, next: nat, sel: seq<File>, a: int)
    requires Segment(listed, s.hist, a) && next < |listed| && forall i :: 0 <= i < |sel| ==> NamedIn(sel[i], listed[..next])
    ensures NamedIn(s.hist[a + next], listed[..next + 1])
    ensures forall i :: 0 <= i < |sel| ==> NamedIn(sel[i], listed[..next + 1])
  {
    assert listed[..next + 1] == listed[..next] + [listed[next]];
    assert listed[a + next - a] == FirstSys(s.hist[a + next]);
  }

  lemma ReadPartial(s: State, lo: int)
    requires PartInvAt(s, lo) && JobPartial(s) && Enabled(s, Read)
    ensures JobPartial(Apply(s, Read))
  {
    var a :| a <= lo && Tried(s, s.job.listed, s.job.next, s.job.rows, a);
    var sel :| Gathered(s, s.job.listed, s.job.next, s.job.rows, sel);
    ReadPartialAt(s, lo, a, sel);
  }

  lemma ReadPartialAt(s: State, lo: int, a: int, sel: seq<File>)
    requires HistOk(s.hist, s.eid, s.width) && L0Suffix(s.l0, s.hist, lo) && Enabled(s, Read)
    requires Segment(s.job.listed, s.hist, a) && Gathered(s, s.job.listed, s.job.next, s.job.rows, sel)
    ensures JobPartial(Apply(s, Read))
  {
    var t, listed, next := Apply(s, Read), s.job.listed, s.job.next;
    ReadAdds(s, lo, a + next);
    GatheredMore(s, listed, next, s.job.rows, sel, a);
    assert Gathered(t, listed, next + 1, t.job.rows, sel + [s.hist[a + next]]);
  }

  lemma ReadFailsPartial(s: State, lo: int)
    requires PartInvAt(s, lo) && JobPartial(s) && Enabled(s, ReadFails)
    ensures JobPartial(Apply(s, ReadFails))
  {
    var t, listed, next := Apply(s, ReadFails), s.job.listed, s.job.next;
    var a :| a <= lo && Tried(s, listed, next, s.job.rows, a);
    var sel :| Gathered(s, listed, next, s.job.rows, sel);
    GatheredSkip(s, t, listed, next, s.job.rows, sel, a);
  }

  lemma GatheredSkip(s: State, t: State, listed: seq<int>, next: nat, rows: seq<Row>, sel: seq<File>, a: int)
    requires Segment(listed, s.hist, a) && next < |listed| && Gathered(s, listed, next, rows, sel)
    requires t.hist == s.hist && t.eid == s.eid && t.width == s.width
    ensures Gathered(t, listed, next + 1, rows, sel)
  {
    NamesGrow(s, listed, next, sel, a);
  }

  lemma UploadPartial(s: State, prune: bool)
    requires L1Partial(s) && JobPartial(s) && Enabled(s, UploadL1(prune))
    ensures L1Partial(Apply(s, UploadL1(prune)))
  {
    var t, out := Apply(s, UploadL1(prune)), Merged(s.job.rows, prune, s.horizon);
    if out == [] {
      L1PartialCarries(s, t);
    } else {
      UploadApplied(s, prune, out);
      var sel :| Gathered(s, s.job.listed, s.job.next, s.job.rows, sel);
      MergedPart(s, sel, prune, out);
      forall k | k in t.l1 ensures Partial(t.l1[k], t) {
        PartialCarries(t.l1[k], s, t);
      }
    }
  }

  lemma MergedPart(s: State, sel: seq<File>, prune: bool, out: File)
    requires OfHist(sel, s) && out == Merged(Flat(sel), prune, s.horizon)
    ensures Partial(out, s)
  {
    FlatSorted(sel, s.eid, s.width);
    StableSortIdentity(Flat(sel));
    var h := PruneHorizon(prune, s.horizon);
    assert IsPart(out, sel, if h <= s.horizon then h else s.horizon, s);
  }

  lemma StepKeepsPartial(s: State, a: Action)
    requires PartInv(s) && L1Partial(s) && JobPartial(s) && Enabled(s, a)
    ensures L1Partial(Apply(s, a)) && JobPartial(Apply(s, a))
  {
    var lo :| PartInvAt(s, lo);
    var t := Apply(s, a);
    match a
    case UploadL1(prune) => UploadPartial(s, prune);
    case Read =>
      L1PartialCarries(s, t);
      ReadPartial(s, lo);
    case ReadFails =>
      L1PartialCarries(s, t);
      ReadFailsPartial(s, lo);
    case ListL0(listed) =>
      L1PartialCarries(s, t);
      assert Gathered(t, listed, 0, [], []);
    case _ =>
      L1PartialCarries(s, t);
      JobPartialCarries(s, t);
  }

  // ---- Some files answer with the truth or older ------------------------------------------------

  lemma SomeFilesFit(s: State, sel: seq<File>, q: Query)
    requires HistOk(s.hist, s.eid, s.width) && OfHist(sel, s)
    ensures Fits(Scan(Flat(sel), q), Truth(s, q))
  {
    var u := s.(hist := sel);
    if Truth(u, q).Some? {
      var r := Truth(u, q).value;
      var i := TruthFile(u, q);
      var j :| 0 <= j < |s.hist| && s.hist[j] == sel[i];
      TruthBounds(s, q, j, r);
      var p := TruthFile(s, q);
      if r.sysT == Truth(s, q).value.sysT {
        assert j == p by {
          if j != p {
            DifferentFile(s, j, p, r, Truth(s, q).value);
          }
        }
        TruthInFile(u, q, i);
        TruthInFile(s, q, p);
      }
    }
  }

  lemma SelOneEntity(s: State, sel: seq<File>)
    requires OfHist(sel, s)
    ensures OneEntity(Flat(sel))
  {
    forall x | x in Flat(sel) ensures x.eid == s.eid {
      FlatMembers(sel, x);
      var i :| 0 <= i < |sel| && x in sel[i];
      assert FileOk(sel[i], s.eid, s.width);
    }
  }

  lemma PartialAnswersAll(s: State, k: int)
    requires HistOk(s.hist, s.eid, s.width) && k in s.l1 && Partial(s.l1[k], s) && Drawn(k, s.l1[k], s.hist, |s.hist|)
    ensures Answers(s, k)
  {
    var sel, h :| IsPart(s.l1[k], sel, h, s);
    SelOneEntity(s, sel);
    forall q: Query | q.txTime >= s.horizon ensures Fits(Scan(s.l1[k], q), Truth(s, q)) {
      PruneKeepsAnswer(Flat(sel), h, q);
      SomeFilesFit(s, sel, q);
    }
    forall x | x in s.l1[k] ensures InHist(s.hist, x) {
      assert Among(s.hist, 0, |s.hist|, x);
      var j :| 0 <= j < |s.hist| && x in s.hist[j];
    }
  }

  lemma PartAnswering(s: State)
    requires PartInv(s) && L1Partial(s)
    ensures Answering(s)
  {
    var lo :| PartInvAt(s, lo);
    forall k | k in s.l1 ensures Answers(s, k) {
      PartialAnswersAll(s, k);
    }
    assert AnsweringAt(s, lo);
  }

  // ---- Runs -----------------------------------------------------------------------------------------

  lemma {:induction false} HarmlessAnswering(s: State, acts: seq<Action>)
    requires PartInv(s) && L1Partial(s) && JobPartial(s) && HarmlessRun(s, acts)
    ensures Exec(s, acts).Some? && PartInv(Exec(s, acts).value)
    ensures L1Partial(Exec(s, acts).value) && JobPartial(Exec(s, acts).value)
  {
    HarmlessKeeps(s, acts);
    if acts != [] {
      var init := acts[..|acts| - 1];
      HarmlessAnswering(s, init);
      StepKeepsPartial(Exec(s, init).value, acts[|acts| - 1]);
    }
  }

  /** Every state of a run whose uploads are harmless answers. */
  lemma HarmlessReaches(eid: seq<int>, width: nat, h: int, acts: seq<Action>)
    requires HarmlessRun(Init(eid, width, h), acts)
    ensures Exec(Init(eid, width, h), acts).Some?
    ensures Answering(Exec(Init(eid, width, h), acts).value) && Exec(Init(eid, width, h), acts).value.eid == eid
  {
    InitPart(eid, width, h);
    HarmlessAnswering(Init(eid, width, h), acts);
    PartAnswering(Exec(Init(eid, width, h), acts).value);
    RunEntity(Init(eid, width, h), acts);
  }

  /** Over every run, reads failing or not, whose uploads are harmless, the point query returns
      the greatest admitted system time of everything flushed and live. */
  lemma AnswersSurviveFailedReads(eid: seq<int>, width: nat, h: int, acts: seq<Action>,
                                  q: Query, cfg: Config, ls: Listings, live: Option<seq<Row>>)
    requires HarmlessRun(Init(eid, width, h), acts) && Exec(Init(eid, width, h), acts).Some?
    requires var s := Exec(Init(eid, width, h), acts).value; q.txTime >= s.horizon && ListingsOf(ls, s) && Reached(s, q, cfg)
    ensures var s := Exec(Init(eid, width, h), acts).value;
            && AsOfAnswer(s, q, cfg, ls, live) == LiveTruth(s, q, live)
            && AnswerMeans(s, q, live, AsOfAnswer(s, q, cfg, ls, live))
  {
    var s := Exec(Init(eid, width, h), acts).value;
    HarmlessReaches(eid, width, h, acts);
    AsOfIsTruth(s, q, cfg, ls, live);
    TruthMeans(s, q, live);
  }
}
