/** What the assumption on compaction reads guards against: runs in which a failed read loses
    or hides a flushed row, and a condition under which no read need fail. */
module Limits {
  import opened Basics
  import opened Rows
  import opened Merging
  import opened ObjectKeys
  import opened Store
  import opened StoreInvariant
  import opened StoreSafety
  import opened Resolver
  import opened AsOfCorrect

  // ---- When reads succeed -------------------------------------------------------------------

  /** Every file that the job has listed and not yet read is still there. */
  predicate UnreadPresent(s: State) {
    s.job.Reading? ==> forall i :: s.job.next <= i < |s.job.listed| ==> s.job.listed[i] in s.l0
  }

  predicate NoDeletes(acts: seq<Action>) {
    forall i :: 0 <= i < |acts| ==> acts[i] != DeleteL0
  }

  /** As long as no sweep deletes, every listed file can be read: when no sweep overlaps a
      compaction, only a failing store makes a read fail. */
  lemma {:induction false} ReadsStayPossible(s: State, acts: seq<Action>)
    requires UnreadPresent(s) && Exec(s, acts).Some? && NoDeletes(acts)
    ensures UnreadPresent(Exec(s, acts).value)
    ensures var t := Exec(s, acts).value; t.job.Reading? && t.job.next < |t.job.listed| ==> Enabled(t, Read)
  {
    if acts != [] {
      var init, last := acts[..|acts| - 1], acts[|acts| - 1];
      ReadsStayPossible(s, init);
      UnreadPresentStep(Exec(s, init).value, last);
    }
  }

  lemma UnreadPresentStep(s: State, a: Action)
    requires UnreadPresent(s) && Enabled(s, a) && a != DeleteL0
    ensures UnreadPresent(Apply(s, a))
  {
  }

  // ---- When a read fails ----------------------------------------------------------------------

  /** Rows valid on disjoint intervals, so none dominates another. */
  function Sample(t: int): Row {
    Row([], t, t, t + 1, 0, 0, [], [])
  }

  const A: File := [Sample(1)]
  const B: File := [Sample(2)]
  const BOTH: File := [Sample(1), Sample(2)]

  /** Two files are flushed and compacted. A second compaction lists them and reads the
      first; then a sweep deletes both; the second read fails and the upload goes on. */
  const ACTS: seq<Action> := [
    Flush(A), Flush(B),
    ListL0([1, 2]), Read, Read, UploadL1(false), UploadManifest,
    ListL0([1, 2]), Read,
    PickManifest(1), DeleteL0, DeleteL0,
    ReadFails, UploadL1(false)]

  function Files(n: int): State {
    State([], 1, if n == 0 then [] else if n == 1 then [A] else [A, B],
          if n == 0 then map[] else if n == 1 then map[1 := A] else map[1 := A, 2 := B],
          map[], map[], 0, NoJob, NoReap)
  }

  function Compacted(l0: map<int, File>, job: Job, reap: Reap): State {
    Files(2).(l0 := l0, l1 := map[1 := BOTH], manifests := map[1 := Manifest(1, [1, 2])], job := job, reap := reap)
  }

  const L0 := map[1 := A, 2 := B]
  const HALF := Reading([1, 2], 1, A)

  /** The states of the run. */
  const STATES: seq<State> := [
    Files(0), Files(1), Files(2),
    Files(2).(job := Reading([1, 2], 0, [])),
    Files(2).(job := HALF),
    Files(2).(job := Reading([1, 2], 2, BOTH)),
    Files(2).(l1 := map[1 := BOTH], job := Uploaded([1, 2], 1)),
    Compacted(L0, NoJob, NoReap),
    Compacted(L0, Reading([1, 2], 0, []), NoReap),
    Compacted(L0, HALF, NoReap),
    Compacted(L0, HALF, Deleting(1, [1, 2], 0)),
    Compacted(map[2 := B], HALF, Deleting(1, [1, 2], 1)),
    Compacted(map[], HALF, Deleting(1, [1, 2], 2)),
    Compacted(map[], Reading([1, 2], 2, A), Deleting(1, [1, 2], 2)),
    Compacted(map[], Uploaded([1, 2], 1), Deleting(1, [1, 2], 2)).(l1 := map[1 := A])]

  predicate StepAt(i: nat)
    requires i < |ACTS|
  {
    Enabled(STATES[i], ACTS[i]) && Apply(STATES[i], ACTS[i]) == STATES[i + 1]
  }

  lemma Names()
    ensures IsListing([1, 2], {1, 2}) && NameOk(1, 1) && NameOk(2, 1)
  {
    assert Decimal(1) == "1" && Decimal(2) == "2";
  }

  lemma FlushesA()
    ensures StepAt(0)
  {
    Names();
  }

  lemma FlushesB()
    ensures StepAt(1)
  {
    Names();
  }

  lemma ListsBoth()
    ensures StepAt(2) && StepAt(7)
  {
    Names();
    assert L0.Keys == {1, 2};
  }

  lemma Extracts()
    ensures [] + Extract(A, []) == A && A + Extract(B, []) == BOTH
  {
    assert A[..0] == [] && B[..0] == [];
    assert Extract(A, []) == A && Extract(B, []) == B;
  }

  lemma ReadsA()
    ensures StepAt(3) && StepAt(8)
  {
    Extracts();
    ReadStep(STATES[3], [1, 2], 0, [], A);
    ReadStep(STATES[8], [1, 2], 0, [], A);
  }

  lemma ReadsB()
    ensures StepAt(4)
  {
    Extracts();
    ReadStep(STATES[4], [1, 2], 1, A, BOTH);
  }

  lemma FirstUpload()
    ensures StepAt(5)
  {
    assert Merged(BOTH, false, 0) == BOTH by { StableSortIdentity(BOTH); }
    UploadApplied(STATES[5], false, BOTH);
  }

  lemma FirstManifest()
    ensures StepAt(6)
  {
  }

  lemma SecondUpload()
    ensures StepAt(13)
  {
    assert Merged(A, false, 0) == A by { StableSortIdentity(A); }
  }

  lemma Sweeps()
    ensures StepAt(9) && StepAt(10) && StepAt(11) && StepAt(12)
  {
  }

  lemma {:induction false} RunTo(n: nat)
    requires n <= |ACTS|
    requires forall i :: 0 <= i < n ==> StepAt(i)
    ensures Exec(Init([], 1, 0), ACTS[..n]) == Some(STATES[n])
  {
    if n > 0 {
      RunTo(n - 1);
      assert ACTS[..n][..n - 1] == ACTS[..n - 1] && StepAt(n - 1);
    }
  }

  /** The upload after the failed read replaces the only L1 file that held the second row:
      it is nowhere, though no horizon was set and nothing dominates it. */
  lemma FailedReadLosesRow()
    ensures Exec(Init([], 1, 0), ACTS).Some?
    ensures var s := Exec(Init([], 1, 0), ACTS).value; Sample(2) in Flat(s.hist) && !Safe(Sample(2), s)
  {
    WholeRun();
    Lost();
  }

  lemma WholeRun()
    ensures Exec(Init([], 1, 0), ACTS) == Some(STATES[14])
  {
    forall i | 0 <= i < 14 ensures StepAt(i) {
      AllSteps(i);
    }
    RunTo(14);
    assert ACTS[..14] == ACTS;
  }

  lemma AllSteps(i: nat)
    requires i < 14
    ensures StepAt(i)
  {
    if i == 0 {
      FlushesA();
    } else if i == 1 {
      FlushesB();
    } else if i == 2 || i == 7 {
      ListsBoth();
    } else if i == 3 || i == 8 {
      ReadsA();
    } else if i == 4 {
      ReadsB();
    } else if i == 5 {
      FirstUpload();
    } else if i == 6 {
      FirstManifest();
    } else if i < 13 {
      Sweeps();
    } else {
      SecondUpload();
    }
  }

  lemma Lost()
    ensures Sample(2) in Flat(STATES[14].hist) && !Safe(Sample(2), STATES[14])
  {
    FlatMembers([A, B], Sample(2));
    assert Sample(2) in [A, B][1];
  }

  // ---- A file that was not read is hidden at once ------------------------------------------------

  /** A compaction lists two files that both stay in place, and fails to read the second. */
  const HIDING: seq<Action> := ACTS[..4] + [ReadFails, UploadL1(false), UploadManifest]

  const HIDDEN: State := Files(2).(l1 := map[1 := A], manifests := map[1 := Manifest(1, [1, 2])])

  lemma ExecOn(s: State, acts: seq<Action>, t: State, a: Action, u: State)
    requires Exec(s, acts) == Some(t) && Enabled(t, a) && Apply(t, a) == u
    ensures Exec(s, acts + [a]) == Some(u)
  {
    assert (acts + [a])[..|acts|] == acts;
  }

  const PART_READ: State := Files(2).(job := Reading([1, 2], 2, A))
  const PART_UP: State := Files(2).(l1 := map[1 := A], job := Uploaded([1, 2], 1))

  lemma PartRead()
    ensures Exec(Init([], 1, 0), ACTS[..4] + [ReadFails]) == Some(PART_READ)
  {
    forall i | 0 <= i < 4 ensures StepAt(i) {
      AllSteps(i);
    }
    RunTo(4);
    ExecOn(Init([], 1, 0), ACTS[..4], STATES[4], ReadFails, PART_READ);
  }

  lemma Hides()
    ensures Exec(Init([], 1, 0), HIDING) == Some(HIDDEN)
  {
    var s, acts := Init([], 1, 0), ACTS[..4] + [ReadFails];
    PartRead();
    PartialUpload();
    ExecOn(s, acts, PART_READ, UploadL1(false), PART_UP);
    ExecOn(s, acts + [UploadL1(false)], PART_UP, UploadManifest, HIDDEN);
    assert acts + [UploadL1(false)] + [UploadManifest] == HIDING;
  }

  lemma PartialUpload()
    ensures Enabled(PART_READ, UploadL1(false)) && Apply(PART_READ, UploadL1(false)) == PART_UP
  {
    assert Merged(A, false, 0) == A by { StableSortIdentity(A); }
  }

  /** Where the second row is the truth. */
  const ASKED := Query([], 2, 2)

  lemma MissesHidden(cfg: Config)
    ensures AsOfAnswer(HIDDEN, ASKED, cfg, Listings([1, 2], [1], [1]), None) == None
  {
    assert [1][..0] == [] && [1, 2][..1] == [1];
    assert Superseded(HIDDEN.manifests, [1], cfg, 2) == {1, 2};
    assert Tail([1, 2], {1, 2}) == [];
    assert Reverse([1]) == [1] && InTier([1], true) == [InL1(1)];
    assert ScanOrder(Listings([1, 2], [1], [1]), []) == [InL1(1)];
    assert QueryTail(HIDDEN, ASKED, cfg, Listings([1, 2], [1], [1])) == [];
    assert Scan(A, ASKED) == None by { assert A[..0] == []; }
    assert ScanObjects(HIDDEN, [InL1(1)], ASKED, cfg) == None by {
      assert [InL1(1)][..0] == [] && ScanObjects(HIDDEN, [], ASKED, cfg) == None;
      assert Content(HIDDEN, InL1(1)) == A;
    }
  }

  /** The next sweep then deletes it. */
  lemma HiddenDeleted() returns (u: State)
    ensures Leads(HIDDEN, u) && u.hist == HIDDEN.hist && !Safe(Sample(2), u)
  {
    var t := HIDDEN.(reap := Deleting(1, [1, 2], 0));
    LeadsNowhere(HIDDEN);
    LeadsOn(HIDDEN, HIDDEN, PickManifest(1), t);
    var half := t.(l0 := map[2 := B], reap := Deleting(1, [1, 2], 1));
    assert t.l0 - {1} == half.l0;
    LeadsOn(HIDDEN, t, DeleteL0, half);
    u := t.(l0 := map[], reap := Deleting(1, [1, 2], 2));
    assert half.l0 - {2} == u.l0;
    LeadsOn(HIDDEN, half, DeleteL0, u);
    assert !CoveredBy(Sample(2), A, 0);
  }

  /** The second file is still there, no sweep has begun, and every query for its row already
      misses it: the manifest names a file whose rows L1 does not have. The row is lost once a
      sweep has followed the manifest. */
  lemma UnreadFileHidden(cfg: Config)
    ensures Exec(Init([], 1, 0), HIDING).Some?
    ensures var s, ls := Exec(Init([], 1, 0), HIDING).value, Listings([1, 2], [1], [1]);
            && s.l0 == map[1 := A, 2 := B] && ListingsOf(ls, s)
            && Truth(s, ASKED) == Some(Sample(2)) && AsOfAnswer(s, ASKED, cfg, ls, None) == None
            && exists u :: Leads(s, u) && !Safe(Sample(2), u)
  {
    Hides();
    HiddenListings();
    HiddenTruth();
    MissesHidden(cfg);
    var u := HiddenDeleted();
  }

  lemma HiddenListings()
    ensures ListingsOf(Listings([1, 2], [1], [1]), HIDDEN)
  {
    Names();
    assert HIDDEN.l0.Keys == {1, 2} && HIDDEN.l1.Keys == {1} && HIDDEN.manifests.Keys == {1};
  }

  lemma HiddenTruth()
    ensures Truth(HIDDEN, ASKED) == Some(Sample(2))
  {
    assert Flat([A, B]) == BOTH by {
      assert [A, B][..1] == [A] && [A][..0] == [];
      assert Flat([A]) == [] + A == A;
      assert Flat([A, B]) == A + B == BOTH;
    }
    assert Scan(BOTH, ASKED) == Some(Sample(2)) by { assert BOTH[..1] == A && A[..0] == []; }
  }
}
