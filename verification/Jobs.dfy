/** The two background jobs over one entity's directory, as the loops they are: each
    refines a run of the directory's state machine. */
module Jobs {
  import opened Basics
  import opened Rows
  import opened Pruning
  import opened Merging
  import opened Store
  import opened StoreInvariant
  import opened StoreSafety
  import opened Sweep

  // ---- Specification ------------------------------------------------------------------------

  /** The entity's rows of the listed files, in listing order. */
  function Gathered(l0: map<int, File>, listed: seq<int>, eid: seq<int>): seq<Row>
    requires forall i :: 0 <= i < |listed| ==> listed[i] in l0
  {
    if listed == [] then []
    else Gathered(l0, listed[..|listed| - 1], eid) + Extract(l0[listed[|listed| - 1]], eid)
  }

  /** How many of the names are deleted before the first delete that fails. */
  function DeletedCount(l0Keys: seq<int>, fails: set<int>): (n: nat)
    ensures n <= |l0Keys|
    ensures forall i :: 0 <= i < n ==> l0Keys[i] !in fails
    ensures n < |l0Keys| ==> l0Keys[n] in fails
  {
    if l0Keys == [] || l0Keys[0] in fails then 0 else 1 + DeletedCount(l0Keys[1..], fails)
  }

  datatype ReapResult = ReapResult(reapedManifests: nat, reapedL0: nat, skippedOrphan: nat, skippedError: nat)

  class Directory {
    const eid: seq<int>
    const width: nat
    var l0: map<int, File>
    var l1: map<int, File>
    var manifests: map<int, Manifest>
    var horizon: int
    ghost var hist: seq<File>

    /** The directory between jobs. */
    ghost function View(): State
      reads this
    {
      State(eid, width, hist, l0, l1, manifests, horizon, NoJob, NoReap)
    }

    /** Compaction of the files a listing returned. The result is the key of the L1 file
        written, or nothing when there was nothing to merge. */
    method Compaction(listed: seq<int>, prune: bool) returns (key: Option<int>)
      requires Inv(View()) && IsListing(listed, l0.Keys)
      modifies this`l1, this`manifests
      ensures Inv(View()) && Leads(old(View()), View())
      ensures listed == [] ==> key == None && View() == old(View())
      ensures listed != [] ==>
                var out := Merged(Gathered(l0, listed, eid), prune, horizon);
                && key.Some? && out != [] && key.value == FirstSys(out)
                && l1 == old(l1)[key.value := out]
                && manifests == old(manifests)[key.value := Manifest(key.value, listed)]
    {
      ghost var s := View();
      LeadsNowhere(s);
      if listed == [] {
        return None;
      }
      var rows := Gather(l0, listed, eid, s);
      ReadyToMerge(s, listed, rows, prune);
      var out := Merge(StableSort(rows), prune, horizon);
      key := Some(FirstSys(out));
      l1 := l1[key.value := out];
      manifests := manifests[key.value := Manifest(key.value, listed)];
      MergeUploaded(s, listed, rows, prune, out, View());
    }

    /** One sweep over the listed manifests. `fails` names the L0 files and `stuck` the
        manifests whose delete the store rejects. */
    method Reap(listed: seq<int>, fails: set<int>, stuck: set<int>) returns (r: ReapResult)
      requires Inv(View())
      modifies this`l0, this`manifests
      ensures Inv(View()) && Leads(old(View()), View())
      ensures Swept(l0, manifests, r) == SweepAll(Swept(old(l0), old(manifests), NOTHING), l1, listed, fails, stuck)
    {
      ghost var s := View();
      LeadsNowhere(s);
      var w := Swept(l0, manifests, NOTHING);
      for i := 0 to |listed|
        invariant w == SweepAll(Swept(s.l0, s.manifests, NOTHING), l1, listed[..i], fails, stuck)
        invariant Leads(s, s.(l0 := w.l0, manifests := w.manifests))
      {
        assert listed[..i + 1][..i] == listed[..i];
        ghost var t := s.(l0 := w.l0, manifests := w.manifests);
        w := ReapOne(w, l1, listed[i], fails, stuck, t);
        LeadsThrough(s, t, s.(l0 := w.l0, manifests := w.manifests));
      }
      assert listed[..|listed|] == listed;
      l0, manifests, r := w.l0, w.manifests, w.tally;
      LeadsKeeps(s, View());
    }
  }

  lemma LeadsThrough(s: State, t: State, u: State)
    requires Leads(s, t) && Leads(t, u)
    ensures Leads(s, u)
  {
    var a :| Exec(s, a) == Some(t) && ReadsSucceed(a);
    var b :| Exec(t, b) == Some(u) && ReadsSucceed(b);
    ExecAppend(s, a, b);
    assert ReadsSucceed(a + b);
  }

  // ---- One manifest -----------------------------------------------------------------------

  const NOTHING := ReapResult(0, 0, 0, 0)

  /** What a sweep changes, and its tally. */
  datatype Swept = Swept(l0: map<int, File>, manifests: map<int, Manifest>, tally: ReapResult)

  /** Stages B to F of a sweep for one manifest name. */
  function SweepOne(w: Swept, l1: map<int, File>, mk: int, fails: set<int>, stuck: set<int>): Swept {
    var r := w.tally;
    if mk !in w.manifests || w.manifests[mk].l1Key !in l1 then
      w.(tally := r.(skippedOrphan := r.skippedOrphan + 1))
    else
      var keys := w.manifests[mk].l0Keys;
      var n := DeletedCount(keys, fails);
      var left, reaped := w.l0 - KeySet(keys[..n]), r.(reapedL0 := r.reapedL0 + n);
      if n < |keys| || mk in stuck then
        w.(l0 := left, tally := reaped.(skippedError := r.skippedError + 1))
      else
        Swept(left, w.manifests - {mk}, reaped.(reapedManifests := r.reapedManifests + 1))
  }

  function SweepAll(w: Swept, l1: map<int, File>, listed: seq<int>, fails: set<int>, stuck: set<int>): Swept {
    if listed == [] then w
    else SweepOne(SweepAll(w, l1, listed[..|listed| - 1], fails, stuck), l1, listed[|listed| - 1], fails, stuck)
  }

  method ReapOne(w: Swept, l1: map<int, File>, mk: int, fails: set<int>, stuck: set<int>, ghost s: State)
    returns (v: Swept)
    requires s.l0 == w.l0 && s.manifests == w.manifests && s.l1 == l1 && s.reap.NoReap?
    ensures v == SweepOne(w, l1, mk, fails, stuck)
    ensures Leads(s, s.(l0 := v.l0, manifests := v.manifests))
  {
    var r := w.tally;
    LeadsNowhere(s);
    if mk !in w.manifests || w.manifests[mk].l1Key !in l1 {
      return w.(tally := r.(skippedOrphan := r.skippedOrphan + 1));
    }
    var keys := w.manifests[mk].l0Keys;
    var rest, n := DeleteListed(w.l0, keys, fails, s, mk);
    r := r.(reapedL0 := r.reapedL0 + n);
    ghost var t := s.(l0 := rest, reap := Deleting(mk, keys, n));
    if n < |keys| || mk in stuck {
      LeadsOn(s, t, StopReap, s.(l0 := rest));
      return w.(l0 := rest, tally := r.(skippedError := r.skippedError + 1));
    }
    LeadsOn(s, t, DeleteManifest, s.(l0 := rest, manifests := w.manifests - {mk}));
    v := Swept(rest, w.manifests - {mk}, r.(reapedManifests := r.reapedManifests + 1));
  }

  // ---- What a sweep does -------------------------------------------------------------------

  /** A sweep removes a manifest when its L1 file is there and no delete of it fails. */
  predicate Reapable(m: Manifest, mk: int, l1: map<int, File>, fails: set<int>, stuck: set<int>) {
    m.l1Key in l1 && mk !in stuck && forall i :: 0 <= i < |m.l0Keys| ==> m.l0Keys[i] !in fails
  }

  /** Every listed manifest is counted once, and exactly the reapable ones are gone. */
  lemma {:induction false} SweepRemoves(w: Swept, l1: map<int, File>, listed: seq<int>, fails: set<int>, stuck: set<int>)
    requires w.tally == NOTHING
    ensures var v := SweepAll(w, l1, listed, fails, stuck);
            && v.tally.reapedManifests + v.tally.skippedOrphan + v.tally.skippedError == |listed|
            && (forall mk :: mk in v.manifests ==> mk in w.manifests && v.manifests[mk] == w.manifests[mk])
            && (forall mk :: mk in w.manifests ==>
                  (mk !in v.manifests <==> mk in listed && Reapable(w.manifests[mk], mk, l1, fails, stuck)))
  {
    if listed != [] {
      var init, last := listed[..|listed| - 1], listed[|listed| - 1];
      SweepRemoves(w, l1, init, fails, stuck);
      assert listed == init + [last];
    }
  }

  /** An L0 file is deleted only when it stands before every failing delete in a listed
      manifest whose L1 file is present: an orphan's files are kept. */
  predicate Deletable(k: int, m: Manifest, l1: map<int, File>, fails: set<int>) {
    m.l1Key in l1 && exists i :: 0 <= i < |m.l0Keys| && m.l0Keys[i] == k && NoneFails(m.l0Keys, fails, i + 1)
  }

  predicate NoneFails(keys: seq<int>, fails: set<int>, n: nat) {
    n <= |keys| && forall i :: 0 <= i < n ==> keys[i] !in fails
  }

  /** `n` keys come before the first whose delete fails. */
  predicate FailsAt(keys: seq<int>, fails: set<int>, n: nat) {
    NoneFails(keys, fails, n) && (n < |keys| ==> keys[n] in fails)
  }

  lemma DeletableIff(k: int, m: Manifest, l1: map<int, File>, fails: set<int>)
    ensures Deletable(k, m, l1, fails) <==> m.l1Key in l1 && k in m.l0Keys[..DeletedCount(m.l0Keys, fails)]
  {
    var n := DeletedCount(m.l0Keys, fails);
    if k in m.l0Keys[..n] {
      var i :| 0 <= i < n && m.l0Keys[i] == k;
      assert NoneFails(m.l0Keys, fails, i + 1);
    }
  }

  lemma {:induction false} SweepDeletes(w: Swept, l1: map<int, File>, listed: seq<int>, fails: set<int>, stuck: set<int>, k: int)
    requires k in w.l0 && w.tally == NOTHING && forall i, j :: 0 <= i < j < |listed| ==> listed[i] != listed[j]
    ensures k !in SweepAll(w, l1, listed, fails, stuck).l0
       <==> exists i :: 0 <= i < |listed| && listed[i] in w.manifests && Deletable(k, w.manifests[listed[i]], l1, fails)
    ensures k in SweepAll(w, l1, listed, fails, stuck).l0 ==> SweepAll(w, l1, listed, fails, stuck).l0[k] == w.l0[k]
  {
    if listed != [] {
      var n := |listed| - 1;
      var init := listed[..n];
      SweepDeletes(w, l1, init, fails, stuck, k);
      SweepRemoves(w, l1, init, fails, stuck);
      var v := SweepAll(w, l1, init, fails, stuck);
      assert listed[n] !in init;
      assert listed[n] in w.manifests <==> listed[n] in v.manifests;
      assert forall i :: 0 <= i < n ==> init[i] == listed[i];
      if listed[n] in w.manifests {
        DeletableIff(k, w.manifests[listed[n]], l1, fails);
      }
    }
  }

  // ---- What a sweep reports -----------------------------------------------------------------

  predicate Distinct(listed: seq<int>) {
    forall i, j :: 0 <= i < j < |listed| ==> listed[i] != listed[j]
  }

  /** The manifest is gone or does not lead to an L1 file. */
  predicate Orphan(w: Swept, l1: map<int, File>, mk: int) {
    mk !in w.manifests || w.manifests[mk].l1Key !in l1
  }

  predicate Reaps(w: Swept, l1: map<int, File>, mk: int, fails: set<int>, stuck: set<int>) {
    mk in w.manifests && Reapable(w.manifests[mk], mk, l1, fails, stuck)
  }

  function Reaped(w: Swept, l1: map<int, File>, listed: seq<int>, fails: set<int>, stuck: set<int>): set<int> {
    set mk | mk in listed && Reaps(w, l1, mk, fails, stuck)
  }

  function Orphans(w: Swept, l1: map<int, File>, listed: seq<int>): set<int> {
    set mk | mk in listed && Orphan(w, l1, mk)
  }

  function Failures(w: Swept, l1: map<int, File>, listed: seq<int>, fails: set<int>, stuck: set<int>): set<int> {
    set mk | mk in listed && !Orphan(w, l1, mk) && !Reaps(w, l1, mk, fails, stuck)
  }

  function Total(counts: seq<nat>): nat {
    if counts == [] then 0 else Total(counts[..|counts| - 1]) + counts[|counts| - 1]
  }

  /** Each listed manifest with an L1 file deletes its keys before the first that fails; an
      orphan none. */
  predicate DeleteCounts(w: Swept, l1: map<int, File>, listed: seq<int>, fails: set<int>, counts: seq<nat>) {
    && |counts| == |listed|
    && forall i :: 0 <= i < |listed| ==>
         if Orphan(w, l1, listed[i]) then counts[i] == 0 else FailsAt(w.manifests[listed[i]].l0Keys, fails, counts[i])
  }

  lemma OneMore(before: set<int>, after: set<int>, last: int, joins: bool)
    requires last !in before && after == (if joins then before + {last} else before)
    ensures |after| == |before| + (if joins then 1 else 0)
  {
  }

  lemma ReapedMore(w: Swept, l1: map<int, File>, init: seq<int>, last: int, fails: set<int>, stuck: set<int>)
    requires last !in init
    ensures |Reaped(w, l1, init + [last], fails, stuck)|
         == |Reaped(w, l1, init, fails, stuck)| + (if Reaps(w, l1, last, fails, stuck) then 1 else 0)
  {
    OneMore(Reaped(w, l1, init, fails, stuck), Reaped(w, l1, init + [last], fails, stuck), last, Reaps(w, l1, last, fails, stuck));
  }

  lemma OrphansMore(w: Swept, l1: map<int, File>, init: seq<int>, last: int)
    requires last !in init
    ensures |Orphans(w, l1, init + [last])| == |Orphans(w, l1, init)| + (if Orphan(w, l1, last) then 1 else 0)
  {
    OneMore(Orphans(w, l1, init), Orphans(w, l1, init + [last]), last, Orphan(w, l1, last));
  }

  lemma FailuresMore(w: Swept, l1: map<int, File>, init: seq<int>, last: int, fails: set<int>, stuck: set<int>)
    requires last !in init
    ensures |Failures(w, l1, init + [last], fails, stuck)|
         == |Failures(w, l1, init, fails, stuck)|
            + (if !Orphan(w, l1, last) && !Reaps(w, l1, last, fails, stuck) then 1 else 0)
  {
    OneMore(Failures(w, l1, init, fails, stuck), Failures(w, l1, init + [last], fails, stuck), last,
            !Orphan(w, l1, last) && !Reaps(w, l1, last, fails, stuck));
  }

  /** What one manifest adds to the report. */
  lemma TallyOne(w: Swept, v: Swept, l1: map<int, File>, mk: int, fails: set<int>, stuck: set<int>) returns (n: nat)
    requires (mk in w.manifests <==> mk in v.manifests) && (mk in v.manifests ==> v.manifests[mk] == w.manifests[mk])
    ensures var t, r := SweepOne(v, l1, mk, fails, stuck).tally, v.tally;
            && t.reapedManifests == r.reapedManifests + (if Reaps(w, l1, mk, fails, stuck) then 1 else 0)
            && t.skippedOrphan == r.skippedOrphan + (if Orphan(w, l1, mk) then 1 else 0)
            && t.skippedError == r.skippedError + (if !Orphan(w, l1, mk) && !Reaps(w, l1, mk, fails, stuck) then 1 else 0)
            && t.reapedL0 == r.reapedL0 + n
    ensures if Orphan(w, l1, mk) then n == 0 else FailsAt(w.manifests[mk].l0Keys, fails, n)
  {
    if Orphan(w, l1, mk) {
      n := 0;
    } else {
      n := DeletedCount(w.manifests[mk].l0Keys, fails);
    }
  }

  /** The report of a sweep over distinct names: how many manifests were reaped, how many were
      orphans, how many met a failing delete, and how many L0 deletes succeeded. */
  lemma {:induction false} SweepTally(w: Swept, l1: map<int, File>, listed: seq<int>, fails: set<int>, stuck: set<int>)
    returns (counts: seq<nat>)
    requires w.tally == NOTHING && Distinct(listed)
    ensures var t := SweepAll(w, l1, listed, fails, stuck).tally;
            && t.reapedManifests == |Reaped(w, l1, listed, fails, stuck)|
            && t.skippedOrphan == |Orphans(w, l1, listed)|
            && t.skippedError == |Failures(w, l1, listed, fails, stuck)|
            && DeleteCounts(w, l1, listed, fails, counts) && t.reapedL0 == Total(counts)
  {
    if listed == [] {
      counts := [];
    } else {
      var init, last := listed[..|listed| - 1], listed[|listed| - 1];
      var before := SweepTally(w, l1, init, fails, stuck);
      SweepRemoves(w, l1, init, fails, stuck);
      assert listed == init + [last] && last !in init;
      ReapedMore(w, l1, init, last, fails, stuck);
      OrphansMore(w, l1, init, last);
      FailuresMore(w, l1, init, last, fails, stuck);
      var n := TallyOne(w, SweepAll(w, l1, init, fails, stuck), l1, last, fails, stuck);
      counts := before + [n];
      assert counts[..|before|] == before;
    }
  }

  /** Delete the listed files in order, up to the first delete that fails. A missing file
      counts as deleted. */
  method DeleteListed(l0: map<int, File>, l0Keys: seq<int>, fails: set<int>, ghost s: State, ghost mk: int)
    returns (rest: map<int, File>, n: nat)
    requires s.l0 == l0 && s.reap.NoReap?
    requires mk in s.manifests && s.manifests[mk].l0Keys == l0Keys && s.manifests[mk].l1Key in s.l1
    ensures n == DeletedCount(l0Keys, fails) && rest == l0 - KeySet(l0Keys[..n])
    ensures Leads(s, s.(l0 := rest, reap := Deleting(mk, l0Keys, n)))
  {
    LeadsNowhere(s);
    n, rest := 0, l0;
    LeadsOn(s, s, PickManifest(mk), s.(reap := Deleting(mk, l0Keys, 0)));
    while n < |l0Keys| && l0Keys[n] !in fails
      invariant n <= |l0Keys|
      invariant DeletedCount(l0Keys, fails) == n + DeletedCount(l0Keys[n..], fails)
      invariant rest == l0 - KeySet(l0Keys[..n])
      invariant Leads(s, s.(l0 := rest, reap := Deleting(mk, l0Keys, n)))
    {
      CountNext(l0Keys, fails, n);
      RestNext(l0, l0Keys, n);
      LeadsDelete(s, rest, mk, l0Keys, n);
      rest := rest - {l0Keys[n]};
      n := n + 1;
    }
    CountEnds(l0Keys, fails, n);
  }

  lemma CountNext(keys: seq<int>, fails: set<int>, n: nat)
    requires n < |keys| && keys[n] !in fails
    ensures DeletedCount(keys[n..], fails) == 1 + DeletedCount(keys[n + 1..], fails)
  {
    assert keys[n..][1..] == keys[n + 1..];
  }

  lemma CountEnds(keys: seq<int>, fails: set<int>, n: nat)
    requires n <= |keys| && (n < |keys| ==> keys[n] in fails)
    ensures DeletedCount(keys[n..], fails) == 0
  {
  }

  lemma RestNext(l0: map<int, File>, keys: seq<int>, n: nat)
    requires n < |keys|
    ensures l0 - KeySet(keys[..n + 1]) == (l0 - KeySet(keys[..n])) - {keys[n]}
  {
    KeySetSnoc(keys, n);
  }

  /** The read loop of a job that listed the directory. */
  method Gather(l0: map<int, File>, listed: seq<int>, eid: seq<int>, ghost s: State) returns (rows: seq<Row>)
    requires s.l0 == l0 && s.eid == eid && s.job.NoJob? && listed != [] && IsListing(listed, l0.Keys)
    requires forall i :: 0 <= i < |listed| ==> listed[i] in l0
    ensures rows == Gathered(l0, listed, eid)
    ensures Leads(s, s.(job := Reading(listed, |listed|, rows)))
  {
    LeadsNowhere(s);
    LeadsOn(s, s, ListL0(listed), s.(job := Reading(listed, 0, [])));
    rows := [];
    for i := 0 to |listed|
      invariant rows == Gathered(l0, listed[..i], eid)
      invariant Leads(s, s.(job := Reading(listed, i, rows)))
    {
      assert listed[..i + 1][..i] == listed[..i];
      LeadsRead(s, listed, i, rows);
      rows := rows + Extract(l0[listed[i]], eid);
    }
    assert listed[..|listed|] == listed;
  }

  lemma KeySetSnoc(keys: seq<int>, n: nat)
    requires n < |keys|
    ensures KeySet(keys[..n + 1]) == KeySet(keys[..n]) + {keys[n]}
  {
    assert keys[..n + 1] == keys[..n] + [keys[n]];
  }

  lemma LeadsDelete(s: State, l0: map<int, File>, mk: int, keys: seq<int>, n: nat)
    requires Leads(s, s.(l0 := l0, reap := Deleting(mk, keys, n))) && n < |keys|
    ensures Leads(s, s.(l0 := l0 - {keys[n]}, reap := Deleting(mk, keys, n + 1)))
  {
    LeadsOn(s, s.(l0 := l0, reap := Deleting(mk, keys, n)), DeleteL0,
            s.(l0 := l0 - {keys[n]}, reap := Deleting(mk, keys, n + 1)));
  }

  lemma LeadsRead(s: State, listed: seq<int>, i: nat, rows: seq<Row>)
    requires Leads(s, s.(job := Reading(listed, i, rows))) && i < |listed| && listed[i] in s.l0
    ensures Leads(s, s.(job := Reading(listed, i + 1, rows + Extract(s.l0[listed[i]], s.eid))))
  {
    var t := s.(job := Reading(listed, i, rows));
    LeadsOn(s, t, Read, s.(job := Reading(listed, i + 1, rows + Extract(s.l0[listed[i]], s.eid))));
  }

  lemma LeadsUpload(s: State, t: State, prune: bool, out: File, v: State)
    requires Leads(s, t) && t.job.Reading? && t.job.next == |t.job.listed|
    requires out == Merged(t.job.rows, prune, t.horizon) && |out| > 0
    requires var k := FirstSys(out);
             v == t.(l1 := t.l1[k := out], manifests := t.manifests[k := Manifest(k, t.job.listed)], job := NoJob)
    ensures Leads(s, v)
  {
    var k := FirstSys(out);
    var u := t.(l1 := t.l1[k := out], job := Uploaded(t.job.listed, k));
    UploadApplied(t, prune, out);
    LeadsOn(s, t, UploadL1(prune), u);
    LeadsOn(s, u, UploadManifest, v);
  }

  /** What the job has gathered sorts by system time and prunes to at least one row. */
  lemma MergeReady(t: State, prune: bool)
    requires Inv(t) && t.job.Reading? && t.job.next == |t.job.listed|
    ensures SysAscending(StableSort(t.job.rows))
    ensures |Merged(t.job.rows, prune, t.horizon)| > 0
  {
    var lo := JobInv(t);
    MergeReadyAt(t, lo, prune);
  }

  /** A row is in the entity's extract of a file exactly when it is a row of the entity there. */
  lemma {:induction false} ExtractExactly(f: File, eid: seq<int>, x: Row)
    ensures x in Extract(f, eid) <==> x in f && x.eid == eid
  {
    if f != [] {
      ExtractExactly(f[..|f| - 1], eid, x);
      assert f == f[..|f| - 1] + [f[|f| - 1]];
    }
  }

  /** What a merge holds: with pruning on and a positive horizon exactly the rows that no newer
      row at or below the horizon contains, otherwise all of them, in key order. */
  lemma MergedExactly(rows: seq<Row>, prune: bool, horizon: int, x: Row)
    ensures x in Merged(rows, prune, horizon)
       <==> x in rows && !(prune && horizon > 0 && exists d :: d in rows && d.sysT > x.sysT && d.sysT <= horizon
                                                               && d.vs <= x.vs && x.ve <= d.ve)
    ensures KeySorted(Merged(rows, prune, horizon))
  {
    var sorted, h := StableSort(rows), PruneHorizon(prune, horizon);
    StableSortSorts(rows);
    SameRows(rows, sorted);
    PrunedExactly(rows, sorted, h, x);
    PrunedKeySorted(sorted, h);
  }

  lemma SameRows(rows: seq<Row>, sorted: seq<Row>)
    requires multiset(sorted) == multiset(rows)
    ensures forall y :: y in sorted <==> y in rows
  {
    forall y ensures y in sorted <==> y in rows {
      assert y in multiset(sorted) <==> y in multiset(rows);
    }
  }

  lemma PrunedExactly(rows: seq<Row>, sorted: seq<Row>, h: int, x: Row)
    requires forall y :: y in sorted <==> y in rows
    ensures x in Pruned(sorted, h)
       <==> x in rows && !(h > 0 && exists d :: d in rows && d.sysT > x.sysT && d.sysT <= h && d.vs <= x.vs && x.ve <= d.ve)
  {
    var at := PrunedSubsequence(sorted, h);
    if d :| d in rows && d.sysT > x.sysT && d.sysT <= h && d.vs <= x.vs && x.ve <= d.ve {
      assert d in sorted && Dominates(d, x, h);
    }
    if Dominated(x, sorted, h) {
      var d :| d in sorted && Dominates(d, x, h);
      assert d in rows;
    }
  }

  lemma PrunedKeySorted(sorted: seq<Row>, h: int)
    requires KeySorted(sorted)
    ensures KeySorted(Pruned(sorted, h))
  {
    var at := PrunedSubsequence(sorted, h);
  }

  /** A job that has gathered all it listed is ready to merge. */
  lemma ReadyToMerge(s: State, listed: seq<int>, rows: seq<Row>, prune: bool)
    requires Inv(s) && Leads(s, s.(job := Reading(listed, |listed|, rows)))
    ensures SysAscending(StableSort(rows)) && |Merged(rows, prune, s.horizon)| > 0
  {
    var t := s.(job := Reading(listed, |listed|, rows));
    LeadsKeeps(s, t);
    MergeReady(t, prune);
  }

  /** And the upload of its merge and its manifest keeps the invariant. */
  lemma MergeUploaded(s: State, listed: seq<int>, rows: seq<Row>, prune: bool, out: File, v: State)
    requires Inv(s) && s.job.NoJob? && Leads(s, s.(job := Reading(listed, |listed|, rows)))
    requires out == Merged(rows, prune, s.horizon) && |out| > 0
    requires var k := FirstSys(out); v == s.(l1 := s.l1[k := out], manifests := s.manifests[k := Manifest(k, listed)])
    ensures Inv(v) && Leads(s, v)
  {
    LeadsUpload(s, s.(job := Reading(listed, |listed|, rows)), prune, out, v);
    LeadsKeeps(s, v);
  }

  lemma JobInv(t: State) returns (lo: int)
    requires Inv(t)
    ensures HistOk(t.hist, t.eid, t.width) && JobOk(t, lo)
  {
    lo :| InvAt(t, lo);
  }

  lemma MergeReadyAt(t: State, lo: int, prune: bool)
    requires HistOk(t.hist, t.eid, t.width) && JobOk(t, lo) && t.job.Reading? && t.job.next == |t.job.listed|
    ensures SysAscending(StableSort(t.job.rows)) && |Merged(t.job.rows, prune, t.horizon)| > 0
  {
    var a := JobStart(t, lo);
    ReadyFrom(t, a, a + t.job.next, t.job.rows, prune);
  }

  lemma JobStart(t: State, lo: int) returns (a: int)
    requires JobOk(t, lo) && t.job.Reading? && t.job.next == |t.job.listed|
    ensures 0 <= a < a + t.job.next <= |t.hist| && t.job.rows == Flat(t.hist[a..a + t.job.next])
  {
    a :| a <= lo && ReadingFrom(t, t.job.listed, t.job.next, t.job.rows, a);
  }

  lemma ReadyFrom(t: State, a: int, b: int, rows: seq<Row>, prune: bool)
    requires HistOk(t.hist, t.eid, t.width) && 0 <= a < b <= |t.hist| && rows == Flat(t.hist[a..b])
    ensures SysAscending(StableSort(rows)) && |Merged(rows, prune, t.horizon)| > 0
  {
    StretchSorted(t.hist, t.eid, t.width, a, b);
    var out := Merged(rows, prune, t.horizon);
    MergeOfListed(t, a, b, rows, PruneHorizon(prune, t.horizon), out);
  }

  /** The merge seam: prune the sorted rows in place when pruning is on. */
  method Merge(sorted: seq<Row>, prune: bool, horizon: int) returns (out: seq<Row>)
    requires SysAscending(sorted)
    ensures out == Pruned(sorted, PruneHorizon(prune, horizon))
  {
    if prune && horizon > 0 {
      var rows := new Row[|sorted|](i requires 0 <= i < |sorted| => sorted[i]);
      assert rows[..] == sorted;
      var sink := DominancePrune(rows, horizon);
      out := rows[..sink];
    } else {
      out := sorted;
    }
  }
}
