/** How pruning composes: with itself, with a rising horizon, and with the sorted merge
    of parts that were pruned before. */
module Merging {
  import opened Bytes
  import opened Rows
  import opened Pruning

  /** Order of the composite key fragments of one entity: system time, valid time and
      assertion time, each compared as a big-endian unsigned word. */
  predicate KeyLeq(a: Row, b: Row) {
    if ToU64(a.sysT) != ToU64(b.sysT) then ToU64(a.sysT) < ToU64(b.sysT)
    else if ToU64(a.vs) != ToU64(b.vs) then ToU64(a.vs) < ToU64(b.vs)
    else ToU64(a.ast) <= ToU64(b.ast)
  }

  predicate KeySorted(s: seq<Row>) {
    forall i, j :: 0 <= i < j < |s| ==> KeyLeq(s[i], s[j])
  }

  /** Insert after every row whose key is not greater: equal keys keep their order. */
  function Insert(s: seq<Row>, r: Row): (t: seq<Row>)
    ensures |t| == |s| + 1
  {
    if s == [] || KeyLeq(s[|s| - 1], r) then s + [r]
    else Insert(s[..|s| - 1], r) + [s[|s| - 1]]
  }

  /** The stable sort by composite key that the merge applies. */
  function StableSort(s: seq<Row>): (t: seq<Row>)
    ensures |t| == |s|
  {
    if s == [] then [] else Insert(StableSort(s[..|s| - 1]), s[|s| - 1])
  }

  lemma SortedSnoc(s: seq<Row>, x: Row)
    requires KeySorted(s) && forall y :: y in s ==> KeyLeq(y, x)
    ensures KeySorted(s + [x])
  {
  }

  lemma {:induction false} InsertSorted(s: seq<Row>, r: Row)
    requires KeySorted(s)
    ensures KeySorted(Insert(s, r)) && multiset(Insert(s, r)) == multiset(s) + multiset{r}
  {
    if s == [] || KeyLeq(s[|s| - 1], r) {
      forall y | y in s ensures KeyLeq(y, r) {
        SortedBelowLast(s, y, r);
      }
      SortedSnoc(s, r);
    } else {
      var init, last := s[..|s| - 1], s[|s| - 1];
      InsertSorted(init, r);
      var t := Insert(init, r);
      assert s == init + [last];
      forall x | x in t ensures KeyLeq(x, last) {
        assert x in multiset(t);
        assert x in init || x == r;
      }
      SortedSnoc(t, last);
    }
  }

  /** Rows with one given key, in order of appearance. */
  function WithKey(s: seq<Row>, k: Row): seq<Row> {
    if s == [] then []
    else WithKey(s[..|s| - 1], k) + (if SameKey(s[|s| - 1], k) then [s[|s| - 1]] else [])
  }

  predicate SameKey(a: Row, b: Row) {
    KeyLeq(a, b) && KeyLeq(b, a)
  }

  lemma {:induction false} InsertStable(s: seq<Row>, r: Row, k: Row)
    requires KeySorted(s)
    ensures WithKey(Insert(s, r), k) == WithKey(s + [r], k)
  {
    assert (s + [r])[..|s|] == s;
    if s != [] && !KeyLeq(s[|s| - 1], r) {
      var init, last := s[..|s| - 1], s[|s| - 1];
      InsertStable(init, r, k);
      assert (init + [r])[..|init|] == init;
      var t := Insert(init, r);
      assert (t + [last])[..|t|] == t;
    }
  }

  lemma {:induction false} WithKeyConcat(a: seq<Row>, b: seq<Row>, k: Row)
    ensures WithKey(a + b, k) == WithKey(a, k) + WithKey(b, k)
  {
    if b == [] {
      assert a + b == a;
    } else {
      assert (a + b)[..|a + b| - 1] == a + b[..|b| - 1];
      WithKeyConcat(a, b[..|b| - 1], k);
    }
  }

  /** The sort is a sort and a permutation. */
  lemma {:induction false} StableSortSorts(s: seq<Row>)
    ensures KeySorted(StableSort(s)) && multiset(StableSort(s)) == multiset(s)
  {
    if s != [] {
      var init, last := s[..|s| - 1], s[|s| - 1];
      StableSortSorts(init);
      InsertSorted(StableSort(init), last);
      assert s == init + [last];
    }
  }

  /** Rows with equal keys keep their order. */
  lemma {:induction false} StableSortStable(s: seq<Row>, k: Row)
    ensures WithKey(StableSort(s), k) == WithKey(s, k)
  {
    if s != [] {
      var init, last := s[..|s| - 1], s[|s| - 1];
      StableSortStable(init, k);
      StableSortSorts(init);
      InsertStable(StableSort(init), last, k);
      WithKeyConcat(StableSort(init), [last], k);
      WithKeyConcat(init, [last], k);
      assert s == init + [last];
    }
  }

  /** Rows that arrive in order stay where they are. */
  lemma {:induction false} StableSortIdentity(s: seq<Row>)
    requires KeySorted(s)
    ensures StableSort(s) == s
  {
    if s != [] {
      StableSortIdentity(s[..|s| - 1]);
      assert |s| > 1 ==> KeyLeq(s[|s| - 2], s[|s| - 1]);
    }
  }

  lemma SurvivorsSnoc(s: seq<Row>, x: Row, all: seq<Row>, h: int)
    ensures Survivors(s + [x], all, h) == Survivors(s, all, h) + (if Dominated(x, all, h) then [] else [x])
  {
    assert (s + [x])[..|s|] == s;
  }

  lemma InsertSnoc(s: seq<Row>, last: Row, r: Row)
    requires !KeyLeq(last, r)
    ensures Insert(s + [last], r) == Insert(s, r) + [last]
  {
    assert (s + [last])[..|s|] == s;
  }

  lemma {:induction false} SurvivorsInsert(s: seq<Row>, r: Row, all: seq<Row>, h: int)
    requires KeySorted(s)
    ensures Survivors(Insert(s, r), all, h)
         == if Dominated(r, all, h) then Survivors(s, all, h) else Insert(Survivors(s, all, h), r)
  {
    var kept := Survivors(s, all, h);
    if s == [] || KeyLeq(s[|s| - 1], r) {
      SurvivorsSnoc(s, r, all, h);
      if !Dominated(r, all, h) && kept != [] {
        var y := kept[|kept| - 1];
        assert y in s by { SurvivorsMembers(s, all, h); }
        SortedBelowLast(s, y, r);
      }
    } else {
      var init, last := s[..|s| - 1], s[|s| - 1];
      var u := Survivors(init, all, h);
      assert s == init + [last];
      SurvivorsInsert(init, r, all, h);
      SurvivorsSnoc(Insert(init, r), last, all, h);
      SurvivorsSnoc(init, last, all, h);
      InsertSnoc(u, last, r);
      if Dominated(last, all, h) {
        assert u + [] == u && Insert(u, r) + [] == Insert(u, r);
        assert kept == u;
      }
    }
  }

  lemma SortedBelowLast(s: seq<Row>, y: Row, r: Row)
    requires KeySorted(s) && y in s && KeyLeq(s[|s| - 1], r)
    ensures KeyLeq(y, r)
  {
    var i :| 0 <= i < |s| && s[i] == y;
    assert i < |s| - 1 ==> KeyLeq(s[i], s[|s| - 1]);
  }

  /** Dropping rows and sorting commute. */
  lemma {:induction false} SurvivorsSort(s: seq<Row>, all: seq<Row>, h: int)
    ensures Survivors(StableSort(s), all, h) == StableSort(Survivors(s, all, h))
  {
    if s != [] {
      var init, last := s[..|s| - 1], s[|s| - 1];
      var sorted, u := StableSort(init), Survivors(init, all, h);
      SurvivorsSort(init, all, h);
      assert KeySorted(sorted) by { StableSortSorts(init); }
      SurvivorsInsert(sorted, last, all, h);
      if Dominated(last, all, h) {
        assert Survivors(s, all, h) == u;
      } else {
        assert Survivors(s, all, h) == u + [last];
        assert (u + [last])[..|u|] == u;
        assert StableSort(u + [last]) == Insert(StableSort(u), last);
      }
    }
  }

  // ---- Composition -------------------------------------------------------------------

  lemma PruneIdempotent(rows: seq<Row>, h: int)
    ensures Pruned(Pruned(rows, h), h) == Pruned(rows, h)
  {
    PruneRaised(rows, h, h);
  }

  /** Pruning at one horizon and later at a higher one is pruning at the higher one. */
  lemma PruneRaised(rows: seq<Row>, h1: int, h2: int)
    requires h1 <= h2
    ensures Pruned(Pruned(rows, h1), h2) == Pruned(rows, h2)
  {
    if h1 > 0 {
      var mid := Pruned(rows, h1);
      forall x ensures Dominated(x, mid, h2) <==> Dominated(x, rows, h2) {
        DominanceThrough(rows, h1, h2, x);
      }
      SurvivorsAgree(mid, mid, h2, rows, h2);
      forall x | x in rows && Dominated(x, rows, h1) ensures Dominated(x, rows, h2) {
        var d :| d in rows && Dominates(d, x, h1);
      }
      SurvivorsTwice(rows, rows, h1, rows, h2);
    }
  }

  /** What an earlier prune left behind dominates, at a later horizon, all that the
      original rows dominate. */
  lemma DominanceThrough(rows: seq<Row>, h1: int, h2: int, x: Row)
    requires h1 <= h2
    ensures Dominated(x, Pruned(rows, h1), h2) <==> Dominated(x, rows, h2)
  {
    if h1 > 0 {
      SurvivorsMembers(rows, rows, h1);
      if Dominated(x, rows, h2) {
        var d :| d in rows && Dominates(d, x, h2);
        var top := SurvivingDominator(rows, x, d, h2);
        assert !Dominated(top, rows, h1) by {
          if e :| e in rows && Dominates(e, top, h1) {
            assert Dominates(e, top, h2);
          }
        }
        assert top in Pruned(rows, h1);
      }
    }
  }

  datatype Part = Part(rows: seq<Row>, horizon: int)

  function Concat(parts: seq<Part>): seq<Row> {
    if parts == [] then [] else Concat(parts[..|parts| - 1]) + parts[|parts| - 1].rows
  }

  /** The same parts after each was pruned at its own horizon. */
  function ConcatPruned(parts: seq<Part>): seq<Row> {
    if parts == [] then []
    else
      var p := parts[|parts| - 1];
      ConcatPruned(parts[..|parts| - 1]) + Pruned(p.rows, p.horizon)
  }

  ghost predicate Below(parts: seq<Part>, h: int) {
    forall i :: 0 <= i < |parts| ==> parts[i].horizon <= h
  }

  lemma {:induction false} PartsDominateAlike(parts: seq<Part>, h: int, x: Row)
    requires Below(parts, h)
    ensures Dominated(x, ConcatPruned(parts), h) <==> Dominated(x, Concat(parts), h)
  {
    if parts != [] {
      var init, p := parts[..|parts| - 1], parts[|parts| - 1];
      PartsDominateAlike(init, h, x);
      DominanceThrough(p.rows, p.horizon, h, x);
      DominatedConcat(x, ConcatPruned(init), Pruned(p.rows, p.horizon), h);
      DominatedConcat(x, Concat(init), p.rows, h);
    }
  }

  lemma DominatedConcat(x: Row, a: seq<Row>, b: seq<Row>, h: int)
    ensures Dominated(x, a + b, h) <==> Dominated(x, a, h) || Dominated(x, b, h)
  {
    if d :| d in a && Dominates(d, x, h) {
      assert d in a + b;
    }
    if d :| d in b && Dominates(d, x, h) {
      assert d in a + b;
    }
  }

  lemma {:induction false} PartsSurviveAlike(parts: seq<Part>, all: seq<Row>, h: int)
    requires Below(parts, h)
    requires forall i, x :: 0 <= i < |parts| && x in parts[i].rows ==> x in all
    ensures Survivors(ConcatPruned(parts), all, h) == Survivors(Concat(parts), all, h)
  {
    if parts != [] {
      var init, p := parts[..|parts| - 1], parts[|parts| - 1];
      PartsSurviveAlike(init, all, h);
      SurvivorsConcat(ConcatPruned(init), Pruned(p.rows, p.horizon), all, h);
      SurvivorsConcat(Concat(init), p.rows, all, h);
      if p.horizon > 0 {
        forall x | x in p.rows && Dominated(x, p.rows, p.horizon) ensures Dominated(x, all, h) {
          var d :| d in p.rows && Dominates(d, x, p.horizon);
          assert d in all && Dominates(d, x, h);
        }
        SurvivorsTwice(p.rows, p.rows, p.horizon, all, h);
      }
    }
  }

  lemma {:induction false} ConcatHolds(parts: seq<Part>, i: int, x: Row)
    requires 0 <= i < |parts| && x in parts[i].rows
    ensures x in Concat(parts)
  {
    if i < |parts| - 1 {
      ConcatHolds(parts[..|parts| - 1], i, x);
    }
  }

  /** Pruning the sorted merge of parts, each pruned before at its own lower horizon,
      gives exactly the rows of pruning the sorted merge of the originals. */
  lemma PruneMergesPruned(parts: seq<Part>, h: int)
    requires Below(parts, h) && h > 0
    ensures Pruned(StableSort(ConcatPruned(parts)), h) == Pruned(StableSort(Concat(parts)), h)
  {
    var thin, full := ConcatPruned(parts), Concat(parts);
    forall i, x | 0 <= i < |parts| && x in parts[i].rows ensures x in full {
      ConcatHolds(parts, i, x);
    }
    forall x ensures Dominated(x, thin, h) <==> Dominated(x, full, h) {
      PartsDominateAlike(parts, h, x);
    }
    PruneSorted(thin, h);
    PruneSorted(full, h);
    SurvivorsAgree(thin, thin, h, full, h);
    PartsSurviveAlike(parts, full, h);
  }

  /** Pruning after the sort is sorting after the prune. */
  lemma PruneSorted(s: seq<Row>, h: int)
    requires h > 0
    ensures Pruned(StableSort(s), h) == StableSort(Survivors(s, s, h))
  {
    StableSortSorts(s);
    forall x ensures x in StableSort(s) <==> x in s {
      assert x in multiset(StableSort(s)) <==> x in multiset(s);
    }
    SurvivorsAgree(StableSort(s), StableSort(s), h, s, h);
    SurvivorsSort(s, s, h);
  }
}
