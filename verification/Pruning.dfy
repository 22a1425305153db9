/** Level-2 superseded-row elimination over the merged, sorted rows of one entity:
    the reverse active-set sweep, the quadratic rule it must agree with, and what the
    rule promises to queries at or above the horizon. */
module Pruning {
  import opened Basics
  import opened Rows

  /** (C1) newer, (C2) containing, (C3) at or below the horizon. */
  predicate Dominates(d: Row, r: Row, h: int) {
    d.sysT > r.sysT && d.vs <= r.vs && d.ve >= r.ve && d.sysT <= h
  }

  predicate Dominated(r: Row, all: seq<Row>, h: int) {
    exists d :: d in all && Dominates(d, r, h)
  }

  /** The rows of `s`, in order, that no row of `all` dominates. */
  function Survivors(s: seq<Row>, all: seq<Row>, h: int): seq<Row> {
    if s == [] then []
    else
      var last := s[|s| - 1];
      Survivors(s[..|s| - 1], all, h) + (if Dominated(last, all, h) then [] else [last])
  }

  /** The quadratic rule: every row is held against the whole input. A horizon of
      zero or less preserves all rows. */
  function Pruned(rows: seq<Row>, h: int): seq<Row> {
    if h <= 0 then rows else Survivors(rows, rows, h)
  }

  predicate SysAscending(rows: seq<Row>) {
    forall i, j :: 0 <= i < j < |rows| ==> rows[i].sysT <= rows[j].sysT
  }

  /** A merge holds the rows of a single entity: extraction filters on the entity id. */
  predicate OneEntity(rows: seq<Row>) {
    forall x, y :: x in rows && y in rows ==> x.eid == y.eid
  }

  // ---- The rule -------------------------------------------------------------------

  lemma {:induction false} SurvivorsMembers(s: seq<Row>, all: seq<Row>, h: int)
    ensures forall x :: x in Survivors(s, all, h) <==> x in s && !Dominated(x, all, h)
  {
    if s != [] {
      SurvivorsMembers(s[..|s| - 1], all, h);
      assert s == s[..|s| - 1] + [s[|s| - 1]];
    }
  }

  lemma {:induction false} SurvivorsConcat(a: seq<Row>, b: seq<Row>, all: seq<Row>, h: int)
    ensures Survivors(a + b, all, h) == Survivors(a, all, h) + Survivors(b, all, h)
  {
    if b == [] {
      assert a + b == a;
    } else {
      var n := |b| - 1;
      assert (a + b)[..|a + b| - 1] == a + b[..n];
      SurvivorsConcat(a, b[..n], all, h);
    }
  }

  lemma {:induction false} SurvivorsAgree(s: seq<Row>, all: seq<Row>, h: int, all': seq<Row>, h': int)
    requires forall x :: x in s ==> (Dominated(x, all, h) <==> Dominated(x, all', h'))
    ensures Survivors(s, all, h) == Survivors(s, all', h')
  {
    if s != [] {
      SurvivorsAgree(s[..|s| - 1], all, h, all', h');
    }
  }

  /** Filtering twice is filtering by the stricter test. */
  lemma {:induction false} SurvivorsTwice(s: seq<Row>, all: seq<Row>, h: int, all': seq<Row>, h': int)
    requires forall x :: x in s && Dominated(x, all, h) ==> Dominated(x, all', h')
    ensures Survivors(Survivors(s, all, h), all', h') == Survivors(s, all', h')
  {
    if s != [] {
      var init, last := s[..|s| - 1], s[|s| - 1];
      SurvivorsTwice(init, all, h, all', h');
      SurvivorsConcat(Survivors(init, all, h), if Dominated(last, all, h) then [] else [last], all', h');
      assert [last][..0] == [];
      assert Survivors([last], all', h') == if Dominated(last, all', h') then [] else [last];
    }
  }

  /** Dominance chains end: a dominated row has a dominator that is itself a survivor.
      System time rises along the chain and the horizon bounds it. */
  lemma {:induction false} SurvivingDominator(rows: seq<Row>, r: Row, d: Row, h: int) returns (top: Row)
    requires d in rows && Dominates(d, r, h)
    ensures top in rows && Dominates(top, r, h) && !Dominated(top, rows, h)
    decreases h - d.sysT
  {
    if Dominated(d, rows, h) {
      var e :| e in rows && Dominates(e, d, h);
      top := SurvivingDominator(rows, r, e, h);
    } else {
      top := d;
    }
  }

  /** The rows left after pruning dominate exactly what the full input dominates. */
  lemma SurvivorsDominateAlike(rows: seq<Row>, r: Row, h: int)
    ensures Dominated(r, Survivors(rows, rows, h), h) <==> Dominated(r, rows, h)
  {
    SurvivorsMembers(rows, rows, h);
    if Dominated(r, rows, h) {
      var d :| d in rows && Dominates(d, r, h);
      var top := SurvivingDominator(rows, r, d, h);
      assert top in Survivors(rows, rows, h);
    }
  }

  /** Never empty on a non-empty input. */
  lemma PrunedNonEmpty(rows: seq<Row>, h: int)
    requires rows != []
    ensures Pruned(rows, h) != []
  {
    if h > 0 {
      SurvivorsMembers(rows, rows, h);
      var r := rows[0];
      if Dominated(r, rows, h) {
        var d :| d in rows && Dominates(d, r, h);
        var top := SurvivingDominator(rows, r, d, h);
        assert top in Pruned(rows, h);
      } else {
        assert r in Pruned(rows, h);
      }
    }
  }

  /** An order-preserving embedding: the output is the input with rows left out. */
  ghost predicate Subsequence(s: seq<Row>, of: seq<Row>, at: seq<int>) {
    && |at| == |s|
    && (forall i :: 0 <= i < |at| ==> 0 <= at[i] < |of| && of[at[i]] == s[i])
    && (forall i, j :: 0 <= i < j < |at| ==> at[i] < at[j])
  }

  lemma SubsequenceSnoc(s: seq<Row>, of: seq<Row>, at: seq<int>, x: Row)
    requires Subsequence(s, of, at)
    ensures Subsequence(s, of + [x], at)
    ensures Subsequence(s + [x], of + [x], at + [|of|])
  {
  }

  lemma {:induction false} SurvivorsSubsequence(s: seq<Row>, all: seq<Row>, h: int) returns (at: seq<int>)
    ensures Subsequence(Survivors(s, all, h), s, at)
  {
    if s == [] {
      at := [];
    } else {
      var init, last := s[..|s| - 1], s[|s| - 1];
      at := SurvivorsSubsequence(init, all, h);
      SubsequenceSnoc(Survivors(init, all, h), init, at, last);
      assert s == init + [last];
      if !Dominated(last, all, h) {
        at := at + [|init|];
      } else {
        assert Survivors(s, all, h) == Survivors(init, all, h);
      }
    }
  }

  /** The pruned rows are the input rows, in order, that the quadratic rule keeps. */
  lemma PrunedSubsequence(rows: seq<Row>, h: int) returns (at: seq<int>)
    ensures Subsequence(Pruned(rows, h), rows, at)
    ensures forall x :: x in Pruned(rows, h) <==> x in rows && (h <= 0 || !Dominated(x, rows, h))
  {
    if h <= 0 {
      at := seq(|rows|, i => i);
    } else {
      SurvivorsMembers(rows, rows, h);
      at := SurvivorsSubsequence(rows, rows, h);
    }
  }

  lemma PrunedSysAscending(rows: seq<Row>, h: int)
    requires SysAscending(rows)
    ensures SysAscending(Pruned(rows, h))
  {
    var at := PrunedSubsequence(rows, h);
  }

  // ---- Answers are preserved ---------------------------------------------------------

  lemma SurvivorsAround(a: seq<Row>, r: Row, b: seq<Row>, all: seq<Row>, h: int)
    requires !Dominated(r, all, h)
    ensures Survivors(a + [r] + b, all, h) == Survivors(a, all, h) + [r] + Survivors(b, all, h)
  {
    SurvivorsConcat(a + [r], b, all, h);
    SurvivorsConcat(a, [r], all, h);
    assert [r][..0] == [];
  }

  lemma FirstBestSurvives(rows: seq<Row>, h: int, q: Query, i: int)
    requires q.txTime >= h && OneEntity(rows) && FirstBestAt(rows, q, i)
    ensures IsAnswer(Survivors(rows, rows, h), q, Some(rows[i]))
  {
    var r, a, b := rows[i], rows[..i], rows[i + 1..];
    assert !Dominated(r, rows, h) by {
      AnswerNotDominated(rows, h, q, r);
    }
    var sa, sb := Survivors(a, rows, h), Survivors(b, rows, h);
    assert Survivors(rows, rows, h) == sa + [r] + sb by {
      assert rows == a + [r] + b;
      SurvivorsAround(a, r, b, rows, h);
    }
    assert forall x :: x in sa ==> x in a by { SurvivorsMembers(a, rows, h); }
    assert forall x :: x in sb ==> x in b by { SurvivorsMembers(b, rows, h); }
    FirstBestAround(sa, r, sb, q);
  }

  /** For every valid time and every transaction time at or above the horizon, the scan
      picks the identical row, ties included, after pruning. */
  lemma PruneKeepsAnswer(rows: seq<Row>, h: int, q: Query)
    requires q.txTime >= h && OneEntity(rows)
    ensures Scan(Pruned(rows, h), q) == Scan(rows, q)
  {
    if h > 0 {
      ScanIsAnswer(rows, q);
      var ans := Scan(rows, q);
      SurvivorsMembers(rows, rows, h);
      if ans.Some? {
        var i :| FirstBestAt(rows, q, i) && rows[i] == ans.value;
        FirstBestSurvives(rows, h, q, i);
      }
      ScanIsAnswer(Pruned(rows, h), q);
      AnswerUnique(Pruned(rows, h), q, ans, Scan(Pruned(rows, h), q));
    }
  }

  /** A row no newer eligible row follows is not dominated at or below the query time. */
  lemma AnswerNotDominated(rows: seq<Row>, h: int, q: Query, r: Row)
    requires q.txTime >= h && Eligible(r, q)
    requires forall x :: x in rows && Eligible(x, q) ==> x.sysT <= r.sysT
    requires OneEntity(rows) && r in rows
    ensures !Dominated(r, rows, h)
  {
    if Dominated(r, rows, h) {
      var d :| d in rows && Dominates(d, r, h);
      assert Eligible(d, q);
      assert false;
    }
  }
}
