/** The tri-temporal row of the durable index, the point query, and the scan that
    answers it: the newest row visible at the query's coordinates. */
module Rows {
  import opened Basics

  /** One row of an L0 or L1 Arrow file. The 16-byte entity hash column is a function
      of `eid` and is not carried separately. */
  datatype Row = Row(
    eid: seq<int>,
    sysT: int,
    vs: int,
    ve: int,
    ast: int,
    h3: int,
    digest: seq<int>,
    payload: seq<int>)

  /** The coordinates of one as-of query. */
  datatype Query = Query(eid: seq<int>, validTime: int, txTime: int)

  /** Filters 2, 3 and 4 of the row scan. */
  predicate Visible(r: Row, q: Query) {
    r.eid == q.eid && r.sysT <= q.txTime && r.vs <= q.validTime < r.ve
  }

  /** The best-so-far comparison starts from system time 0 and is strict, so a row can
      only ever be returned when its system time is positive. */
  predicate Eligible(r: Row, q: Query) {
    Visible(r, q) && r.sysT > 0
  }

  function BestSys(best: Option<Row>): int {
    if best.Some? then best.value.sysT else 0
  }

  /** The strict comparison: the first row met wins a tie. */
  function Better(best: Option<Row>, candidate: Option<Row>): Option<Row> {
    if candidate.Some? && candidate.value.sysT > BestSys(best) then candidate else best
  }

  /** The answer of a scan over `s` in order. */
  function Scan(s: seq<Row>, q: Query): Option<Row> {
    if s == [] then None
    else
      var best := Scan(s[..|s| - 1], q);
      var last := s[|s| - 1];
      if Visible(last, q) then Better(best, Some(last)) else best
  }

  /** Position `i` holds the first of the eligible rows with the greatest system time. */
  predicate FirstBestAt(s: seq<Row>, q: Query, i: int) {
    && 0 <= i < |s| && Eligible(s[i], q)
    && (forall j :: 0 <= j < i && Eligible(s[j], q) ==> s[j].sysT < s[i].sysT)
    && (forall j :: i < j < |s| && Eligible(s[j], q) ==> s[j].sysT <= s[i].sysT)
  }

  /** What a scan answer means, without reference to the scan: nothing is eligible, or
      the answer is the first of the eligible rows with the greatest system time. */
  ghost predicate IsAnswer(s: seq<Row>, q: Query, ans: Option<Row>) {
    match ans
    case None => forall x :: x in s ==> !Eligible(x, q)
    case Some(r) => exists i :: FirstBestAt(s, q, i) && s[i] == r
  }

  lemma {:induction false} ScanIsAnswer(s: seq<Row>, q: Query)
    ensures IsAnswer(s, q, Scan(s, q))
  {
    if s != [] {
      var n := |s| - 1;
      var init, last := s[..n], s[n];
      ScanIsAnswer(init, q);
      var best := Scan(init, q);
      assert forall x :: x in s <==> x in init || x == last;
      if best.Some? {
        var i :| FirstBestAt(init, q, i) && init[i] == best.value;
        assert FirstBestAt(s, q, if Scan(s, q) == best then i else n);
      } else if Scan(s, q).Some? {
        assert FirstBestAt(s, q, n);
      }
    }
  }

  /** Every eligible row of the scanned sequence is at or below the answer. */
  lemma {:induction false} BestBounds(s: seq<Row>, q: Query, x: Row)
    requires x in s && Eligible(x, q)
    ensures Scan(s, q).Some? && x.sysT <= Scan(s, q).value.sysT
  {
    var init, last := s[..|s| - 1], s[|s| - 1];
    ScanPositive(init, q);
    if x in init {
      BestBounds(init, q, x);
    } else {
      assert x == last;
    }
  }

  lemma {:induction false} ScanPositive(s: seq<Row>, q: Query)
    ensures Scan(s, q).Some? ==> Scan(s, q).value in s && Eligible(Scan(s, q).value, q)
  {
    if s != [] {
      ScanPositive(s[..|s| - 1], q);
    }
  }

  /** The answer is determined by its meaning. */
  lemma AnswerUnique(s: seq<Row>, q: Query, a: Option<Row>, b: Option<Row>)
    requires IsAnswer(s, q, a) && IsAnswer(s, q, b)
    ensures a == b
  {
    if a.Some? && b.Some? {
      var i :| FirstBestAt(s, q, i) && s[i] == a.value;
      var j :| FirstBestAt(s, q, j) && s[j] == b.value;
      assert i == j;
    }
  }

  lemma FirstBestAround(a: seq<Row>, r: Row, b: seq<Row>, q: Query)
    requires Eligible(r, q)
    requires forall x :: x in a && Eligible(x, q) ==> x.sysT < r.sysT
    requires forall x :: x in b && Eligible(x, q) ==> x.sysT <= r.sysT
    ensures IsAnswer(a + [r] + b, q, Some(r))
  {
    assert FirstBestAt(a + [r] + b, q, |a|);
  }
}
