/** The in-place active-dominator-set sweep that implements the pruning rule. */
module Sweep {
  import opened Rows
  import opened Pruning

  /** The carrier of the containment test; newer and floor-admitted hold by sweep order. */
  datatype Interval = Interval(vs: int, ve: int)

  predicate Contains(l: Interval, r: Row) {
    l.vs <= r.vs && l.ve >= r.ve
  }

  predicate Hit(live: seq<Interval>, r: Row) {
    exists l :: l in live && Contains(l, r)
  }

  /** `live` holds the intervals of exactly the surviving, floor-admitted rows of
      `rows[end..]`. */
  ghost predicate LiveSet(live: seq<Interval>, rows: seq<Row>, end: nat, h: int)
    requires end <= |rows|
  {
    && (forall l :: l in live ==> exists j :: end <= j < |rows| && Admitted(rows, j, h) && IntervalOf(rows[j]) == l)
    && (forall j :: end <= j < |rows| && Admitted(rows, j, h) ==> IntervalOf(rows[j]) in live)
  }

  ghost predicate Admitted(rows: seq<Row>, j: int, h: int)
    requires 0 <= j < |rows|
  {
    rows[j].sysT <= h && !Dominated(rows[j], rows, h)
  }

  function IntervalOf(r: Row): Interval {
    Interval(r.vs, r.ve)
  }

  /** The containment probe against the live set decides the full quadratic rule. */
  lemma ProbeDecides(live: seq<Interval>, rows: seq<Row>, end: nat, h: int, r: Row)
    requires SysAscending(rows) && end <= |rows| && LiveSet(live, rows, end, h)
    requires forall j :: 0 <= j < end ==> rows[j].sysT <= r.sysT
    requires forall j :: end <= j < |rows| ==> rows[j].sysT > r.sysT
    ensures Dominated(r, rows, h) <==> Hit(live, r)
  {
    if Dominated(r, rows, h) {
      var d :| d in rows && Dominates(d, r, h);
      var top := SurvivingDominator(rows, r, d, h);
      var j :| 0 <= j < |rows| && rows[j] == top;
      assert Admitted(rows, j, h);
      assert IntervalOf(rows[j]) in live && Contains(IntervalOf(rows[j]), r);
    }
    if l :| l in live && Contains(l, r) {
      var j :| end <= j < |rows| && Admitted(rows, j, h) && IntervalOf(rows[j]) == l;
      assert rows[j] in rows && Dominates(rows[j], r, h);
    }
  }

  method Probe(live: seq<Interval>, r: Row) returns (found: bool)
    ensures found == Hit(live, r)
  {
    found := false;
    for i := 0 to |live|
      invariant forall l :: l in live[..i] ==> !Contains(l, r)
    {
      if Contains(live[i], r) {
        return true;
      }
    }
    assert live[..|live|] == live;
  }

  /** Admit the survivors of the batch `[start, end)` into the live set. */
  method Admit(rows: seq<Row>, dominated: seq<bool>, start: nat, end: nat, h: int, live: seq<Interval>)
    returns (more: seq<Interval>)
    requires start < end <= |rows| == |dominated| && LiveSet(live, rows, end, h)
    requires forall i :: start <= i < end ==> rows[i].sysT == rows[end - 1].sysT
    requires forall i :: start <= i < end ==> dominated[i] == Dominated(rows[i], rows, h)
    ensures LiveSet(more, rows, start, h)
  {
    more := live;
    if rows[end - 1].sysT <= h {
      for i := start to end
        invariant forall l :: l in more ==> exists j :: start <= j < |rows| && Admitted(rows, j, h) && IntervalOf(rows[j]) == l
        invariant forall j :: end <= j < |rows| && Admitted(rows, j, h) ==> IntervalOf(rows[j]) in more
        invariant forall j :: start <= j < i && Admitted(rows, j, h) ==> IntervalOf(rows[j]) in more
      {
        if !dominated[i] {
          assert Admitted(rows, i, h);
          more := more + [IntervalOf(rows[i])];
        }
      }
    }
  }

  /** For every row of an equal-system-time batch, the probe decides dominance. */
  lemma BatchDecides(live: seq<Interval>, rows: seq<Row>, start: nat, end: nat, h: int, i: nat)
    requires SysAscending(rows) && start <= i < end <= |rows| && LiveSet(live, rows, end, h)
    requires rows[start].sysT == rows[end - 1].sysT && (end < |rows| ==> rows[end - 1].sysT < rows[end].sysT)
    ensures Dominated(rows[i], rows, h) == Hit(live, rows[i])
  {
    ProbeDecides(live, rows, end, h, rows[i]);
  }

  /** Probe every row of the equal-system-time batch `[start, end)`. */
  method MarkBatch(rows: array<Row>, dominated: array<bool>, start: nat, end: nat, h: int, live: seq<Interval>)
    requires SysAscending(rows[..]) && start < end <= rows.Length == dominated.Length
    requires LiveSet(live, rows[..], end, h)
    requires rows[start].sysT == rows[end - 1].sysT
    requires end < rows.Length ==> rows[end - 1].sysT < rows[end].sysT
    modifies dominated
    ensures forall i :: start <= i < end ==> dominated[i] == Dominated(rows[i], rows[..], h)
    ensures forall i :: 0 <= i < start || end <= i < rows.Length ==> dominated[i] == old(dominated[i])
  {
    ghost var all := rows[..];
    for i := start to end
      invariant forall k :: start <= k < i ==> dominated[k] == Dominated(rows[k], all, h)
      invariant forall k :: 0 <= k < start || end <= k < rows.Length ==> dominated[k] == old(dominated[k])
    {
      BatchDecides(live, all, start, end, h, i);
      var hit := Probe(live, rows[i]);
      dominated[i] := hit;
    }
  }

  /** The marks the reverse sweep computes: one per row, true exactly for the rows that
      the quadratic rule drops. */
  method Mark(rows: array<Row>, h: int) returns (dominated: array<bool>)
    requires SysAscending(rows[..])
    ensures fresh(dominated) && dominated.Length == rows.Length
    ensures forall i :: 0 <= i < rows.Length ==> dominated[i] == Dominated(rows[i], rows[..], h)
  {
    dominated := new bool[rows.Length];
    ghost var all := rows[..];
    var live: seq<Interval> := [];
    var end := rows.Length;
    while end > 0
      invariant 0 <= end <= rows.Length
      invariant forall i :: end <= i < rows.Length ==> dominated[i] == Dominated(rows[i], all, h)
      invariant LiveSet(live, all, end, h)
      invariant 0 < end < rows.Length ==> rows[end - 1].sysT < rows[end].sysT
    {
      var start := end - 1;
      while start > 0 && rows[start - 1].sysT == rows[end - 1].sysT
        invariant 0 <= start < end
        invariant forall i :: start <= i < end ==> rows[i].sysT == rows[end - 1].sysT
      {
        start := start - 1;
      }
      MarkBatch(rows, dominated, start, end, h, live);
      live := Admit(rows[..], dominated[..], start, end, h, live);
      end := start;
    }
  }

  /** DominancePrune: the surviving rows are compacted to the front of the slice, and
      `sink` is the length of the returned prefix. */
  method DominancePrune(rows: array<Row>, horizon: int) returns (sink: nat)
    requires SysAscending(rows[..])
    modifies rows
    ensures sink <= rows.Length
    ensures rows[..sink] == Pruned(old(rows[..]), horizon)
  {
    if rows.Length == 0 || horizon <= 0 {
      return rows.Length;
    }
    ghost var all := rows[..];
    var dominated := Mark(rows, horizon);
    sink := 0;
    for i := 0 to rows.Length
      invariant sink <= i
      invariant forall k :: i <= k < rows.Length ==> rows[k] == all[k]
      invariant forall k :: 0 <= k < rows.Length ==> dominated[k] == Dominated(all[k], all, horizon)
      invariant rows[..sink] == Survivors(all[..i], all, horizon)
    {
      assert all[..i + 1][..i] == all[..i];
      if !dominated[i] {
        rows[sink] := rows[i];
        sink := sink + 1;
      }
    }
    assert all[..rows.Length] == all;
  }
}
