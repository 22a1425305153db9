/** Which L0 files a query takes: those that no manifest it reads hides, and of them the newest
    when they are more than the cap. */
module TailFiles {
  import opened Basics
  import opened Rows
  import opened Store
  import opened StoreInvariant
  import opened StoreSafety
  import opened Resolver

  /** A manifest that the query reads lists the name: one at or below the transaction time, or
      any when the skip is off. */
  ghost predicate Hidden(s: State, cfg: Config, txTime: int, key: int) {
    exists mk :: mk in s.manifests && !(cfg.firstSysSkip && 0 <= mk && txTime < mk) && key in s.manifests[mk].l0Keys
  }

  /** The file at `p` of the history is in L0 and not hidden. */
  ghost predicate InTail(s: State, cfg: Config, txTime: int, p: int) {
    && 0 <= p < |s.hist| && s.hist[p] != [] && FirstSys(s.hist[p]) in s.l0
    && !Hidden(s, cfg, txTime, FirstSys(s.hist[p]))
  }

  /** How many such files come after `p`. */
  ghost function Newer(s: State, cfg: Config, txTime: int, p: int): nat
    requires -1 <= p
    decreases |s.hist| - p
  {
    if p + 1 >= |s.hist| then 0
    else Newer(s, cfg, txTime, p + 1) + (if InTail(s, cfg, txTime, p + 1) then 1 else 0)
  }

  /** It is one of the newest, as many as the cap allows. */
  ghost predicate Recent(s: State, cfg: Config, txTime: int, p: int) {
    InTail(s, cfg, txTime, p) && (cfg.maxL0Files <= 0 || Newer(s, cfg, txTime, p) < cfg.maxL0Files)
  }

  // ---- The newest ones ---------------------------------------------------------------------------

  lemma {:induction false} NewerFalls(s: State, cfg: Config, txTime: int, p: int, j: int)
    requires -1 <= j < p
    ensures Newer(s, cfg, txTime, p) <= Newer(s, cfg, txTime, j)
    ensures InTail(s, cfg, txTime, p) ==> Newer(s, cfg, txTime, p) < Newer(s, cfg, txTime, j)
    decreases p - j
  {
    if j + 1 < |s.hist| && j + 1 < p {
      NewerFalls(s, cfg, txTime, p, j + 1);
    }
  }

  /** A file of the tail that is not taken is older than every one that is. */
  lemma DroppedAreOlder(s: State, cfg: Config, txTime: int, p: int, j: int)
    requires HistOk(s.hist, s.eid, s.width)
    requires InTail(s, cfg, txTime, p) && !Recent(s, cfg, txTime, p) && Recent(s, cfg, txTime, j)
    ensures p < j && Before(s.hist[p], s.hist[j])
  {
    if j < p {
      NewerFalls(s, cfg, txTime, p, j);
    }
  }

  /** How many files after `p` are among the newest. */
  ghost function RecentAfter(s: State, cfg: Config, txTime: int, p: int): nat
    requires -1 <= p
    decreases |s.hist| - p
  {
    if p + 1 >= |s.hist| then 0
    else RecentAfter(s, cfg, txTime, p + 1) + (if Recent(s, cfg, txTime, p + 1) then 1 else 0)
  }

  /** Of a tail over the cap exactly as many files are taken as the cap says, of any other all. */
  lemma {:induction false} TakenUpToCap(s: State, cfg: Config, txTime: int, p: int)
    requires -1 <= p
    ensures RecentAfter(s, cfg, txTime, p)
         == if 0 < cfg.maxL0Files < Newer(s, cfg, txTime, p) then cfg.maxL0Files else Newer(s, cfg, txTime, p)
    decreases |s.hist| - p
  {
    if p + 1 < |s.hist| {
      TakenUpToCap(s, cfg, txTime, p + 1);
    }
  }

  // ---- What the query computes --------------------------------------------------------------------

  lemma {:induction false} SupersededIff(manifests: map<int, Manifest>, listed: seq<int>, cfg: Config, txTime: int, key: int)
    ensures key in Superseded(manifests, listed, cfg, txTime)
       <==> exists i :: 0 <= i < |listed| && listed[i] in manifests && !Skips(listed[i], cfg, txTime)
                        && key in manifests[listed[i]].l0Keys
  {
    if listed != [] {
      var n := |listed| - 1;
      SupersededIff(manifests, listed[..n], cfg, txTime, key);
      assert forall i :: 0 <= i < n ==> listed[..n][i] == listed[i];
    }
  }

  lemma HiddenIff(s: State, cfg: Config, txTime: int, listed: seq<int>, key: int)
    requires IsListing(listed, s.manifests.Keys)
    ensures key in Superseded(s.manifests, listed, cfg, txTime) <==> Hidden(s, cfg, txTime, key)
  {
    SupersededIff(s.manifests, listed, cfg, txTime, key);
    if Hidden(s, cfg, txTime, key) {
      var mk :| mk in s.manifests && !(cfg.firstSysSkip && 0 <= mk && txTime < mk) && key in s.manifests[mk].l0Keys;
      assert mk in s.manifests.Keys;
      var i :| 0 <= i < |listed| && listed[i] == mk;
    }
  }

  ghost predicate HidesExactly(s: State, cfg: Config, txTime: int, superseded: set<int>) {
    forall k :: k in superseded <==> Hidden(s, cfg, txTime, k)
  }

  lemma HidesAll(s: State, cfg: Config, txTime: int, listed: seq<int>)
    requires IsListing(listed, s.manifests.Keys)
    ensures HidesExactly(s, cfg, txTime, Superseded(s.manifests, listed, cfg, txTime))
  {
    forall k ensures k in Superseded(s.manifests, listed, cfg, txTime) <==> Hidden(s, cfg, txTime, k) {
      HiddenIff(s, cfg, txTime, listed, k);
    }
  }

  lemma {:induction false} TailPrefix(l0: seq<int>, superseded: set<int>, j: nat)
    requires j <= |l0|
    ensures Tail(l0[..j], superseded) <= Tail(l0, superseded)
    decreases |l0| - j
  {
    if j == |l0| {
      assert l0[..j] == l0;
    } else {
      TailPrefix(l0, superseded, j + 1);
      assert l0[..j + 1][..j] == l0[..j];
    }
  }

  /** A name that is not hidden stands in the tail after those before it. */
  lemma TailAt(l0: seq<int>, superseded: set<int>, j: nat)
    requires j < |l0| && l0[j] !in superseded
    ensures var at := |Tail(l0[..j], superseded)|; at < |Tail(l0, superseded)| && Tail(l0, superseded)[at] == l0[j]
  {
    TailPrefix(l0, superseded, j + 1);
    assert l0[..j + 1][..j] == l0[..j];
  }

  lemma {:induction false} TailAscends(l0: seq<int>, superseded: set<int>)
    requires Ascending(l0)
    ensures Ascending(Tail(l0, superseded))
  {
    if l0 != [] {
      var n := |l0| - 1;
      TailAscends(l0[..n], superseded);
      TailMembers(l0[..n], superseded);
      var before := Tail(l0[..n], superseded);
      forall i | 0 <= i < |before| ensures before[i] < l0[n] {
        assert before[i] in before;
      }
    }
  }

  ghost predicate Lists(keys: seq<int>, files: map<int, File>) {
    forall k :: k in keys <==> k in files
  }

  lemma ListsAll(keys: seq<int>, files: map<int, File>)
    requires IsListing(keys, files.Keys)
    ensures Lists(keys, files)
  {
    forall k ensures k in keys <==> k in files {
      assert k in files <==> k in files.Keys;
    }
  }

  /** The names after the first `j` put as many into the tail as files there are newer. */
  lemma {:induction false} TailCounts(s: State, lo: int, cfg: Config, txTime: int, l0: seq<int>, superseded: set<int>, j: nat)
    requires Segment(l0, s.hist, lo) && lo + |l0| == |s.hist| && Lists(l0, s.l0) && j <= |l0|
    requires HidesExactly(s, cfg, txTime, superseded)
    ensures |Tail(l0, superseded)| == |Tail(l0[..j], superseded)| + Newer(s, cfg, txTime, lo + j - 1)
    decreases |l0| - j
  {
    if j == |l0| {
      assert l0[..j] == l0;
    } else {
      TailCounts(s, lo, cfg, txTime, l0, superseded, j + 1);
      assert l0[..j + 1][..j] == l0[..j];
      assert l0[lo + j - lo] == FirstSys(s.hist[lo + j]) && l0[j] in l0;
    }
  }

  lemma CappedIff(tail: seq<int>, max: int, i: nat)
    requires Ascending(tail) && i < |tail|
    ensures tail[i] in Capped(tail, max) <==> max <= 0 || |tail| - 1 - i < max
  {
    if tail[i] in Capped(tail, max) && max > 0 && |tail| > max {
      var k :| 0 <= k < max && Capped(tail, max)[k] == tail[i];
      assert tail[|tail| - max + k] == tail[i];
    }
    if 0 < max < |tail| && |tail| - 1 - i < max {
      assert Capped(tail, max)[i - (|tail| - max)] == tail[i];
    }
  }

  /** The capped tail has exactly the names of the newest files. */
  lemma CappedIsRecent(s: State, lo: int, q: Query, cfg: Config, ls: Listings, p: int)
    requires HistOk(s.hist, s.eid, s.width) && L0Suffix(s.l0, s.hist, lo) && ListingsOf(ls, s)
    requires 0 <= p < |s.hist| && s.hist[p] != []
    ensures FirstSys(s.hist[p]) in Capped(QueryTail(s, q, cfg, ls), cfg.maxL0Files) <==> Recent(s, cfg, q.txTime, p)
  {
    var superseded := Superseded(s.manifests, ls.manifests, cfg, q.txTime);
    HidesAll(s, cfg, q.txTime, ls.manifests);
    ListsAll(ls.l0, s.l0);
    if InTail(s, cfg, q.txTime, p) {
      ListingIsSegment(s, lo, ls.l0);
      ListingAscends(s, lo, ls.l0);
      InsideTail(s, lo, cfg, q.txTime, ls.l0, superseded, p);
    } else {
      OutsideTail(s, cfg, q.txTime, ls.l0, superseded, p);
    }
  }

  lemma InsideTail(s: State, lo: int, cfg: Config, txTime: int, l0: seq<int>, superseded: set<int>, p: int)
    requires HistOk(s.hist, s.eid, s.width) && L0Suffix(s.l0, s.hist, lo) && Lists(l0, s.l0)
    requires Segment(l0, s.hist, lo) && lo + |l0| == |s.hist| && Ascending(l0)
    requires HidesExactly(s, cfg, txTime, superseded) && InTail(s, cfg, txTime, p)
    ensures FirstSys(s.hist[p]) in Capped(Tail(l0, superseded), cfg.maxL0Files)
       <==> cfg.maxL0Files <= 0 || Newer(s, cfg, txTime, p) < cfg.maxL0Files
  {
    var j := PlaceOf(s, lo, l0, p);
    assert l0[j] !in superseded;
    CappedAt(s, lo, cfg, txTime, l0, superseded, j);
  }

  lemma OutsideTail(s: State, cfg: Config, txTime: int, l0: seq<int>, superseded: set<int>, p: int)
    requires Lists(l0, s.l0) && HidesExactly(s, cfg, txTime, superseded)
    requires 0 <= p < |s.hist| && s.hist[p] != [] && !InTail(s, cfg, txTime, p)
    ensures FirstSys(s.hist[p]) !in Capped(Tail(l0, superseded), cfg.maxL0Files)
  {
    TailMembers(l0, superseded);
    CappedWithin(Tail(l0, superseded), cfg.maxL0Files, FirstSys(s.hist[p]));
  }

  lemma CappedWithin(tail: seq<int>, max: int, key: int)
    requires key !in tail
    ensures key !in Capped(tail, max)
  {
  }

  lemma CappedAt(s: State, lo: int, cfg: Config, txTime: int, l0: seq<int>, superseded: set<int>, j: nat)
    requires Segment(l0, s.hist, lo) && lo + |l0| == |s.hist| && Lists(l0, s.l0) && Ascending(l0)
    requires HidesExactly(s, cfg, txTime, superseded) && j < |l0| && l0[j] !in superseded
    ensures l0[j] in Capped(Tail(l0, superseded), cfg.maxL0Files)
       <==> cfg.maxL0Files <= 0 || Newer(s, cfg, txTime, lo + j) < cfg.maxL0Files
  {
    var at := TailPlace(s, lo, cfg, txTime, l0, superseded, j);
    assert Ascending(Tail(l0, superseded)) by { TailAscends(l0, superseded); }
    CappedIff(Tail(l0, superseded), cfg.maxL0Files, at);
  }

  /** Where a name that is not hidden stands in the tail, and how many files are newer. */
  lemma TailPlace(s: State, lo: int, cfg: Config, txTime: int, l0: seq<int>, superseded: set<int>, j: nat) returns (at: nat)
    requires Segment(l0, s.hist, lo) && lo + |l0| == |s.hist| && Lists(l0, s.l0)
    requires HidesExactly(s, cfg, txTime, superseded) && j < |l0| && l0[j] !in superseded
    ensures at < |Tail(l0, superseded)| && Tail(l0, superseded)[at] == l0[j]
    ensures |Tail(l0, superseded)| - 1 - at == Newer(s, cfg, txTime, lo + j)
  {
    at := |Tail(l0[..j], superseded)|;
    TailAt(l0, superseded, j);
    TailCounts(s, lo, cfg, txTime, l0, superseded, j + 1);
    assert l0[..j + 1][..j] == l0[..j];
  }

  /** Where a file of L0 stands in the listing. */
  lemma PlaceOf(s: State, lo: int, l0: seq<int>, p: int) returns (j: nat)
    requires HistOk(s.hist, s.eid, s.width) && L0Suffix(s.l0, s.hist, lo) && Segment(l0, s.hist, lo) && lo + |l0| == |s.hist|
    requires 0 <= p < |s.hist| && s.hist[p] != [] && FirstSys(s.hist[p]) in s.l0
    ensures j < |l0| && l0[j] == FirstSys(s.hist[p]) && lo + j == p
  {
    assert Named(s.hist, lo, FirstSys(s.hist[p]));
    var i :| lo <= i < |s.hist| && s.hist[i] != [] && FirstSys(s.hist[i]) == FirstSys(s.hist[p]);
    KeyOrder(s, i, p);
    j := p - lo;
    assert l0[p - lo] == FirstSys(s.hist[p]);
  }
}
