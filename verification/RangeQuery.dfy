/** The window query: every row whose valid interval meets a window, over the same files
    the point query scans, with live rows merged in by row identity. */
module RangeQuery {
  import opened Basics
  import opened Rows
  import opened Store
  import opened StoreInvariant
  import opened StoreSafety
  import opened Resolver
  import opened TailFiles
  import opened AsOfCorrect
  import opened FailedReads
  import opened PartialAnswers

  /** The half-open valid-time window [lo, hi) of one entity at a transaction time. */
  datatype Window = Window(eid: seq<int>, lo: int, hi: int, txTime: int)

  /** Interval intersection, not point membership. */
  predicate Meets(r: Row, w: Window) {
    r.eid == w.eid && r.sysT <= w.txTime && r.vs < w.hi && r.ve > w.lo
  }

  // ---- Specification -------------------------------------------------------------------------

  function InWindow(rows: seq<Row>, w: Window): seq<Row> {
    if rows == [] then []
    else InWindow(rows[..|rows| - 1], w) + (if Meets(rows[|rows| - 1], w) then [rows[|rows| - 1]] else [])
  }

  function Collected(s: State, order: seq<Object>, w: Window, cfg: Config): seq<Row> {
    if order == [] then []
    else
      var rows, o := Collected(s, order[..|order| - 1], w, cfg), order[|order| - 1];
      if Opened(s, o, cfg, w.txTime) then rows + InWindow(Content(s, o), w) else rows
  }

  /** Row identity for the live merge: system time and payload digest. */
  function Ident(r: Row): (int, seq<int>) {
    (r.sysT, r.digest)
  }

  predicate HasTwin(r: Row, rows: seq<Row>) {
    exists i :: 0 <= i < |rows| && rows[i].sysT == r.sysT && rows[i].digest == r.digest
  }

  /** Live rows of the window join unless a row of the same identity is already there. */
  function WithLive(rows: seq<Row>, live: seq<Row>, w: Window): seq<Row> {
    if live == [] then rows
    else
      var before, last := WithLive(rows, live[..|live| - 1], w), live[|live| - 1];
      if Meets(last, w) && !HasTwin(last, before) then before + [last] else before
  }

  function RangeOrder(s: State, w: Window, cfg: Config, ls: Listings): seq<Object> {
    Order(s, Query(w.eid, w.lo, w.txTime), cfg, ls)
  }

  /** Every row of the window, in scan order, without a row cap. */
  function AllRows(s: State, w: Window, cfg: Config, ls: Listings, live: Option<seq<Row>>): seq<Row> {
    var durable := Collected(s, RangeOrder(s, w, cfg, ls), w, cfg);
    if live.Some? then WithLive(durable, Stamped(live.value, w.eid), w) else durable
  }

  predicate StartSorted(rows: seq<Row>) {
    forall i, j :: 0 <= i < j < |rows| ==> rows[i].vs <= rows[j].vs
  }

  function InsertByStart(rows: seq<Row>, r: Row): seq<Row> {
    if rows == [] || rows[|rows| - 1].vs <= r.vs then rows + [r]
    else InsertByStart(rows[..|rows| - 1], r) + [rows[|rows| - 1]]
  }

  /** The stable sort by start of validity. */
  function SortByStart(rows: seq<Row>): seq<Row> {
    if rows == [] then [] else InsertByStart(SortByStart(rows[..|rows| - 1]), rows[|rows| - 1])
  }

  function Limit(rows: seq<Row>, cap: int): seq<Row> {
    if cap > 0 && |rows| > cap then rows[..cap] else rows
  }

  // ---- Properties of the specification -----------------------------------------------------------

  lemma {:induction false} InWindowMembers(rows: seq<Row>, w: Window)
    ensures forall x :: x in InWindow(rows, w) <==> x in rows && Meets(x, w)
  {
    if rows != [] {
      InWindowMembers(rows[..|rows| - 1], w);
      assert rows == rows[..|rows| - 1] + [rows[|rows| - 1]];
    }
  }

  lemma {:induction false} CollectedMembers(s: State, order: seq<Object>, w: Window, cfg: Config, x: Row)
    ensures x in Collected(s, order, w, cfg)
       <==> Meets(x, w) && exists o :: o in order && Opened(s, o, cfg, w.txTime) && x in Content(s, o)
  {
    if order != [] {
      var init, last := order[..|order| - 1], order[|order| - 1];
      CollectedMembers(s, init, w, cfg, x);
      assert order == init + [last];
      if Opened(s, last, cfg, w.txTime) {
        InWindowMembers(Content(s, last), w);
      }
    }
  }

  /** The merge keeps every durable row, adds only live rows of the window, and leaves every
      live row of the window with a twin. */
  lemma {:induction false} LiveMembers(rows: seq<Row>, live: seq<Row>, w: Window)
    ensures rows <= WithLive(rows, live, w)
    ensures forall x :: x in WithLive(rows, live, w) ==> x in rows || (x in live && Meets(x, w))
    ensures forall x :: x in live && Meets(x, w) ==> HasTwin(x, WithLive(rows, live, w))
  {
    if live != [] {
      var init, last := live[..|live| - 1], live[|live| - 1];
      LiveMembers(rows, init, w);
      assert live == init + [last];
      var before, after := WithLive(rows, init, w), WithLive(rows, live, w);
      forall x | x in live && Meets(x, w) ensures HasTwin(x, after) {
        if x in init {
          TwinKept(x, before, after);
        } else if HasTwin(x, before) {
          TwinKept(x, before, after);
        } else {
          assert after[|before|] == x;
        }
      }
    }
  }

  lemma TwinKept(x: Row, rows: seq<Row>, more: seq<Row>)
    requires HasTwin(x, rows) && rows <= more
    ensures HasTwin(x, more)
  {
    var i :| 0 <= i < |rows| && rows[i].sysT == x.sysT && rows[i].digest == x.digest;
    assert more[i] == rows[i];
  }

  /** No two live rows that joined share an identity, nor does one with a durable row. */
  lemma {:induction false} LiveDistinct(rows: seq<Row>, live: seq<Row>, w: Window)
    ensures rows <= WithLive(rows, live, w)
    ensures forall i, j :: 0 <= i < j < |WithLive(rows, live, w)| && j >= |rows| ==>
              Ident(WithLive(rows, live, w)[i]) != Ident(WithLive(rows, live, w)[j])
  {
    if live != [] {
      LiveDistinct(rows, live[..|live| - 1], w);
    }
  }

  lemma StartSortedSnoc(rows: seq<Row>, last: Row)
    requires StartSorted(rows) && forall x :: x in rows ==> x.vs <= last.vs
    ensures StartSorted(rows + [last])
  {
  }

  lemma {:induction false} InsertByStartSorts(rows: seq<Row>, r: Row)
    requires StartSorted(rows)
    ensures StartSorted(InsertByStart(rows, r)) && multiset(InsertByStart(rows, r)) == multiset(rows) + multiset{r}
  {
    if rows == [] || rows[|rows| - 1].vs <= r.vs {
      StartSortedSnoc(rows, r);
    } else {
      var init, last := rows[..|rows| - 1], rows[|rows| - 1];
      InsertByStartSorts(init, r);
      assert rows == init + [last];
      forall x | x in InsertByStart(init, r) ensures x.vs <= last.vs {
        assert x in multiset(InsertByStart(init, r));
        assert x in init || x == r;
      }
      StartSortedSnoc(InsertByStart(init, r), last);
    }
  }

  lemma {:induction false} SortByStartSorts(rows: seq<Row>)
    ensures StartSorted(SortByStart(rows)) && multiset(SortByStart(rows)) == multiset(rows)
  {
    if rows != [] {
      var init, last := rows[..|rows| - 1], rows[|rows| - 1];
      SortByStartSorts(init);
      InsertByStartSorts(SortByStart(init), last);
      MultisetSnoc(rows, init, last);
    }
  }

  lemma MultisetSnoc(rows: seq<Row>, init: seq<Row>, last: Row)
    requires rows == init + [last]
    ensures multiset(rows) == multiset(init) + multiset{last}
  {
  }

  /** The rows that start at `v`, in order. */
  function Starting(rows: seq<Row>, v: int): seq<Row> {
    if rows == [] then []
    else Starting(rows[..|rows| - 1], v) + (if rows[|rows| - 1].vs == v then [rows[|rows| - 1]] else [])
  }

  lemma StartingSnoc(rows: seq<Row>, r: Row, v: int)
    ensures Starting(rows + [r], v) == Starting(rows, v) + (if r.vs == v then [r] else [])
  {
    assert (rows + [r])[..|rows|] == rows;
  }

  lemma {:induction false} InsertByStartStable(rows: seq<Row>, r: Row, v: int)
    requires StartSorted(rows)
    ensures Starting(InsertByStart(rows, r), v) == Starting(rows + [r], v)
  {
    if rows != [] && rows[|rows| - 1].vs > r.vs {
      var init, last := rows[..|rows| - 1], rows[|rows| - 1];
      InsertByStartStable(init, r, v);
      StartingSnoc(InsertByStart(init, r), last, v);
      StartingSnoc(init, r, v);
      StartingSnoc(rows, r, v);
    }
  }

  /** Rows that start together keep their order. */
  lemma {:induction false} SortByStartStable(rows: seq<Row>, v: int)
    ensures Starting(SortByStart(rows), v) == Starting(rows, v)
  {
    if rows != [] {
      var init, last := rows[..|rows| - 1], rows[|rows| - 1];
      SortByStartStable(init, v);
      SortByStartSorts(init);
      InsertByStartStable(SortByStart(init), last, v);
      StartingSnoc(SortByStart(init), last, v);
      assert rows == init + [last];
    }
  }

  // ---- Range agrees with AsOf ---------------------------------------------------------------------

  /** An answer of the point query at a valid time of the window. */
  function PointOf(w: Window, validTime: int): Query {
    Query(w.eid, validTime, w.txTime)
  }

  lemma {:induction false} LiveOrigin(best: Option<Row>, live: seq<Row>, q: Query)
    ensures var r := ScanOnto(best, live, q);
            r == best || (r.Some? && r.value in live && Visible(r.value, q))
  {
    if live != [] {
      LiveOrigin(best, live[..|live| - 1], q);
    }
  }

  /** Both queries scan the same files. */
  lemma SameFiles(s: State, w: Window, v: int, cfg: Config, ls: Listings)
    ensures Durable(s, PointOf(w, v), cfg, ls) == ScanObjects(s, RangeOrder(s, w, cfg, ls), PointOf(w, v), cfg)
  {
  }

  /** For every valid time of the window at which the point query finds a row, the window
      holds a row with that system time and payload digest. */
  lemma RangeHoldsAsOf(s: State, w: Window, v: int, cfg: Config, ls: Listings, live: Option<seq<Row>>)
    requires w.lo <= v < w.hi && AsOfAnswer(s, PointOf(w, v), cfg, ls, live).Some?
    ensures HasTwin(AsOfAnswer(s, PointOf(w, v), cfg, ls, live).value, SortByStart(AllRows(s, w, cfg, ls, live)))
  {
    var q, order := PointOf(w, v), RangeOrder(s, w, cfg, ls);
    var best := Durable(s, q, cfg, ls);
    var r := AsOfAnswer(s, q, cfg, ls, live).value;
    SameFiles(s, w, v, cfg, ls);
    var rows := Collected(s, order, w, cfg);
    if best.Some? {
      var o := DurableOrigin(s, order, q, cfg);
      CollectedMembers(s, order, w, cfg, best.value);
      assert best.value in rows;
    }
    if live.Some? {
      var stamped := Stamped(live.value, w.eid);
      LiveOrigin(best, stamped, q);
      LiveMembers(rows, stamped, w);
      if best.Some? && r == best.value {
        MemberTwin(r, rows);
        TwinKept(r, rows, AllRows(s, w, cfg, ls, live));
      }
    } else {
      MemberTwin(r, rows);
    }
    TwinSorted(r, AllRows(s, w, cfg, ls, live));
  }

  lemma MemberTwin(x: Row, rows: seq<Row>)
    requires x in rows
    ensures HasTwin(x, rows)
  {
    var i :| 0 <= i < |rows| && rows[i] == x;
    assert Ident(rows[i]) == Ident(x);
  }

  lemma TwinSorted(x: Row, rows: seq<Row>)
    requires HasTwin(x, rows)
    ensures HasTwin(x, SortByStart(rows))
  {
    var i :| 0 <= i < |rows| && rows[i].sysT == x.sysT && rows[i].digest == x.digest;
    SortByStartSorts(rows);
    assert rows[i] in multiset(SortByStart(rows));
    var j :| 0 <= j < |SortByStart(rows)| && SortByStart(rows)[j] == rows[i];
    assert Ident(SortByStart(rows)[j]) == Ident(x);
  }

  /** In every state that answers and at or above the horizon, the window holds the row that a
      scan of everything ever flushed and of the live rows would return at each of its valid
      times. */
  lemma RangeHoldsTruth(s: State, w: Window, v: int, cfg: Config, ls: Listings, live: Option<seq<Row>>)
    requires Answering(s) && w.txTime >= s.horizon && w.eid == s.eid && ListingsOf(ls, s) && w.lo <= v < w.hi
    requires Reached(s, PointOf(w, v), cfg) && LiveTruth(s, PointOf(w, v), live).Some?
    ensures HasTwin(LiveTruth(s, PointOf(w, v), live).value, SortByStart(AllRows(s, w, cfg, ls, live)))
  {
    AsOfIsTruth(s, PointOf(w, v), cfg, ls, live);
    RangeHoldsAsOf(s, w, v, cfg, ls, live);
  }

  /** So it does over every run, reads failing or not, whose uploads are harmless. */
  lemma RangeOverRuns(eid: seq<int>, width: nat, h: int, acts: seq<Action>,
                      w: Window, v: int, cfg: Config, ls: Listings, live: Option<seq<Row>>)
    requires HarmlessRun(Init(eid, width, h), acts) && Exec(Init(eid, width, h), acts).Some?
    requires var s := Exec(Init(eid, width, h), acts).value;
             && w.txTime >= s.horizon && w.eid == eid && ListingsOf(ls, s) && w.lo <= v < w.hi
             && Reached(s, PointOf(w, v), cfg) && LiveTruth(s, PointOf(w, v), live).Some?
    ensures var s := Exec(Init(eid, width, h), acts).value;
            HasTwin(LiveTruth(s, PointOf(w, v), live).value, SortByStart(AllRows(s, w, cfg, ls, live)))
  {
    HarmlessReaches(eid, width, h, acts);
    RangeHoldsTruth(Exec(Init(eid, width, h), acts).value, w, v, cfg, ls, live);
  }

  // ---- What a window holds and nothing else -----------------------------------------------------

  /** Of the entity, visible at the transaction time, and valid at some time around the window. */
  predicate Inside(x: Row, w: Window) {
    x.eid == w.eid && x.sysT <= w.txTime && x.vs < w.hi && w.lo < x.ve
  }

  /** A row with a proper interval is inside exactly when some point query of the window admits
      it; one without is admitted by none. */
  lemma InsideIffPoint(x: Row, w: Window)
    requires w.lo < w.hi
    ensures x.vs < x.ve ==> (Inside(x, w) <==> exists v :: w.lo <= v < w.hi && Visible(x, Query(w.eid, v, w.txTime)))
    ensures x.vs >= x.ve ==> forall v :: !Visible(x, Query(w.eid, v, w.txTime))
  {
    if x.vs < x.ve && Inside(x, w) {
      var v := if x.vs < w.lo then w.lo else x.vs;
      assert w.lo <= v < w.hi && Visible(x, Query(w.eid, v, w.txTime));
    }
  }

  /** Stored in L1 or in one of the newest L0 files that no manifest hides. */
  ghost predicate Held(s: State, w: Window, cfg: Config, x: Row) {
    StoredInL1(s, x) || exists p :: Recent(s, cfg, w.txTime, p) && x in s.hist[p]
  }

  ghost predicate IsLive(live: Option<seq<Row>>, w: Window, x: Row) {
    live.Some? && exists i :: 0 <= i < |live.value| && x == live.value[i].(eid := w.eid)
  }

  lemma HeldOpened(s: State, lo: int, w: Window, cfg: Config, ls: Listings, x: Row) returns (o: Object)
    requires AnsweringAt(s, lo) && ListingsOf(ls, s) && Held(s, w, cfg, x) && x.sysT <= w.txTime && 0 < |s.hist|
    ensures o in RangeOrder(s, w, cfg, ls) && Opened(s, o, cfg, w.txTime) && x in Content(s, o)
  {
    var q := Query(w.eid, w.lo, w.txTime);
    if StoredInL1(s, x) {
      var k :| k in s.l1 && x in s.l1[k];
      assert Answers(s, k);
      OrderTakes(s, lo, q, cfg, ls, 0);
      o := InL1(k);
    } else {
      var p :| Recent(s, cfg, w.txTime, p) && x in s.hist[p];
      OrderTakes(s, lo, q, cfg, ls, p);
      NamedFile(s, lo, p, FirstSys(s.hist[p]));
      FirstIsLeast(s.hist[p], s.eid, s.width, x);
      o := InL0(FirstSys(s.hist[p]));
    }
  }

  lemma OpenedHeld(s: State, lo: int, w: Window, cfg: Config, ls: Listings, x: Row, o: Object)
    requires AnsweringAt(s, lo) && ListingsOf(ls, s)
    requires o in RangeOrder(s, w, cfg, ls) && Opened(s, o, cfg, w.txTime) && x in Content(s, o)
    ensures Held(s, w, cfg, x)
  {
    if o.InL0? {
      assert Named(s.hist, lo, o.key);
      var j :| lo <= j < |s.hist| && s.hist[j] != [] && FirstSys(s.hist[j]) == o.key;
      OrderTakes(s, lo, Query(w.eid, w.lo, w.txTime), cfg, ls, j);
    }
  }

  lemma SomeHistory(s: State, lo: int, w: Window, cfg: Config, x: Row)
    requires AnsweringAt(s, lo) && Held(s, w, cfg, x)
    ensures 0 < |s.hist|
  {
    if StoredInL1(s, x) {
      var k :| k in s.l1 && x in s.l1[k];
      assert Answers(s, k);
      assert InHist(s.hist, x);
    }
  }

  /** The rows collected from the files are exactly the held ones that are inside. */
  lemma CollectedExactly(s: State, w: Window, cfg: Config, ls: Listings, x: Row)
    requires Answering(s) && ListingsOf(ls, s)
    ensures x in Collected(s, RangeOrder(s, w, cfg, ls), w, cfg) <==> Held(s, w, cfg, x) && Inside(x, w)
  {
    var lo :| AnsweringAt(s, lo);
    var order := RangeOrder(s, w, cfg, ls);
    CollectedMembers(s, order, w, cfg, x);
    if Held(s, w, cfg, x) && Inside(x, w) {
      SomeHistory(s, lo, w, cfg, x);
      var o := HeldOpened(s, lo, w, cfg, ls, x);
    }
    if x in Collected(s, order, w, cfg) {
      var o :| o in order && Opened(s, o, cfg, w.txTime) && x in Content(s, o);
      OpenedHeld(s, lo, w, cfg, ls, x, o);
    }
  }

  /** What a window holds, without a row cap: the held rows inside it, all of them; of the live
      rows inside it those that share system time and digest with no row before them; and no
      other row. */
  lemma WindowExactly(s: State, w: Window, cfg: Config, ls: Listings, live: Option<seq<Row>>, x: Row)
    requires Answering(s) && ListingsOf(ls, s)
    ensures var rows := AllRows(s, w, cfg, ls, live);
            && (Held(s, w, cfg, x) && Inside(x, w) ==> x in rows)
            && (x in rows ==> Inside(x, w) && (Held(s, w, cfg, x) || IsLive(live, w, x)))
            && (IsLive(live, w, x) && Inside(x, w) ==>
                  exists i :: 0 <= i < |rows| && rows[i].sysT == x.sysT && rows[i].digest == x.digest)
  {
    var durable := Collected(s, RangeOrder(s, w, cfg, ls), w, cfg);
    CollectedExactly(s, w, cfg, ls, x);
    if live.Some? {
      var stamped := Stamped(live.value, w.eid);
      LiveMembers(durable, stamped, w);
      StampedIsLive(live, w, x);
    }
  }

  lemma StampedIsLive(live: Option<seq<Row>>, w: Window, x: Row)
    requires live.Some?
    ensures x in Stamped(live.value, w.eid) <==> IsLive(live, w, x)
  {
    var stamped := Stamped(live.value, w.eid);
    if IsLive(live, w, x) {
      var i :| 0 <= i < |live.value| && x == live.value[i].(eid := w.eid);
      assert stamped[i] == x;
    }
    if x in stamped {
      var i :| 0 <= i < |stamped| && stamped[i] == x;
    }
  }

  /** A live row that joined shares system time and digest with no held row inside the window. */
  lemma JoinedHaveNoTwin(s: State, w: Window, cfg: Config, ls: Listings, live: Option<seq<Row>>, x: Row, y: Row)
    requires Answering(s) && ListingsOf(ls, s) && x in AllRows(s, w, cfg, ls, live) && !Held(s, w, cfg, x)
    requires Held(s, w, cfg, y) && Inside(y, w)
    ensures x.sysT != y.sysT || x.digest != y.digest
  {
    var durable := Collected(s, RangeOrder(s, w, cfg, ls), w, cfg);
    CollectedExactly(s, w, cfg, ls, x);
    CollectedExactly(s, w, cfg, ls, y);
    if live.Some? {
      JoinedApart(durable, Stamped(live.value, w.eid), w, x, y);
    }
  }

  lemma JoinedApart(durable: seq<Row>, live: seq<Row>, w: Window, x: Row, y: Row)
    requires x in WithLive(durable, live, w) && x !in durable && y in durable
    ensures x.sysT != y.sysT || x.digest != y.digest
  {
    var rows := WithLive(durable, live, w);
    LiveDistinct(durable, live, w);
    var i :| 0 <= i < |durable| && durable[i] == y;
    var j :| 0 <= j < |rows| && rows[j] == x;
    assert rows[i] == y && forall k :: 0 <= k < |durable| ==> rows[k] in durable;
    assert Ident(rows[i]) != Ident(rows[j]);
  }

  // ---- The query ---------------------------------------------------------------------------------

  lemma LimitGrows(a: seq<Row>, b: seq<Row>, cap: int)
    requires a <= b && cap > 0 && |a| >= cap
    ensures Limit(b, cap) == Limit(a, cap)
  {
  }

  /** Append the window rows of one file, stopping at the cap. */
  method ScanWindow(rows: seq<Row>, w: Window, collected: seq<Row>, cap: int, ghost all: seq<Row>)
    returns (out: seq<Row>, stop: bool)
    requires collected == all && (cap > 0 ==> |all| <= cap)
    ensures out == Limit(all + InWindow(rows, w), cap)
    ensures stop <==> cap > 0 && |all + InWindow(rows, w)| > cap
  {
    out, stop := collected, false;
    for i := 0 to |rows|
      invariant out == all + InWindow(rows[..i], w)
      invariant cap > 0 ==> |out| <= cap
    {
      assert rows[..i + 1][..i] == rows[..i];
      if Meets(rows[i], w) {
        if cap > 0 && |out| >= cap {
          InWindowPrefix(rows, w, i + 1);
          return out, true;
        }
        out := out + [rows[i]];
      }
    }
    assert rows[..|rows|] == rows;
  }

  lemma {:induction false} InWindowPrefix(rows: seq<Row>, w: Window, n: nat)
    requires n <= |rows|
    ensures InWindow(rows[..n], w) <= InWindow(rows, w)
  {
    if n < |rows| {
      InWindowPrefix(rows[..|rows| - 1], w, n);
      assert rows[..|rows| - 1][..n] == rows[..n];
    } else {
      assert rows[..n] == rows;
    }
  }

  lemma {:induction false} CollectedPrefix(s: State, order: seq<Object>, w: Window, cfg: Config, n: nat)
    requires n <= |order|
    ensures Collected(s, order[..n], w, cfg) <= Collected(s, order, w, cfg)
  {
    if n < |order| {
      CollectedPrefix(s, order[..|order| - 1], w, cfg, n);
      assert order[..|order| - 1][..n] == order[..n];
    } else {
      assert order[..n] == order;
    }
  }

  method ScanWindows(s: State, order: seq<Object>, w: Window, cfg: Config, cap: int)
    returns (out: seq<Row>, truncated: bool)
    ensures out == Limit(Collected(s, order, w, cfg), cap)
    ensures truncated <==> cap > 0 && |Collected(s, order, w, cfg)| > cap
  {
    out, truncated := [], false;
    for i := 0 to |order|
      invariant out == Collected(s, order[..i], w, cfg)
      invariant cap > 0 ==> |out| <= cap
    {
      assert order[..i + 1][..i] == order[..i];
      if Opened(s, order[i], cfg, w.txTime) {
        out, truncated := ScanWindow(Content(s, order[i]), w, out, cap, out);
        if truncated {
          CollectedPrefix(s, order, w, cfg, i + 1);
          LimitGrows(Collected(s, order[..i + 1], w, cfg), Collected(s, order, w, cfg), cap);
          return;
        }
      }
    }
    assert order[..|order|] == order;
  }

  lemma {:induction false} WithLivePrefix(rows: seq<Row>, live: seq<Row>, w: Window, n: nat)
    requires n <= |live|
    ensures WithLive(rows, live[..n], w) <= WithLive(rows, live, w)
  {
    if n < |live| {
      WithLivePrefix(rows, live[..|live| - 1], w, n);
      assert live[..|live| - 1][..n] == live[..n];
    } else {
      assert live[..n] == live;
    }
  }

  /** The live merge of a window that the durable scan did not truncate. */
  method MergeLive(rows: seq<Row>, live: seq<Row>, w: Window, cap: int) returns (out: seq<Row>, truncated: bool)
    requires cap > 0 ==> |rows| <= cap
    ensures out == Limit(WithLive(rows, live, w), cap)
    ensures truncated <==> cap > 0 && |WithLive(rows, live, w)| > cap
  {
    out, truncated := rows, false;
    var seen := set i | 0 <= i < |rows| :: Ident(rows[i]);
    for i := 0 to |live|
      invariant out == WithLive(rows, live[..i], w)
      invariant forall x :: Ident(x) in seen <==> HasTwin(x, out)
      invariant cap > 0 ==> |out| <= cap
    {
      assert live[..i + 1][..i] == live[..i];
      if Meets(live[i], w) && Ident(live[i]) !in seen {
        if cap > 0 && |out| >= cap {
          WithLivePrefix(rows, live, w, i + 1);
          LimitGrows(WithLive(rows, live[..i + 1], w), WithLive(rows, live, w), cap);
          return out, true;
        }
        SeenGrows(seen, out, live[i]);
        seen := seen + {Ident(live[i])};
        out := out + [live[i]];
      }
    }
    assert live[..|live|] == live;
  }

  lemma SeenGrows(seen: set<(int, seq<int>)>, rows: seq<Row>, r: Row)
    requires forall x :: Ident(x) in seen <==> HasTwin(x, rows)
    ensures forall x :: Ident(x) in seen + {Ident(r)} <==> HasTwin(x, rows + [r])
  {
    forall x ensures Ident(x) in seen + {Ident(r)} <==> HasTwin(x, rows + [r]) {
      if HasTwin(x, rows) {
        TwinKept(x, rows, rows + [r]);
      }
      if Ident(x) == Ident(r) {
        assert (rows + [r])[|rows|] == r;
      }
      if HasTwin(x, rows + [r]) {
        var i :| 0 <= i < |rows + [r]| && (rows + [r])[i].sysT == x.sysT && (rows + [r])[i].digest == x.digest;
        assert i < |rows| ==> rows[i] == (rows + [r])[i];
      }
    }
  }

  /** Range: `None` when the window is empty or nothing meets it; otherwise the first `cap`
      rows met, sorted by start of validity, and whether the cap cut any off. */
  method Range(s: State, w: Window, cfg: Config, ls: Listings, live: Option<seq<Row>>, cap: int)
    returns (found: Option<seq<Row>>, truncated: bool)
    ensures var all := AllRows(s, w, cfg, ls, live);
            && (found.None? <==> w.hi <= w.lo || all == [])
            && (found.Some? ==> StartSorted(found.value)
                                && found.value == SortByStart(if 0 < cap < |all| then all[..cap] else all))
            && (found.Some? ==> (truncated <==> cap > 0 && |all| > cap))
  {
    if w.hi <= w.lo {
      return None, false;
    }
    var superseded := LoadSuperseded(s.manifests, ls.manifests, cfg, w.txTime);
    var tail := SelectTail(ls.l0, superseded);
    var order := ScanOrder(ls, Capped(tail, cfg.maxL0Files));
    var rows;
    rows, truncated := ScanWindows(s, order, w, cfg, cap);
    ghost var durable := Collected(s, order, w, cfg);
    if live.Some? {
      var stamped := Stamped(live.value, w.eid);
      LiveMembers(durable, stamped, w);
      LiveMembers(rows, stamped, w);
      if truncated {
        LimitGrows(durable, WithLive(durable, stamped, w), cap);
        LimitGrows(rows, WithLive(rows, stamped, w), cap);
      }
      var more;
      rows, more := MergeLive(rows, stamped, w, cap);
      truncated := truncated || more;
    }
    if rows == [] {
      return None, false;
    }
    SortByStartSorts(rows);
    found := Some(SortByStart(rows));
  }
}
