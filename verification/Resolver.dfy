/** The point query: L1 files, the L0 tail not hidden by a manifest, both skips by the
    system time in the name, and the merge of live entries. */
module Resolver {
  import opened Basics
  import opened Bytes
  import opened Rows
  import opened ObjectKeys
  import opened Store

  /** `maxL0Files` bounds the tail when positive; `firstSysSkip` turns both skips on. */
  datatype Config = Config(maxL0Files: int, firstSysSkip: bool)

  /** What the three listings of one query return. */
  datatype Listings = Listings(l0: seq<int>, l1: seq<int>, manifests: seq<int>)

  ghost predicate ListingsOf(ls: Listings, s: State) {
    IsListing(ls.l0, s.l0.Keys) && IsListing(ls.l1, s.l1.Keys) && IsListing(ls.manifests, s.manifests.Keys)
  }

  datatype Object = InL0(key: int) | InL1(key: int)

  /** A name above the query's transaction time is not downloaded; a negative number in a
      name is never taken as a bound. */
  predicate Skips(key: int, cfg: Config, txTime: int) {
    cfg.firstSysSkip && key >= 0 && key > txTime
  }

  /** The skip test on numbers is the test on the names themselves. */
  lemma SkipIsByName(t: Tier, hex: string, key: int, cfg: Config, txTime: int)
    requires IsI64(key)
    ensures var bound := ParseFirstSys(KeyFor(t, hex, key));
            Skips(key, cfg, txTime) <==> cfg.firstSysSkip && bound.Some? && bound.value > txTime
  {
    KeyRoundTrip(t, hex, key);
  }

  // ---- Specification ------------------------------------------------------------------------

  /** The L0 names listed by the manifests that are downloaded; a manifest that cannot be
      downloaded is passed over. */
  function Superseded(manifests: map<int, Manifest>, listed: seq<int>, cfg: Config, txTime: int): set<int> {
    if listed == [] then {}
    else
      var mk, rest := listed[|listed| - 1], Superseded(manifests, listed[..|listed| - 1], cfg, txTime);
      if Skips(mk, cfg, txTime) || mk !in manifests then rest else rest + KeySet(manifests[mk].l0Keys)
  }

  function Tail(l0: seq<int>, superseded: set<int>): seq<int> {
    if l0 == [] then []
    else
      var k, rest := l0[|l0| - 1], Tail(l0[..|l0| - 1], superseded);
      if k in superseded then rest else rest + [k]
  }

  /** The newest `max` of the tail, when a positive cap is exceeded. */
  function Capped(tail: seq<int>, max: int): seq<int> {
    if max > 0 && |tail| > max then tail[|tail| - max..] else tail
  }

  function Reverse(keys: seq<int>): seq<int> {
    if keys == [] then [] else [keys[|keys| - 1]] + Reverse(keys[..|keys| - 1])
  }

  function InTier(keys: seq<int>, l1: bool): seq<Object> {
    seq(|keys|, i requires 0 <= i < |keys| => if l1 then InL1(keys[i]) else InL0(keys[i]))
  }

  /** Reverse lexical order over both tiers: the L1 names come first. When there is no L1
      file and every L0 file is superseded, all L0 files are scanned. */
  function ScanOrder(ls: Listings, tail: seq<int>): seq<Object> {
    if ls.l1 == [] && tail == [] then InTier(Reverse(ls.l0), false)
    else InTier(Reverse(ls.l1), true) + InTier(Reverse(tail), false)
  }

  predicate Stored(s: State, o: Object) {
    match o
    case InL0(k) => k in s.l0
    case InL1(k) => k in s.l1
  }

  function Content(s: State, o: Object): File
    requires Stored(s, o)
  {
    match o
    case InL0(k) => s.l0[k]
    case InL1(k) => s.l1[k]
  }

  /** The durable part: best row of each file that is not skipped, compared strictly. A
      file that cannot be downloaded is passed over. */
  function ScanObjects(s: State, order: seq<Object>, q: Query, cfg: Config): Option<Row> {
    if order == [] then None
    else
      var best, o := ScanObjects(s, order[..|order| - 1], q, cfg), order[|order| - 1];
      if Skips(o.key, cfg, q.txTime) || !Stored(s, o) then best else Better(best, Scan(Content(s, o), q))
  }

  /** Live entries carry no entity id; the resolver stamps the queried one. */
  function Stamped(live: seq<Row>, eid: seq<int>): seq<Row> {
    seq(|live|, i requires 0 <= i < |live| => live[i].(eid := eid))
  }

  /** A scan that continues from a best row already found. */
  function ScanOnto(best: Option<Row>, s: seq<Row>, q: Query): Option<Row> {
    if s == [] then best
    else
      var b, last := ScanOnto(best, s[..|s| - 1], q), s[|s| - 1];
      if Visible(last, q) then Better(b, Some(last)) else b
  }

  lemma {:induction false} ScanOntoConcat(a: seq<Row>, b: seq<Row>, q: Query)
    ensures ScanOnto(Scan(a, q), b, q) == Scan(a + b, q)
  {
    if b == [] {
      assert a + b == a;
    } else {
      ScanOntoConcat(a, b[..|b| - 1], q);
      assert (a + b)[..|a + b| - 1] == a + b[..|b| - 1];
    }
  }

  /** The tail a query sees before the cap. */
  function QueryTail(s: State, q: Query, cfg: Config, ls: Listings): seq<int> {
    Tail(ls.l0, Superseded(s.manifests, ls.manifests, cfg, q.txTime))
  }

  /** The objects a query takes, in its order. */
  function Order(s: State, q: Query, cfg: Config, ls: Listings): seq<Object> {
    ScanOrder(ls, Capped(QueryTail(s, q, cfg, ls), cfg.maxL0Files))
  }

  function Durable(s: State, q: Query, cfg: Config, ls: Listings): Option<Row> {
    ScanObjects(s, Order(s, q, cfg, ls), q, cfg)
  }

  function AsOfAnswer(s: State, q: Query, cfg: Config, ls: Listings, live: Option<seq<Row>>): Option<Row> {
    var durable := Durable(s, q, cfg, ls);
    if live.Some? then ScanOnto(durable, Stamped(live.value, q.eid), q) else durable
  }

  lemma {:induction false} TailMembers(l0: seq<int>, superseded: set<int>)
    ensures forall k :: k in Tail(l0, superseded) <==> k in l0 && k !in superseded
  {
    if l0 != [] {
      TailMembers(l0[..|l0| - 1], superseded);
      assert l0 == l0[..|l0| - 1] + [l0[|l0| - 1]];
    }
  }

  lemma {:induction false} ReverseMembers(keys: seq<int>)
    ensures |Reverse(keys)| == |keys| && forall k :: k in Reverse(keys) <==> k in keys
  {
    if keys != [] {
      ReverseMembers(keys[..|keys| - 1]);
      assert keys == keys[..|keys| - 1] + [keys[|keys| - 1]];
    }
  }

  lemma InTierMembers(keys: seq<int>, l1: bool)
    ensures forall o :: o in InTier(keys, l1) <==> o.InL1? == l1 && o.key in keys
  {
    forall o: Object | o.InL1? == l1 && o.key in keys ensures o in InTier(keys, l1) {
      var i :| 0 <= i < |keys| && keys[i] == o.key;
      assert InTier(keys, l1)[i] == o;
    }
  }

  /** Which objects a query scans. */
  lemma ScanOrderMembers(ls: Listings, tail: seq<int>)
    ensures forall o :: o in ScanOrder(ls, tail) <==>
              (o.InL1? && o.key in ls.l1)
              || (o.InL0? && (o.key in tail || (ls.l1 == [] && tail == [] && o.key in ls.l0)))
  {
    ReverseMembers(ls.l0);
    ReverseMembers(ls.l1);
    ReverseMembers(tail);
    InTierMembers(Reverse(ls.l0), false);
    InTierMembers(Reverse(ls.l1), true);
    InTierMembers(Reverse(tail), false);
  }

  lemma NothingDurable(s: State, q: Query, cfg: Config, ls: Listings)
    requires ls.l1 == [] && ls.l0 == []
    ensures Durable(s, q, cfg, ls) == None
  {
    assert QueryTail(s, q, cfg, ls) == [];
    assert ScanOrder(ls, []) == [];
  }

  // ---- The query -----------------------------------------------------------------------------

  method ScanRows(rows: seq<Row>, q: Query) returns (best: Option<Row>)
    ensures best == Scan(rows, q)
  {
    best := None;
    var bestSys := 0;
    for i := 0 to |rows|
      invariant best == Scan(rows[..i], q) && bestSys == BestSys(best)
    {
      assert rows[..i + 1][..i] == rows[..i];
      var r := rows[i];
      if r.sysT <= q.txTime && r.vs <= q.validTime < r.ve && r.eid == q.eid && r.sysT > bestSys {
        best, bestSys := Some(r), r.sysT;
      }
    }
    assert rows[..|rows|] == rows;
  }

  method LoadSuperseded(manifests: map<int, Manifest>, listed: seq<int>, cfg: Config, txTime: int)
    returns (superseded: set<int>)
    ensures superseded == Superseded(manifests, listed, cfg, txTime)
  {
    superseded := {};
    for i := 0 to |listed|
      invariant superseded == Superseded(manifests, listed[..i], cfg, txTime)
    {
      assert listed[..i + 1][..i] == listed[..i];
      var mk := listed[i];
      if !Skips(mk, cfg, txTime) && mk in manifests {
        superseded := superseded + KeySet(manifests[mk].l0Keys);
      }
    }
    assert listed[..|listed|] == listed;
  }

  method SelectTail(l0: seq<int>, superseded: set<int>) returns (tail: seq<int>)
    ensures tail == Tail(l0, superseded)
  {
    tail := [];
    for i := 0 to |l0|
      invariant tail == Tail(l0[..i], superseded)
    {
      assert l0[..i + 1][..i] == l0[..i];
      if l0[i] !in superseded {
        tail := tail + [l0[i]];
      }
    }
    assert l0[..|l0|] == l0;
  }

  method ScanLive(durable: Option<Row>, live: seq<Row>, q: Query) returns (best: Option<Row>)
    ensures best == ScanOnto(durable, Stamped(live, q.eid), q)
  {
    best := durable;
    var stamped := Stamped(live, q.eid);
    for i := 0 to |live|
      invariant best == ScanOnto(durable, stamped[..i], q)
    {
      assert stamped[..i + 1][..i] == stamped[..i];
      var le := live[i];
      if le.sysT <= q.txTime && le.vs <= q.validTime < le.ve && le.sysT > BestSys(best) {
        best := Some(le.(eid := q.eid));
      }
    }
    assert stamped[..|live|] == stamped;
  }

  method ScanAll(s: State, order: seq<Object>, q: Query, cfg: Config) returns (best: Option<Row>)
    ensures best == ScanObjects(s, order, q, cfg)
  {
    best := None;
    for i := 0 to |order|
      invariant best == ScanObjects(s, order[..i], q, cfg)
    {
      assert order[..i + 1][..i] == order[..i];
      if !Skips(order[i].key, cfg, q.txTime) && Stored(s, order[i]) {
        var found := ScanRows(Content(s, order[i]), q);
        best := Better(best, found);
      }
    }
    assert order[..|order|] == order;
  }

  method ScanDurable(s: State, q: Query, cfg: Config, ls: Listings) returns (best: Option<Row>)
    ensures best == Durable(s, q, cfg, ls)
  {
    var superseded := LoadSuperseded(s.manifests, ls.manifests, cfg, q.txTime);
    var tail := SelectTail(ls.l0, superseded);
    ghost var all := tail;
    if cfg.maxL0Files > 0 && |tail| > cfg.maxL0Files {
      tail := tail[|tail| - cfg.maxL0Files..];
    }
    assert tail == Capped(all, cfg.maxL0Files) && all == QueryTail(s, q, cfg, ls);
    var order := ScanOrder(ls, tail);
    best := ScanAll(s, order, q, cfg);
  }

  /** AsOf, over what the store holds at the time of the query. `live` is `None` when no
      live source is configured. */
  method AsOf(s: State, q: Query, cfg: Config, ls: Listings, live: Option<seq<Row>>) returns (answer: Option<Row>)
    ensures answer == AsOfAnswer(s, q, cfg, ls, live)
  {
    if ls.l1 == [] && ls.l0 == [] && live.None? {
      NothingDurable(s, q, cfg, ls);
      return None;
    }
    answer := ScanDurable(s, q, cfg, ls);
    if live.Some? {
      answer := ScanLive(answer, live.value, q);
    }
  }
}
