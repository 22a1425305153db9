/** The links of a skip list: on each level the nodes tall enough for it, in the order of the
    lowest level; how a search moves along them and what splicing a node in does. */
module SkipLinks {
  import opened Bytes
  import opened SkipOrder

  const MAX_HEIGHT: nat := 11
  const NIL: nat := 0xFFFF_FFFF
  const HEAD: nat := 0

  datatype Node = Node(height: nat, key: Key, val: seq<Byte>, next: seq<nat>)

  /** Nodes by their offset; the head is the one at offset zero. */
  type Nodes = map<nat, Node>

  predicate Known(nodes: Nodes, chain: seq<nat>) {
    forall i :: 0 <= i < |chain| ==> chain[i] in nodes && chain[i] != HEAD && chain[i] != NIL
  }

  predicate IsNode(nodes: Nodes, n: nat) {
    n in nodes && n != HEAD && n != NIL
  }

  /** The nodes of the chain that reach above level `i`. */
  function Level(nodes: Nodes, chain: seq<nat>, i: nat): (level: seq<nat>)
    requires Known(nodes, chain)
    ensures Known(nodes, level)
  {
    if chain == [] then []
    else
      var before, x := Level(nodes, chain[..|chain| - 1], i), chain[|chain| - 1];
      if nodes[x].height > i then before + [x] else before
  }

  lemma {:induction false} LevelMembers(nodes: Nodes, chain: seq<nat>, i: nat)
    requires Known(nodes, chain)
    ensures forall x :: x in Level(nodes, chain, i) <==> x in chain && nodes[x].height > i
  {
    if chain != [] {
      LevelMembers(nodes, chain[..|chain| - 1], i);
    }
  }

  function Keys(nodes: Nodes, chain: seq<nat>): (keys: seq<Key>)
    requires Known(nodes, chain)
    ensures |keys| == |chain| && forall i :: 0 <= i < |keys| ==> keys[i] == nodes[chain[i]].key
  {
    if chain == [] then [] else Keys(nodes, chain[..|chain| - 1]) + [nodes[chain[|chain| - 1]].key]
  }

  /** The node before and the node at a position of a level. */
  function Prev(level: seq<nat>, j: nat): nat
    requires j <= |level|
  {
    if j == 0 then HEAD else level[j - 1]
  }

  function At(level: seq<nat>, j: nat): nat
    requires j <= |level|
  {
    if j < |level| then level[j] else NIL
  }

  predicate Wide(nodes: Nodes) {
    HEAD in nodes && NIL !in nodes && forall x :: x in nodes ==> |nodes[x].next| == MAX_HEIGHT
  }

  /** The links of level `i` lead from the head through the level to the end. */
  predicate Chained(nodes: Nodes, level: seq<nat>, i: nat)
    requires Wide(nodes) && Known(nodes, level) && i < MAX_HEIGHT
  {
    forall j :: 0 <= j <= |level| ==> nodes[Prev(level, j)].next[i] == At(level, j)
  }

  predicate Distinct(chain: seq<nat>) {
    forall i, j :: 0 <= i < j < |chain| ==> chain[i] != chain[j]
  }

  /** What every insertion keeps. */
  predicate Inv(nodes: Nodes, chain: seq<nat>, height: nat) {
    && Wide(nodes) && Known(nodes, chain) && Distinct(chain) && 1 <= height <= MAX_HEIGHT
    && (forall j :: 0 <= j < |chain| ==> 1 <= nodes[chain[j]].height <= height)
    && Sorted(Keys(nodes, chain))
    && (forall i :: 0 <= i < MAX_HEIGHT ==> Chained(nodes, Level(nodes, chain, i), i))
  }

  // ---- Levels ---------------------------------------------------------------------------------------

  lemma {:induction false} LevelConcat(nodes: Nodes, a: seq<nat>, b: seq<nat>, i: nat)
    requires Known(nodes, a) && Known(nodes, b)
    ensures Known(nodes, a + b) && Level(nodes, a + b, i) == Level(nodes, a, i) + Level(nodes, b, i)
  {
    if b == [] {
      assert a + b == a;
    } else {
      var n := |b| - 1;
      LevelConcat(nodes, a, b[..n], i);
      assert (a + b)[..|a + b| - 1] == a + b[..n];
    }
  }

  lemma LevelOfOne(nodes: Nodes, x: nat, i: nat)
    requires IsNode(nodes, x)
    ensures Level(nodes, [x], i) == if nodes[x].height > i then [x] else []
  {
    assert [x][..0] == [];
  }

  /** Levels depend on the heights alone. */
  lemma {:induction false} LevelAgrees(nodes: Nodes, nodes': Nodes, chain: seq<nat>, i: nat)
    requires Known(nodes, chain) && Known(nodes', chain)
    requires forall j :: 0 <= j < |chain| ==> nodes[chain[j]].height == nodes'[chain[j]].height
    ensures Level(nodes, chain, i) == Level(nodes', chain, i)
  {
    if chain != [] {
      LevelAgrees(nodes, nodes', chain[..|chain| - 1], i);
    }
  }

  /** The lowest level is the whole chain. */
  lemma {:induction false} LowestLevel(nodes: Nodes, chain: seq<nat>)
    requires Known(nodes, chain) && forall j :: 0 <= j < |chain| ==> nodes[chain[j]].height >= 1
    ensures Level(nodes, chain, 0) == chain
  {
    if chain != [] {
      LowestLevel(nodes, chain[..|chain| - 1]);
    }
  }

  lemma SortedSnoc(keys: seq<Key>, k: Key)
    requires Sorted(keys) && forall i :: 0 <= i < |keys| ==> !Less(k, keys[i])
    ensures Sorted(keys + [k])
  {
  }

  lemma SortedInit(keys: seq<Key>)
    requires Sorted(keys) && keys != []
    ensures Sorted(keys[..|keys| - 1])
  {
  }

  lemma {:induction false} LevelSorted(nodes: Nodes, chain: seq<nat>, i: nat)
    requires Known(nodes, chain) && Sorted(Keys(nodes, chain))
    ensures Sorted(Keys(nodes, Level(nodes, chain, i)))
  {
    if chain != [] {
      var n := |chain| - 1;
      var init, x := chain[..n], chain[n];
      SortedInit(Keys(nodes, chain));
      assert Keys(nodes, chain)[..n] == Keys(nodes, init);
      LevelSorted(nodes, init, i);
      LevelMembers(nodes, init, i);
      var level := Level(nodes, init, i);
      if nodes[x].height > i {
        forall j | 0 <= j < |level| ensures !Less(nodes[x].key, Keys(nodes, level)[j]) {
          assert level[j] in init;
          var k :| 0 <= k < n && init[k] == level[j];
          assert Keys(nodes, chain)[k] == nodes[level[j]].key;
        }
        SortedSnoc(Keys(nodes, level), nodes[x].key);
        assert (level + [x])[..|level|] == level;
      }
    }
  }

  // ---- Searching --------------------------------------------------------------------------------------

  /** Where a search for `target` ends on a level. */
  function Stop(nodes: Nodes, chain: seq<nat>, i: nat, target: Key): (j: nat)
    requires Known(nodes, chain)
    ensures j <= |Level(nodes, chain, i)|
  {
    Below(Keys(nodes, Level(nodes, chain, i)), target)
  }

  /** A search stands at position `j` of level `i`, not past its stop. */
  predicate Stands(nodes: Nodes, chain: seq<nat>, i: nat, target: Key, x: nat, j: nat)
    requires Known(nodes, chain)
  {
    j <= Stop(nodes, chain, i, target) && x == Prev(Level(nodes, chain, i), j)
  }

  /** At the stop the next node is the end or has a key not below the target; before it, a
      key below. */
  lemma StepAlong(nodes: Nodes, chain: seq<nat>, i: nat, target: Key, x: nat, j: nat)
    requires Wide(nodes) && Known(nodes, chain) && Sorted(Keys(nodes, chain)) && i < MAX_HEIGHT
    requires Chained(nodes, Level(nodes, chain, i), i) && Stands(nodes, chain, i, target, x, j)
    ensures x in nodes
    ensures var nxt := nodes[x].next[i];
            && nxt == At(Level(nodes, chain, i), j)
            && (j < Stop(nodes, chain, i, target) <==> nxt != NIL && nxt in nodes && Less(nodes[nxt].key, target))
            && (j < Stop(nodes, chain, i, target) ==> Stands(nodes, chain, i, target, nxt, j + 1))
  {
    var level := Level(nodes, chain, i);
    LevelSorted(nodes, chain, i);
    if j < |level| {
      BelowIsAll(Keys(nodes, level), target, j);
    }
  }

  lemma IndexOf(level: seq<nat>, x: nat) returns (k: nat)
    requires x in level
    ensures k < |level| && level[k] == x
  {
    k :| 0 <= k < |level| && level[k] == x;
  }

  /** Each level is among the one below. */
  lemma LevelBelow(nodes: Nodes, chain: seq<nat>, i: nat, x: nat)
    requires Known(nodes, chain) && x in Level(nodes, chain, i + 1)
    ensures x in Level(nodes, chain, i)
  {
    LevelMembers(nodes, chain, i + 1);
    LevelMembers(nodes, chain, i);
  }

  lemma StandsAfter(nodes: Nodes, chain: seq<nat>, i: nat, target: Key, k: nat)
    requires Known(nodes, chain) && Sorted(Keys(nodes, chain)) && k < |Level(nodes, chain, i)|
    requires Less(nodes[Level(nodes, chain, i)[k]].key, target)
    ensures Stands(nodes, chain, i, target, Level(nodes, chain, i)[k], k + 1)
  {
    LevelSorted(nodes, chain, i);
    BelowIsAll(Keys(nodes, Level(nodes, chain, i)), target, k);
  }

  /** Where a level's search stopped, the search of the level below can go on. */
  lemma Descend(nodes: Nodes, chain: seq<nat>, i: nat, target: Key, x: nat) returns (j: nat)
    requires Known(nodes, chain) && Sorted(Keys(nodes, chain))
    requires x == Prev(Level(nodes, chain, i + 1), Stop(nodes, chain, i + 1, target))
    ensures Stands(nodes, chain, i, target, x, j)
  {
    var p := Stop(nodes, chain, i + 1, target);
    if p == 0 {
      j := 0;
    } else {
      assert Less(Keys(nodes, Level(nodes, chain, i + 1))[p - 1], target);
      LevelBelow(nodes, chain, i, x);
      var k := IndexOf(Level(nodes, chain, i), x);
      StandsAfter(nodes, chain, i, target, k);
      j := k + 1;
    }
  }

  // ---- Splicing -----------------------------------------------------------------------------------------

  lemma {:induction false} BelowSplit(a: seq<Key>, b: seq<Key>, k: Key)
    requires (forall i :: 0 <= i < |a| ==> Less(a[i], k)) && (b != [] ==> !Less(b[0], k))
    ensures Below(a + b, k) == |a|
  {
    if a == [] {
      assert a + b == b;
    } else {
      assert (a + b)[1..] == a[1..] + b;
      BelowSplit(a[1..], b, k);
    }
  }

  lemma {:induction false} KeysConcat(nodes: Nodes, a: seq<nat>, b: seq<nat>)
    requires Known(nodes, a) && Known(nodes, b)
    ensures Known(nodes, a + b) && Keys(nodes, a + b) == Keys(nodes, a) + Keys(nodes, b)
  {
  }

  /** The stop of each level cuts it where the chain is cut. */
  lemma StopSplits(nodes: Nodes, chain: seq<nat>, i: nat, k: Key)
    requires Known(nodes, chain) && Sorted(Keys(nodes, chain))
    ensures var p := Below(Keys(nodes, chain), k);
            && Known(nodes, chain[..p]) && Known(nodes, chain[p..])
            && Level(nodes, chain, i) == Level(nodes, chain[..p], i) + Level(nodes, chain[p..], i)
            && Stop(nodes, chain, i, k) == |Level(nodes, chain[..p], i)|
  {
    var p := Below(Keys(nodes, chain), k);
    var a, b := chain[..p], chain[p..];
    assert a + b == chain;
    LevelConcat(nodes, a, b, i);
    var la, lb := Level(nodes, a, i), Level(nodes, b, i);
    KeysConcat(nodes, la, lb);
    LevelMembers(nodes, a, i);
    LevelMembers(nodes, b, i);
    forall j | 0 <= j < |la| ensures Less(Keys(nodes, la)[j], k) {
      FrontBelow(nodes, chain, k, la[j]);
    }
    if lb != [] {
      BackNotBelow(nodes, chain, k, lb[0]);
    }
    BelowSplit(Keys(nodes, la), Keys(nodes, lb), k);
  }

  lemma FrontBelow(nodes: Nodes, chain: seq<nat>, k: Key, x: nat)
    requires Known(nodes, chain) && x in chain[..Below(Keys(nodes, chain), k)]
    ensures x in nodes && Less(nodes[x].key, k)
  {
    var m :| 0 <= m < Below(Keys(nodes, chain), k) && chain[m] == x;
    assert Less(Keys(nodes, chain)[m], k);
  }

  lemma BackNotBelow(nodes: Nodes, chain: seq<nat>, k: Key, x: nat)
    requires Known(nodes, chain) && Sorted(Keys(nodes, chain)) && x in chain[Below(Keys(nodes, chain), k)..]
    ensures x in nodes && !Less(nodes[x].key, k)
  {
    var p := Below(Keys(nodes, chain), k);
    var m :| 0 <= m < |chain[p..]| && chain[p..][m] == x;
    BelowIsAll(Keys(nodes, chain), k, p + m);
  }

  lemma LevelInserted(nodes: Nodes, a: seq<nat>, n: nat, b: seq<nat>, i: nat)
    requires Known(nodes, a) && Known(nodes, b) && IsNode(nodes, n)
    ensures Known(nodes, a + [n] + b)
    ensures Level(nodes, a + [n] + b, i)
         == Level(nodes, a, i) + (if nodes[n].height > i then [n] else []) + Level(nodes, b, i)
  {
    LevelOfOne(nodes, n, i);
    LevelConcat(nodes, a, [n], i);
    LevelConcat(nodes, a + [n], b, i);
  }

  /** The chain with a node spliced in. */
  function With(nodes: Nodes, chain: seq<nat>, n: nat): seq<nat>
    requires Known(nodes, chain) && IsNode(nodes, n)
  {
    Insert(chain, Below(Keys(nodes, chain), nodes[n].key), n)
  }

  lemma InsertBetween<T>(a: seq<T>, b: seq<T>, x: T)
    ensures Insert(a + b, |a|, x) == a + [x] + b && a + [] + b == a + b
  {
    assert (a + b)[..|a|] == a && (a + b)[|a|..] == b;
  }

  /** A new node joins the levels it reaches, at their stops, and no other. */
  lemma LevelsAfter(nodes: Nodes, chain: seq<nat>, n: nat, i: nat)
    requires Known(nodes, chain) && IsNode(nodes, n) && Sorted(Keys(nodes, chain))
    ensures Known(nodes, With(nodes, chain, n))
    ensures var after, before := Level(nodes, With(nodes, chain, n), i), Level(nodes, chain, i);
            && (nodes[n].height > i ==> after == Insert(before, Stop(nodes, chain, i, nodes[n].key), n))
            && (nodes[n].height <= i ==> after == before)
  {
    var p := Below(Keys(nodes, chain), nodes[n].key);
    StopSplits(nodes, chain, i, nodes[n].key);
    LevelInserted(nodes, chain[..p], n, chain[p..], i);
    InsertBetween(Level(nodes, chain[..p], i), Level(nodes, chain[p..], i), n);
  }

  /** One link set. */
  function Link(nodes: Nodes, x: nat, i: nat, target: nat): Nodes
    requires x in nodes && i < |nodes[x].next|
  {
    nodes[x := nodes[x].(next := nodes[x].next[i := target])]
  }

  lemma OtherLevelsKeep(nodes: Nodes, x: nat, i: nat, target: nat, level: seq<nat>, l: nat)
    requires Wide(nodes) && Known(nodes, level) && i < MAX_HEIGHT && l < MAX_HEIGHT && l != i && x in nodes
    requires Chained(nodes, level, l)
    ensures Wide(Link(nodes, x, i, target)) && Known(Link(nodes, x, i, target), level)
    ensures Chained(Link(nodes, x, i, target), level, l)
  {
    forall j | 0 <= j <= |level| ensures Link(nodes, x, i, target)[Prev(level, j)].next[l] == At(level, j) {
      assert nodes[Prev(level, j)].next[l] == At(level, j);
    }
  }

  /** Pointing the new node at the stop and the node before the stop at the new node makes
      the new level. */
  lemma Spliced(nodes: Nodes, level: seq<nat>, i: nat, p: nat, n: nat)
    requires Wide(nodes) && Known(nodes, level) && IsNode(nodes, n) && i < MAX_HEIGHT && p <= |level|
    requires Chained(nodes, level, i) && n !in level && Distinct(level)
    ensures var half := Link(nodes, n, i, At(level, p));
            && Prev(level, p) in half && Wide(half)
            && var done := Link(half, Prev(level, p), i, n);
               Wide(done) && Known(done, Insert(level, p, n)) && Chained(done, Insert(level, p, n), i)
  {
    var half := Link(nodes, n, i, At(level, p));
    var done := Link(half, Prev(level, p), i, n);
    var longer := Insert(level, p, n);
    forall j | 0 <= j <= |longer| ensures done[Prev(longer, j)].next[i] == At(longer, j) {
      if j < p {
        assert nodes[Prev(level, j)].next[i] == At(level, j);
        assert Prev(longer, j) == Prev(level, j) != Prev(level, p);
      } else if j > p + 1 {
        assert nodes[Prev(level, j - 1)].next[i] == At(level, j - 1);
        assert Prev(longer, j) == Prev(level, j - 1) != Prev(level, p);
      }
    }
  }

  lemma {:induction false} LevelDistinct(nodes: Nodes, chain: seq<nat>, i: nat)
    requires Known(nodes, chain) && Distinct(chain)
    ensures Distinct(Level(nodes, chain, i))
  {
    if chain != [] {
      var n := |chain| - 1;
      LevelDistinct(nodes, chain[..n], i);
      LevelMembers(nodes, chain[..n], i);
      var level := Level(nodes, chain[..n], i);
      forall j | 0 <= j < |level| ensures level[j] != chain[n] {
        assert level[j] in chain[..n];
      }
    }
  }

  // ---- A whole insertion --------------------------------------------------------------------------------

  /** The same nodes but for their links. */
  predicate SameShape(a: Nodes, b: Nodes) {
    a.Keys == b.Keys && forall x :: x in a ==> a[x].height == b[x].height && a[x].key == b[x].key && a[x].val == b[x].val
  }

  predicate LevelChained(nodes: Nodes, level: seq<nat>, l: nat) {
    Wide(nodes) && Known(nodes, level) && l < MAX_HEIGHT && Chained(nodes, level, l)
  }

  /** All levels, from the lowest. */
  function Levels(nodes: Nodes, chain: seq<nat>, k: nat): (levels: seq<seq<nat>>)
    requires Known(nodes, chain)
    ensures |levels| == k && forall l :: 0 <= l < k ==> levels[l] == Level(nodes, chain, l)
  {
    if k == 0 then [] else Levels(nodes, chain, k - 1) + [Level(nodes, chain, k - 1)]
  }

  /** The links of a list whose levels below `i` are those of `after` and the others those
      of `before`. */
  predicate Splicing(nodes: Nodes, before: seq<seq<nat>>, after: seq<seq<nat>>, i: nat)
    requires |before| == |after| == MAX_HEIGHT
  {
    && Wide(nodes)
    && (forall l :: 0 <= l < i && l < MAX_HEIGHT ==> LevelChained(nodes, after[l], l))
    && (forall l :: i <= l < MAX_HEIGHT ==> LevelChained(nodes, before[l], l))
  }

  lemma LinkKeeps(nodes: Nodes, x: nat, i: nat, target: nat, level: seq<nat>, l: nat)
    requires LevelChained(nodes, level, l) && i < MAX_HEIGHT && l != i && x in nodes
    ensures LevelChained(Link(nodes, x, i, target), level, l)
  {
    OtherLevelsKeep(nodes, x, i, target, level, l);
  }

  /** Both links set on level `i`. */
  function Joined(nodes: Nodes, level: seq<nat>, p: nat, i: nat, n: nat): Nodes
    requires Wide(nodes) && Known(nodes, level) && IsNode(nodes, n) && p <= |level| && i < MAX_HEIGHT
  {
    Link(Link(nodes, n, i, At(level, p)), Prev(level, p), i, n)
  }

  lemma SpliceStep(nodes: Nodes, before: seq<seq<nat>>, after: seq<seq<nat>>, i: nat, p: nat, n: nat)
    requires |before| == |after| == MAX_HEIGHT && i < MAX_HEIGHT && IsNode(nodes, n)
    requires Splicing(nodes, before, after, i) && p <= |before[i]|
    requires after[i] == Insert(before[i], p, n) && n !in before[i] && Distinct(before[i])
    ensures Known(nodes, before[i]) && nodes[Prev(before[i], p)].next[i] == At(before[i], p)
    ensures Splicing(Joined(nodes, before[i], p, i, n), before, after, i + 1)
  {
    var level := before[i];
    Spliced(nodes, level, i, p, n);
    var half := Link(nodes, n, i, At(level, p));
    forall l | 0 <= l < i ensures LevelChained(Joined(nodes, level, p, i, n), after[l], l) {
      LinkKeeps(nodes, n, i, At(level, p), after[l], l);
      LinkKeeps(half, Prev(level, p), i, n, after[l], l);
    }
    forall l | i < l < MAX_HEIGHT ensures LevelChained(Joined(nodes, level, p, i, n), before[l], l) {
      LinkKeeps(nodes, n, i, At(level, p), before[l], l);
      LinkKeeps(half, Prev(level, p), i, n, before[l], l);
    }
  }

  /** When all levels are those of the longer chain, the list has the invariant. */
  lemma SpliceDone(nodes: Nodes, before: seq<seq<nat>>, after: seq<seq<nat>>, i: nat, chain: seq<nat>, height: nat)
    requires |before| == |after| == MAX_HEIGHT && i <= MAX_HEIGHT && Splicing(nodes, before, after, i)
    requires forall l :: i <= l < MAX_HEIGHT ==> after[l] == before[l]
    requires Known(nodes, chain) && after == Levels(nodes, chain, MAX_HEIGHT)
    requires Distinct(chain) && Sorted(Keys(nodes, chain)) && 1 <= height <= MAX_HEIGHT
    requires forall j :: 0 <= j < |chain| ==> 1 <= nodes[chain[j]].height <= height
    ensures Inv(nodes, chain, height)
  {
    forall l | 0 <= l < MAX_HEIGHT ensures Chained(nodes, Level(nodes, chain, l), l) {
      assert LevelChained(nodes, after[l], l);
    }
  }

  lemma {:induction false} KeysAgree(a: Nodes, b: Nodes, chain: seq<nat>)
    requires Known(a, chain) && SameShape(a, b)
    ensures Known(b, chain) && Keys(a, chain) == Keys(b, chain)
  {
  }

  lemma {:induction false} LevelsAgree(a: Nodes, b: Nodes, chain: seq<nat>, k: nat)
    requires Known(a, chain) && SameShape(a, b)
    ensures Known(b, chain) && Levels(a, chain, k) == Levels(b, chain, k)
  {
    forall l | 0 <= l < k ensures Level(a, chain, l) == Level(b, chain, l) {
      LevelAgrees(a, b, chain, l);
    }
  }

  lemma KeysWith(nodes: Nodes, chain: seq<nat>, n: nat)
    requires Known(nodes, chain) && IsNode(nodes, n) && Sorted(Keys(nodes, chain))
    ensures Known(nodes, With(nodes, chain, n))
    ensures Keys(nodes, With(nodes, chain, n)) == Insert(Keys(nodes, chain), Below(Keys(nodes, chain), nodes[n].key), nodes[n].key)
    ensures Sorted(Keys(nodes, With(nodes, chain, n)))
  {
    InsertSorted(Keys(nodes, chain), nodes[n].key);
  }
}
