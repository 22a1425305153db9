/** The arena skip list: allocation from both ends of the buffer, insertion, and search. */
module SkipArena {
  import opened Bytes
  import opened SkipOrder
  import opened SkipLinks
  import opened SkipMemory

  datatype Entry = Entry(key: Key, val: seq<Byte>)

  function EntryOf(nodes: Nodes, x: nat): Entry
    requires x in nodes
  {
    Entry(nodes[x].key, nodes[x].val)
  }

  function EntriesOf(nodes: Nodes, chain: seq<nat>): (es: seq<Entry>)
    requires Known(nodes, chain)
  {
    seq(|chain|, i requires 0 <= i < |chain| => EntryOf(nodes, chain[i]))
  }

  /** Unsigned 32-bit addition wraps around. */
  function Add32(a: nat, b: nat): nat {
    (a + b) % U32
  }

  /** The test for room above the last slot says what it means exactly for buffers that leave
      a slot's width below four gibibytes. */
  lemma GuardExactIff(len: nat)
    requires len < U32
    ensures (forall top: nat :: top <= len ==> (Add32(top, NODE) > len <==> top + NODE > len)) <==> len + NODE < U32
  {
    if len + NODE >= U32 {
      var top := U32 - NODE;
      assert Add32(top, NODE) == 0;
    }
  }

  /** Whether a node and its data still fit. */
  predicate Room(size: nat, top: nat, bottom: nat, data: nat) {
    top + NODE <= size && data <= bottom && top + NODE <= bottom - data
  }

  /** The cursors and the nodes, on either side of them. */
  ghost predicate Placed(m: seq<Byte>, nodes: Nodes, chain: seq<nat>, top: nat, bottom: nat) {
    && NODE <= |m| < U32 - NODE && top % NODE == 0 && NODE <= top <= |m| && bottom <= |m|
    && Holds(m, nodes, bottom) && (forall off :: off in nodes ==> off < top)
    && (forall off :: off in nodes <==> off == HEAD || off in chain)
  }

  /** A search for `target` has stopped on level `i` at `x`. */
  predicate Arrived(nodes: Nodes, chain: seq<nat>, i: nat, target: Key, x: nat)
    requires Known(nodes, chain)
  {
    x == Prev(Level(nodes, chain, i), Stop(nodes, chain, i, target))
  }

  /** The node a search for `target` stops before on level `i`. */
  predicate Follows(nodes: Nodes, chain: seq<nat>, i: nat, target: Key, y: nat)
    requires Known(nodes, chain)
  {
    y == At(Level(nodes, chain, i), Stop(nodes, chain, i, target))
  }

  lemma FollowsArrived(nodes: Nodes, chain: seq<nat>, height: nat, i: nat, target: Key, x: nat)
    requires Inv(nodes, chain, height) && i < MAX_HEIGHT && Arrived(nodes, chain, i, target, x)
    ensures x in nodes && Follows(nodes, chain, i, target, nodes[x].next[i])
  {
    StepAlong(nodes, chain, i, target, x, Stop(nodes, chain, i, target));
  }

  lemma LowestFollows(nodes: Nodes, chain: seq<nat>, height: nat, target: Key, y: nat)
    requires Inv(nodes, chain, height) && Follows(nodes, chain, 0, target, y)
    ensures y == At(chain, Below(Keys(nodes, chain), target))
  {
    LowestLevel(nodes, chain);
  }

  /** The predecessors and successors found on the levels from `i` up to `height`. */
  predicate Found(nodes: Nodes, chain: seq<nat>, target: Key, prev: seq<nat>, next: seq<nat>, i: nat, height: nat)
    requires Known(nodes, chain)
  {
    && |prev| == |next| == MAX_HEIGHT && height <= MAX_HEIGHT
    && forall l :: i <= l < height ==>
         Arrived(nodes, chain, l, target, prev[l]) && Follows(nodes, chain, l, target, next[l])
  }

  lemma FoundMore(nodes: Nodes, chain: seq<nat>, target: Key, prev: seq<nat>, next: seq<nat>, i: nat, height: nat, x: nat, y: nat)
    requires Known(nodes, chain) && i < height && Found(nodes, chain, target, prev, next, i + 1, height)
    requires Arrived(nodes, chain, i, target, x) && Follows(nodes, chain, i, target, y)
    ensures Found(nodes, chain, target, prev[i := x], next[i := y], i, height)
  {
  }

  // ---- Steps of an insertion -------------------------------------------------------------------------

  /** A node not yet linked changes nothing. */
  lemma UnlinkedNode(nodes: Nodes, chain: seq<nat>, height: nat, n: nat, node: Node, taller: nat)
    requires Inv(nodes, chain, height) && n !in nodes && n != NIL && |node.next| == MAX_HEIGHT
    requires height <= taller <= MAX_HEIGHT
    ensures Inv(nodes[n := node], chain, taller)
  {
    var more := nodes[n := node];
    KeysOfOld(nodes, more, chain);
    forall l | 0 <= l < MAX_HEIGHT ensures Chained(more, Level(more, chain, l), l) {
      LevelAgrees(nodes, more, chain, l);
      ChainedOld(nodes, more, Level(nodes, chain, l), l);
    }
  }

  lemma KeysOfOld(nodes: Nodes, more: Nodes, chain: seq<nat>)
    requires Known(nodes, chain) && forall x :: x in nodes ==> x in more && more[x] == nodes[x]
    ensures Known(more, chain) && Keys(nodes, chain) == Keys(more, chain) && EntriesOf(nodes, chain) == EntriesOf(more, chain)
  {
  }

  lemma ChainedOld(nodes: Nodes, more: Nodes, level: seq<nat>, l: nat)
    requires Wide(nodes) && Wide(more) && Known(nodes, level) && l < MAX_HEIGHT && Chained(nodes, level, l)
    requires forall x :: x in nodes ==> x in more && more[x] == nodes[x]
    ensures Known(more, level) && Chained(more, level, l)
  {
    forall j | 0 <= j <= |level| ensures more[Prev(level, j)].next[l] == At(level, j) {
      assert nodes[Prev(level, j)].next[l] == At(level, j);
    }
  }

  /** The list stands with `n` allocated and not linked. */
  predicate Awaits(base: Nodes, chain: seq<nat>, height: nat, n: nat) {
    Inv(base, chain, height) && IsNode(base, n) && n !in chain && 1 <= base[n].height <= height
  }

  lemma LevelReady(base: Nodes, chain: seq<nat>, height: nat, n: nat, i: nat)
    requires Awaits(base, chain, height, n) && i < base[n].height
    ensures var level, p := Level(base, chain, i), Stop(base, chain, i, base[n].key);
            && Known(base, With(base, chain, n)) && p <= |level| && n !in level && Distinct(level)
            && Level(base, With(base, chain, n), i) == Insert(level, p, n)
  {
    LevelMembers(base, chain, i);
    LevelDistinct(base, chain, i);
    LevelsAfter(base, chain, n, i);
  }

  lemma SplicingStarts(base: Nodes, chain: seq<nat>, height: nat, after: seq<seq<nat>>)
    requires Inv(base, chain, height) && |after| == MAX_HEIGHT
    ensures Splicing(base, Levels(base, chain, MAX_HEIGHT), after, 0)
  {
  }

  lemma InsertMembers(chain: seq<nat>, p: nat, n: nat)
    requires p <= |chain|
    ensures forall x :: x in Insert(chain, p, n) <==> x in chain || x == n
  {
    assert chain[..p] + chain[p..] == chain;
  }

  lemma InsertDistinct(chain: seq<nat>, p: nat, n: nat)
    requires p <= |chain| && Distinct(chain) && n !in chain
    ensures Distinct(Insert(chain, p, n))
  {
    var r := Insert(chain, p, n);
    forall i, j | 0 <= i < j < |r| ensures r[i] != r[j] {
      assert i != p ==> r[i] == chain[if i < p then i else i - 1];
      assert j != p ==> r[j] == chain[if j < p then j else j - 1];
    }
  }

  lemma Ends(base: Nodes, nodes: Nodes, chain: seq<nat>, height: nat, n: nat)
    requires Awaits(base, chain, height, n) && SameShape(base, nodes) && Known(base, With(base, chain, n))
    requires Splicing(nodes, Levels(base, chain, MAX_HEIGHT), Levels(base, With(base, chain, n), MAX_HEIGHT), base[n].height)
    ensures Inv(nodes, With(base, chain, n), height)
  {
    var chain' := With(base, chain, n);
    var before, after := Levels(base, chain, MAX_HEIGHT), Levels(base, chain', MAX_HEIGHT);
    forall l | base[n].height <= l < MAX_HEIGHT ensures after[l] == before[l] {
      LevelsAfter(base, chain, n, l);
    }
    InsertDistinct(chain, Below(Keys(base, chain), base[n].key), n);
    KeysWith(base, chain, n);
    KeysAgree(base, nodes, chain');
    LevelsAgree(base, nodes, chain', MAX_HEIGHT);
    HeightsWith(base, nodes, chain, height, n);
    SpliceDone(nodes, before, after, base[n].height, chain', height);
  }

  lemma HeightsWith(base: Nodes, nodes: Nodes, chain: seq<nat>, height: nat, n: nat)
    requires Awaits(base, chain, height, n) && SameShape(base, nodes) && Known(base, With(base, chain, n))
    ensures forall j :: 0 <= j < |With(base, chain, n)| ==> 1 <= nodes[With(base, chain, n)[j]].height <= height
  {
  }

  lemma EntriesInsert(nodes: Nodes, chain: seq<nat>, p: nat, n: nat)
    requires Known(nodes, chain) && IsNode(nodes, n) && p <= |chain|
    ensures Known(nodes, Insert(chain, p, n))
    ensures EntriesOf(nodes, Insert(chain, p, n)) == Insert(EntriesOf(nodes, chain), p, Entry(nodes[n].key, nodes[n].val))
  {
    var r := Insert(chain, p, n);
    assert forall j :: 0 <= j < |r| ==> r[j] == if j < p then chain[j] else if j == p then n else chain[j - 1];
  }

  lemma EntriesAgree(base: Nodes, nodes: Nodes, chain: seq<nat>)
    requires Known(base, chain) && SameShape(base, nodes)
    ensures Known(nodes, chain) && EntriesOf(nodes, chain) == EntriesOf(base, chain)
  {
  }

  function EntryKeys(es: seq<Entry>): (keys: seq<Key>) {
    seq(|es|, i requires 0 <= i < |es| => es[i].key)
  }

  /** A list of entries with one more, before the first whose key is not below its own. */
  function WithEntry(es: seq<Entry>, e: Entry): seq<Entry> {
    Insert(es, Below(EntryKeys(es), e.key), e)
  }

  lemma EntriesWith(base: Nodes, nodes: Nodes, chain: seq<nat>, n: nat)
    requires Known(base, chain) && IsNode(base, n) && SameShape(base, nodes)
    ensures Known(nodes, With(base, chain, n))
    ensures EntriesOf(nodes, With(base, chain, n)) == WithEntry(EntriesOf(base, chain), Entry(base[n].key, base[n].val))
  {
    assert EntryKeys(EntriesOf(base, chain)) == Keys(base, chain);
    EntriesInsert(base, chain, Below(Keys(base, chain), base[n].key), n);
    EntriesAgree(base, nodes, With(base, chain, n));
  }

  // ---- The empty list ------------------------------------------------------------------------------------

  lemma StandsKept(m: seq<Byte>, at: nat, src: seq<Byte>, off: nat, b: seq<Byte>)
    requires at + |src| <= |m| && StandsAt(m, off, b) && (at + |src| <= off || off + |b| <= at)
    ensures StandsAt(Patch(m, at, src), off, b)
  {
    PatchSlice(m, at, src, off, |b|);
  }

  lemma StandsNew(m: seq<Byte>, at: nat, src: seq<Byte>)
    requires at + |src| <= |m|
    ensures StandsAt(Patch(m, at, src), at, src)
  {
  }

  lemma HeadRead(m: seq<Byte>)
    requires NODE <= |m| && Blank(m, MAX_HEIGHT)
    ensures NodeAt(m, HEAD) == Node(MAX_HEIGHT, [], [], NoNext(MAX_HEIGHT))
  {
    WordStands(m, 0, MAX_HEIGHT);
    forall l | 0 <= l < MAX_HEIGHT ensures NextAt(m, HEAD, l) == NIL {
      WordStands(m, NEXT + 4 * l, NIL);
    }
  }

  lemma WordStands(m: seq<Byte>, at: nat, v: nat)
    requires v < U32 && StandsAt(m, at, LE(v, 4))
    ensures Word(m, at) == v
  {
    WordWithin(m, at, LE(v, 4), 0, v);
  }

  /** A head whose first `i` links lead nowhere. */
  predicate Blank(m: seq<Byte>, i: nat) {
    StandsAt(m, 0, LE(MAX_HEIGHT, 4)) && forall l :: 0 <= l < i ==> StandsAt(m, NEXT + 4 * l, LE(NIL, 4))
  }

  lemma BlankNext(m: seq<Byte>, i: nat)
    requires Blank(m, i) && i < MAX_HEIGHT && NODE <= |m|
    ensures Blank(Patch(m, NEXT + 4 * i, LE(NIL, 4)), i + 1)
  {
    StandsNew(m, NEXT + 4 * i, LE(NIL, 4));
    StandsKept(m, NEXT + 4 * i, LE(NIL, 4), 0, LE(MAX_HEIGHT, 4));
    forall l | 0 <= l < i ensures StandsAt(Patch(m, NEXT + 4 * i, LE(NIL, 4)), NEXT + 4 * l, LE(NIL, 4)) {
      StandsKept(m, NEXT + 4 * i, LE(NIL, 4), NEXT + 4 * l, LE(NIL, 4));
    }
  }

  method InitHead(arena: array<Byte>)
    requires NODE <= arena.Length
    modifies arena
    ensures NodeAt(arena[..], HEAD) == Node(MAX_HEIGHT, [], [], NoNext(MAX_HEIGHT))
  {
    StandsNew(arena[..], 0, LE(MAX_HEIGHT, 4));
    CopyAt(arena, 0, LE(MAX_HEIGHT, 4));
    for i := 0 to MAX_HEIGHT
      invariant Blank(arena[..], i)
    {
      BlankNext(arena[..], i);
      CopyAt(arena, NEXT + 4 * i, LE(NIL, 4));
    }
    HeadRead(arena[..]);
  }

  lemma EmptyList(m: seq<Byte>)
    requires NODE <= |m| && |m| + NODE < U32 && NodeAt(m, HEAD) == Node(MAX_HEIGHT, [], [], NoNext(MAX_HEIGHT))
    ensures Placed(m, map[HEAD := NodeAt(m, HEAD)], [], NODE, |m|) && Inv(map[HEAD := NodeAt(m, HEAD)], [], 1)
  {
    var nodes := map[HEAD := NodeAt(m, HEAD)];
    forall l | 0 <= l < MAX_HEIGHT ensures Chained(nodes, Level(nodes, [], l), l) {
      assert NoNext(MAX_HEIGHT)[l] == NIL;
    }
  }

  lemma OffsetsSmall(m: seq<Byte>, nodes: Nodes, bottom: nat, x: nat)
    requires Holds(m, nodes, bottom) && x in nodes && bottom < U32
    ensures x < U32
  {
    assert InPlace(m, x, bottom);
  }

  lemma JoinedShape(nodes: Nodes, level: seq<nat>, p: nat, i: nat, n: nat)
    requires Wide(nodes) && Known(nodes, level) && IsNode(nodes, n) && p <= |level| && i < MAX_HEIGHT
    ensures SameShape(nodes, Joined(nodes, level, p, i, n))
  {
  }

  /** What the splice of level `i` finds, and what it leaves. */
  lemma BeforeLevel(base: Nodes, nodes: Nodes, chain: seq<nat>, height: nat, n: nat, i: nat,
                    before: seq<seq<nat>>, after: seq<seq<nat>>, prev: seq<nat>, next: seq<nat>)
    requires Awaits(base, chain, height, n) && i < base[n].height && SameShape(base, nodes)
    requires Found(base, chain, base[n].key, prev, next, 0, height)
    requires before == Levels(base, chain, MAX_HEIGHT) && Known(base, With(base, chain, n))
    requires after == Levels(base, With(base, chain, n), MAX_HEIGHT) && Splicing(nodes, before, after, i)
    ensures var p := Stop(base, chain, i, base[n].key);
            && Known(nodes, before[i]) && p <= |before[i]| && n !in before[i]
            && prev[i] == Prev(before[i], p) && next[i] == At(before[i], p) && nodes[prev[i]].next[i] == next[i]
            && Splicing(Joined(nodes, before[i], p, i, n), before, after, i + 1)
            && SameShape(base, Joined(nodes, before[i], p, i, n))
  {
    var p := Stop(base, chain, i, base[n].key);
    LevelReady(base, chain, height, n, i);
    assert Arrived(base, chain, i, base[n].key, prev[i]) && Follows(base, chain, i, base[n].key, next[i]);
    SpliceStep(nodes, before, after, i, p, n);
    JoinedShape(nodes, before[i], p, i, n);
  }

  // ---- Writing a node ------------------------------------------------------------------------------------

  function SlotHead(height: nat, data: nat, keyLen: nat, valLen: nat): (b: seq<Byte>)
    ensures |b| == NEXT
  {
    LE(height, 4) + LE(data, 4) + LE(data + keyLen, 4) + LE(keyLen, 4) + LE(valLen, 4)
  }

  method WriteSlotHead(arena: array<Byte>, n: nat, height: nat, data: nat, keyLen: nat, valLen: nat)
    requires n + NODE <= arena.Length
    modifies arena
    ensures arena[..] == Patch(old(arena[..]), n, SlotHead(height, data, keyLen, valLen))
  {
    ghost var was, done := arena[..], LE(height, 4);
    CopyAt(arena, n, LE(height, 4));
    CopyAt(arena, n + 4, LE(data, 4));
    PatchNext(was, n, done, LE(data, 4));
    done := done + LE(data, 4);
    CopyAt(arena, n + 8, LE(data + keyLen, 4));
    PatchNext(was, n, done, LE(data + keyLen, 4));
    done := done + LE(data + keyLen, 4);
    CopyAt(arena, n + 12, LE(keyLen, 4));
    PatchNext(was, n, done, LE(keyLen, 4));
    done := done + LE(keyLen, 4);
    CopyAt(arena, n + 16, LE(valLen, 4));
    PatchNext(was, n, done, LE(valLen, 4));
  }

  lemma NilsNext(was: seq<Byte>, n: nat, head: seq<Byte>, i: nat)
    requires |head| == NEXT && i < MAX_HEIGHT && n + NODE <= |was|
    ensures Patch(Patch(was, n, head + Nils(i)), n + NEXT + 4 * i, LE(NIL, 4)) == Patch(was, n, head + Nils(i + 1))
  {
    PatchNext(was, n, head + Nils(i), LE(NIL, 4));
    assert head + Nils(i) + LE(NIL, 4) == head + Nils(i + 1);
  }

  method WriteNils(arena: array<Byte>, n: nat, ghost was: seq<Byte>, ghost head: seq<Byte>)
    requires |head| == NEXT && n + NODE <= arena.Length == |was| && arena[..] == Patch(was, n, head)
    modifies arena
    ensures arena[..] == Patch(was, n, head + Nils(MAX_HEIGHT))
  {
    assert head + Nils(0) == head;
    for i := 0 to MAX_HEIGHT
      invariant arena[..] == Patch(was, n, head + Nils(i))
    {
      CopyAt(arena, n + NEXT + 4 * i, LE(NIL, 4));
      NilsNext(was, n, head, i);
    }
  }

  /** The slot of a node: its fields, and links to nothing. */
  method WriteSlot(arena: array<Byte>, n: nat, height: nat, data: nat, keyLen: nat, valLen: nat)
    requires n + NODE <= arena.Length
    modifies arena
    ensures arena[..] == Patch(old(arena[..]), n, Slot(height, data, keyLen, valLen))
  {
    ghost var was, head := arena[..], SlotHead(height, data, keyLen, valLen);
    WriteSlotHead(arena, n, height, data, keyLen, valLen);
    WriteNils(arena, n, was, head);
  }

  /** The slot, then the key and the value in the data region. */
  method WriteNode(arena: array<Byte>, n: nat, height: nat, data: nat, key: seq<Byte>, val: seq<Byte>)
    requires n + NODE <= data && data + |key| + |val| <= arena.Length
    modifies arena
    ensures arena[..] == WithNode(old(arena[..]), n, height, data, key, val)
  {
    WriteSlot(arena, n, height, data, |key|, |val|);
    ghost var was := arena[..];
    CopyAt(arena, data, key);
    CopyAt(arena, data + |key|, val);
    PatchNext(was, data, key, val);
  }

  /** The members and the places after an insertion. */
  lemma PlacedAfter(m: seq<Byte>, base: Nodes, nodes: Nodes, chain: seq<nat>, n: nat, top: nat, bottom: nat)
    requires NODE <= |m| && |m| + NODE < U32 && top % NODE == 0 && NODE <= top <= |m| && bottom <= |m|
    requires Holds(m, nodes, bottom) && SameShape(base, nodes) && Known(base, chain) && IsNode(base, n)
    requires forall off :: off in base ==> off < top
    requires forall off :: off in base <==> off == HEAD || off in chain || off == n
    ensures Placed(m, nodes, With(base, chain, n), top, bottom)
  {
    InsertMembers(chain, Below(Keys(base, chain), base[n].key), n);
  }

  lemma AwaitsNode(nodes: Nodes, chain: seq<nat>, height: nat, n: nat, node: Node, taller: nat, size: nat)
    requires Inv(nodes, chain, height) && n !in nodes && n != HEAD && n < size < NIL && |node.next| == MAX_HEIGHT
    requires height <= taller <= MAX_HEIGHT && 1 <= node.height <= taller
    ensures Awaits(nodes[n := node], chain, taller, n)
  {
    UnlinkedNode(nodes, chain, height, n, node, taller);
  }

  /** A place for a node: above all slots, below all data. */
  ghost predicate Site(m: seq<Byte>, nodes: Nodes, chain: seq<nat>, n: nat, data: nat, bottom: nat) {
    && n != HEAD && n % NODE == 0 && n + NODE <= data <= bottom <= |m| && |m| + NODE < U32
    && Holds(m, nodes, bottom) && (forall off :: off in nodes ==> off < n)
    && (forall off :: off in nodes <==> off == HEAD || off in chain)
  }

  lemma SiteReserved(m: seq<Byte>, nodes: Nodes, chain: seq<nat>, n: nat, data: nat, bottom: nat)
    requires Placed(m, nodes, chain, n, bottom) && n + NODE <= data <= bottom
    ensures Site(m, nodes, chain, n, data, bottom)
  {
  }

  lemma StillPlaced(m: seq<Byte>, nodes: Nodes, chain: seq<nat>, top: nat, higher: nat, bottom: nat)
    requires Placed(m, nodes, chain, top, bottom) && (higher == top || (higher == top + NODE && higher <= |m|))
    ensures Placed(m, nodes, chain, higher, bottom)
  {
  }

  /** `base` is `was` with the node `n`, above all others. */
  ghost predicate NewIn(was: Nodes, base: Nodes, chain: seq<nat>, n: nat, top: nat) {
    && Known(was, chain) && n !in was && n != HEAD && n != NIL && n in base && base == was[n := base[n]] && n < top
    && (forall off :: off in was ==> off < top) && (forall off :: off in was <==> off == HEAD || off in chain)
  }

  lemma SiteNew(m: seq<Byte>, was: Nodes, chain: seq<nat>, n: nat, data: nat, bottom: nat, node: Node)
    requires Site(m, was, chain, n, data, bottom) && Known(was, chain)
    ensures NewIn(was, was[n := node], chain, n, n + NODE)
  {
  }

  lemma Inserted(m: seq<Byte>, was: Nodes, base: Nodes, nodes: Nodes, chain: seq<nat>, n: nat, top: nat, bottom: nat)
    requires NODE <= |m| && |m| + NODE < U32 && top % NODE == 0 && NODE <= top <= |m| && bottom <= |m|
    requires NewIn(was, base, chain, n, top) && Holds(m, nodes, bottom) && SameShape(base, nodes)
    ensures Known(base, chain) && IsNode(base, n) && Placed(m, nodes, With(base, chain, n), top, bottom)
    ensures Known(nodes, With(base, chain, n)) && |With(base, chain, n)| == |chain| + 1
    ensures EntriesOf(nodes, With(base, chain, n)) == WithEntry(EntriesOf(was, chain), Entry(base[n].key, base[n].val))
  {
    KeysOfOld(was, base, chain);
    EntriesWith(base, nodes, chain, n);
    PlacedAfter(m, base, nodes, chain, n, top, bottom);
  }

  /** The same of a chain known to be the longer one. */
  lemma Adopted(m: seq<Byte>, was: Nodes, base: Nodes, nodes: Nodes, before: seq<nat>, chain: seq<nat>, n: nat, top: nat, bottom: nat)
    requires NODE <= |m| && |m| + NODE < U32 && top % NODE == 0 && NODE <= top <= |m| && bottom <= |m|
    requires NewIn(was, base, before, n, top) && Holds(m, nodes, bottom) && SameShape(base, nodes)
    requires Known(base, before) && IsNode(base, n) && chain == With(base, before, n)
    ensures Placed(m, nodes, chain, top, bottom) && |chain| == |before| + 1 && Known(nodes, chain)
    ensures EntriesOf(nodes, chain) == WithEntry(EntriesOf(was, before), Entry(base[n].key, base[n].val))
  {
    Inserted(m, was, base, nodes, before, n, top, bottom);
  }

  lemma FirstAlong(nodes: Nodes, chain: seq<nat>, height: nat)
    requires Inv(nodes, chain, height)
    ensures nodes[HEAD].next[0] == At(chain, 0)
  {
    LowestLevel(nodes, chain);
    assert Prev(chain, 0) == HEAD;
  }

  lemma NextAlong(nodes: Nodes, chain: seq<nat>, height: nat, j: nat)
    requires Inv(nodes, chain, height) && j < |chain|
    ensures nodes[chain[j]].next[0] == At(chain, j + 1) && Known(nodes, chain[..j])
    ensures EntriesOf(nodes, chain[..j + 1]) == EntriesOf(nodes, chain[..j]) + [EntryOf(nodes, chain[j])]
  {
    LowestLevel(nodes, chain);
    assert Prev(chain, j + 1) == chain[j];
  }

  class SkipListArena {
    const arena: array<Byte>
    var nodeTop: nat
    var dataBottom: nat
    var height: nat
    var nodeCount: nat
    ghost var nodes: Nodes
    ghost var chain: seq<nat>

    ghost predicate Valid()
      reads this, arena
    {
      Placed(arena[..], nodes, chain, nodeTop, dataBottom) && Inv(nodes, chain, height) && nodeCount == |chain|
    }

    ghost function Entries(): seq<Entry>
      requires Valid()
      reads this, arena
    {
      EntriesOf(nodes, chain)
    }

    /** An empty list: a head of full height whose links lead nowhere. */
    constructor (size: nat)
      requires NODE <= size && size + NODE < U32
      ensures Valid() && Entries() == [] && fresh(arena) && arena.Length == size
      ensures nodeTop == NODE && dataBottom == size && nodeCount == 0
    {
      arena := new Byte[size];
      nodeTop, dataBottom, height, nodeCount := NODE, size, 1, 0;
      nodes := map[HEAD := Node(MAX_HEIGHT, [], [], NoNext(MAX_HEIGHT))];
      chain := [];
      new;
      InitHead(arena);
      EmptyList(arena[..]);
    }

    method NodeNext(x: nat, i: nat) returns (nxt: nat)
      requires Holds(arena[..], nodes, dataBottom) && x in nodes && i < MAX_HEIGHT && Wide(nodes)
      ensures nxt == nodes[x].next[i]
    {
      assert NodeAt(arena[..], x) == nodes[x];
      nxt := Word(arena[..], x + NEXT + 4 * i);
    }

    method NodeKey(x: nat) returns (key: Key)
      requires Holds(arena[..], nodes, dataBottom) && x in nodes
      ensures key == nodes[x].key
    {
      assert NodeAt(arena[..], x) == nodes[x];
      key := KeyAt(arena[..], x);
    }

    method SetNext(x: nat, i: nat, v: nat)
      requires Holds(arena[..], nodes, dataBottom) && Wide(nodes) && x in nodes && i < MAX_HEIGHT && v < U32
      modifies arena, this`nodes
      ensures nodes == Link(old(nodes), x, i, v) && Holds(arena[..], nodes, dataBottom) && Wide(nodes)
    {
      LinkHolds(arena[..], nodes, dataBottom, x, i, v);
      CopyAt(arena, x + NEXT + 4 * i, LE(v, 4));
      nodes := Link(nodes, x, i, v);
    }

    /** Takes a slot from the bottom and room for the data from the top. A slot taken before
        the data turns out not to fit is not given back. */
    method Reserve(dataLen: nat) returns (ok: bool, n: nat, data: nat)
      requires nodeTop <= arena.Length < U32 - NODE
      modifies this`nodeTop, this`dataBottom
      ensures ok == Room(arena.Length, old(nodeTop), old(dataBottom), dataLen)
      ensures ok ==> n == old(nodeTop) && data == dataBottom == old(dataBottom) - dataLen
      ensures nodeTop == (if old(nodeTop) + NODE <= arena.Length then old(nodeTop) + NODE else old(nodeTop))
      ensures !ok ==> dataBottom == old(dataBottom)
    {
      var currTop := nodeTop;
      if Add32(currTop, NODE) > arena.Length {
        return false, 0, 0;
      }
      nodeTop := currTop + NODE;
      if dataBottom < dataLen {
        return false, 0, 0;
      }
      var newBottom := dataBottom - dataLen;
      if currTop + NODE > newBottom {
        return false, 0, 0;
      }
      dataBottom := newBottom;
      return true, currTop, newBottom;
    }

    /** Sets a link if it still is what was read. */
    method CasNext(x: nat, i: nat, expected: nat, v: nat) returns (swapped: bool)
      requires Holds(arena[..], nodes, dataBottom) && Wide(nodes) && x in nodes && i < MAX_HEIGHT && v < U32
      modifies arena, this`nodes
      ensures swapped == (old(nodes)[x].next[i] == expected) && Holds(arena[..], nodes, dataBottom) && Wide(nodes)
      ensures nodes == if swapped then Link(old(nodes), x, i, v) else old(nodes)
    {
      var cur := NodeNext(x, i);
      swapped := cur == expected;
      if swapped {
        SetNext(x, i, v);
      }
    }

    /** Links `n` on one level, at position `p`. */
    method SpliceLevel(n: nat, i: nat, prev: nat, next: nat, ghost level: seq<nat>, ghost p: nat)
      requires Holds(arena[..], nodes, dataBottom) && Wide(nodes) && IsNode(nodes, n) && i < MAX_HEIGHT && dataBottom < U32
      requires Known(nodes, level) && p <= |level| && n !in level && prev == Prev(level, p) && next == At(level, p)
      requires nodes[prev].next[i] == next
      modifies arena, this`nodes
      ensures Holds(arena[..], nodes, dataBottom) && nodes == Joined(old(nodes), level, p, i, n)
    {
      OffsetsSmall(arena[..], nodes, dataBottom, n);
      if next != NIL {
        OffsetsSmall(arena[..], nodes, dataBottom, next);
      }
      SetNext(n, i, next);
      var swapped := CasNext(prev, i, next, n);
      assert swapped;
    }

    /** Links `n` on every level it reaches, from the lowest up. */
    method Splice(n: nat, h: nat, prev: seq<nat>, next: seq<nat>)
      requires Holds(arena[..], nodes, dataBottom) && Awaits(nodes, chain, height, n) && nodes[n].height == h && dataBottom < U32
      requires Found(nodes, chain, nodes[n].key, prev, next, 0, height)
      modifies arena, this`nodes
      ensures Holds(arena[..], nodes, dataBottom) && SameShape(old(nodes), nodes)
      ensures Known(old(nodes), chain) && IsNode(old(nodes), n) && Inv(nodes, With(old(nodes), chain, n), height)
    {
      ghost var base, key := nodes, nodes[n].key;
      LevelReady(base, chain, height, n, 0);
      ghost var before := Levels(base, chain, MAX_HEIGHT);
      ghost var after := Levels(base, With(base, chain, n), MAX_HEIGHT);
      SplicingStarts(base, chain, height, after);
      for i := 0 to h
        invariant Holds(arena[..], nodes, dataBottom) && SameShape(base, nodes) && Splicing(nodes, before, after, i)
      {
        BeforeLevel(base, nodes, chain, height, n, i, before, after, prev, next);
        SpliceLevel(n, i, prev[i], next[i], before[i], Stop(base, chain, i, key));
      }
      Ends(base, nodes, chain, height, n);
    }

    /** Moves along level `i` to the last node below the target; `below` is where the search
        of the next level can start. */
    method WalkLevel(i: nat, target: Key, start: nat, ghost from: nat) returns (x: nat, ghost below: nat)
      requires Holds(arena[..], nodes, dataBottom) && Inv(nodes, chain, height) && i < MAX_HEIGHT
      requires Stands(nodes, chain, i, target, start, from)
      ensures Arrived(nodes, chain, i, target, x) && x in nodes
      ensures i > 0 ==> Stands(nodes, chain, i - 1, target, x, below)
    {
      x := Walk(i, target, start, from);
      FollowsArrived(nodes, chain, height, i, target, x);
      below := 0;
      if i > 0 {
        below := Descend(nodes, chain, i - 1, target, x);
      }
    }

    method Walk(i: nat, target: Key, start: nat, ghost from: nat) returns (x: nat)
      requires Holds(arena[..], nodes, dataBottom) && Inv(nodes, chain, height) && i < MAX_HEIGHT
      requires Stands(nodes, chain, i, target, start, from)
      ensures Arrived(nodes, chain, i, target, x)
    {
      x := start;
      ghost var below := from;
      while true
        invariant Stands(nodes, chain, i, target, x, below)
        decreases Stop(nodes, chain, i, target) - below
      {
        StepAlong(nodes, chain, i, target, x, below);
        var nxt := NodeNext(x, i);
        if nxt == NIL {
          break;
        }
        var key := NodeKey(nxt);
        if !Less(key, target) {
          break;
        }
        x, below := nxt, below + 1;
      }
    }

    /** The predecessors of `target` on all levels of the list, and what follows them. */
    method FindAll(target: Key) returns (prev: seq<nat>, next: seq<nat>)
      requires Holds(arena[..], nodes, dataBottom) && Inv(nodes, chain, height)
      ensures Found(nodes, chain, target, prev, next, 0, height)
    {
      prev, next := NoNext(MAX_HEIGHT), NoNext(MAX_HEIGHT);
      var x, i := HEAD, height;
      ghost var j := 0;
      while i > 0
        invariant 0 <= i <= height && (i > 0 ==> Stands(nodes, chain, i - 1, target, x, j))
        invariant Found(nodes, chain, target, prev, next, i, height)
      {
        i := i - 1;
        x, j := WalkLevel(i, target, x, j);
        FollowsArrived(nodes, chain, height, i, target, x);
        var nxt := NodeNext(x, i);
        FoundMore(nodes, chain, target, prev, next, i, height, x, nxt);
        prev, next := prev[i := x], next[i := nxt];
      }
    }

    /** Writes a node into the room reserved for it; it is not linked yet. */
    method Enter(h: nat, key: Key, val: seq<Byte>, n: nat, ghost bottom: nat)
      requires Site(arena[..], nodes, chain, n, dataBottom, bottom) && dataBottom + |key| + |val| == bottom
      requires Inv(nodes, chain, height) && 1 <= h <= MAX_HEIGHT
      modifies arena, this`nodes, this`height
      ensures nodes == old(nodes)[n := Node(h, key, val, NoNext(MAX_HEIGHT))]
      ensures Holds(arena[..], nodes, dataBottom) && Awaits(nodes, chain, height, n)
    {
      ghost var node := Node(h, key, val, NoNext(MAX_HEIGHT));
      NodeJoins(arena[..], nodes, n, h, dataBottom, key, val, bottom);
      WriteNode(arena, n, h, dataBottom, key, val);
      var taller := if h <= height then height else h;
      AwaitsNode(nodes, chain, height, n, node, taller, arena.Length);
      nodes := nodes[n := node];
      height := taller;
    }

    /** Finds where the node goes and links it there. */
    method LinkIn(n: nat, h: nat, key: Key)
      requires Holds(arena[..], nodes, dataBottom) && Awaits(nodes, chain, height, n) && dataBottom < U32
      requires nodes[n].height == h && nodes[n].key == key
      modifies arena, this`nodes, this`chain
      ensures Holds(arena[..], nodes, dataBottom) && SameShape(old(nodes), nodes)
      ensures Known(old(nodes), old(chain)) && IsNode(old(nodes), n) && chain == With(old(nodes), old(chain), n)
      ensures Inv(nodes, chain, height)
    {
      ghost var longer := With(nodes, chain, n);
      var prev, next := FindAll(key);
      Splice(n, h, prev, next);
      chain := longer;
    }

    /** Links the node written last, which none of the old ones leads to yet. */
    method Adopt(n: nat, h: nat, key: Key, val: seq<Byte>, ghost was: Nodes)
      requires NODE <= arena.Length && arena.Length + NODE < U32 && dataBottom <= arena.Length
      requires nodeTop % NODE == 0 && NODE <= nodeTop <= arena.Length && nodeCount == |chain|
      requires Holds(arena[..], nodes, dataBottom) && Awaits(nodes, chain, height, n) && NewIn(was, nodes, chain, n, nodeTop)
      requires nodes[n].height == h && nodes[n].key == key && nodes[n].val == val
      modifies arena, this`nodes, this`chain, this`nodeCount
      ensures Valid() && nodeCount == old(nodeCount) + 1
      ensures Entries() == WithEntry(EntriesOf(was, old(chain)), Entry(key, val))
    {
      ghost var base, before, e := nodes, chain, Entry(key, val);
      LinkIn(n, h, key);
      ghost var m := arena[..];
      assert Placed(m, nodes, chain, nodeTop, dataBottom) && |chain| == |before| + 1
          && EntriesOf(nodes, chain) == WithEntry(EntriesOf(was, before), e) by {
        Adopted(m, was, base, nodes, before, chain, n, nodeTop, dataBottom);
      }
      nodeCount := nodeCount + 1;
    }

    /** Inserts an entry where room was reserved for it. */
    method Place(h: nat, key: Key, val: seq<Byte>, n: nat, ghost bottom: nat)
      requires Site(arena[..], nodes, chain, n, dataBottom, bottom) && dataBottom + |key| + |val| == bottom
      requires Inv(nodes, chain, height) && 1 <= h <= MAX_HEIGHT && n + NODE == nodeTop <= arena.Length && nodeCount == |chain|
      modifies arena, this`nodes, this`height, this`chain, this`nodeCount
      ensures Valid() && nodeCount == old(nodeCount) + 1 && Known(old(nodes), old(chain))
      ensures Entries() == WithEntry(EntriesOf(old(nodes), old(chain)), Entry(key, val))
    {
      SiteNew(arena[..], nodes, chain, n, dataBottom, bottom, Node(h, key, val, NoNext(MAX_HEIGHT)));
      Enter(h, key, val, n, bottom);
      Adopt(n, h, key, val, old(nodes));
    }

    /** Inserts an entry under a node of the given height. It fits exactly when there is room
        between the slots and the data; when it does not, nothing that was there changes. */
    method Put(h: nat, key: Key, val: seq<Byte>) returns (ok: bool)
      requires Valid() && 1 <= h <= MAX_HEIGHT
      modifies this, arena
      ensures Valid() && ok == Room(arena.Length, old(nodeTop), old(dataBottom), |key| + |val|)
      ensures ok ==> Entries() == WithEntry(old(Entries()), Entry(key, val)) && nodeCount == old(nodeCount) + 1
      ensures !ok ==> Entries() == old(Entries()) && nodeCount == old(nodeCount)
    {
      var n, data;
      ok, n, data := Reserve(|key| + |val|);
      if ok {
        SiteReserved(arena[..], nodes, chain, n, data, old(dataBottom));
        Place(h, key, val, n, old(dataBottom));
      } else {
        StillPlaced(arena[..], nodes, chain, old(nodeTop), nodeTop, dataBottom);
      }
    }

    /** The entries in order, read along the lowest level. */
    method Drain() returns (es: seq<Entry>)
      requires Valid()
      ensures es == Entries()
    {
      es := [];
      FirstAlong(nodes, chain, height);
      var cur := NodeNext(HEAD, 0);
      ghost var j := 0;
      while cur != NIL
        invariant j <= |chain| && cur == At(chain, j) && es == EntriesOf(nodes, chain[..j])
        decreases |chain| - j
      {
        var e := ReadEntry(cur);
        NextAlong(nodes, chain, height, j);
        es := es + [e];
        cur := NodeNext(cur, 0);
        j := j + 1;
      }
      assert chain[..|chain|] == chain;
    }

    method ReadEntry(x: nat) returns (e: Entry)
      requires Holds(arena[..], nodes, dataBottom) && x in nodes
      ensures e == EntryOf(nodes, x)
    {
      assert NodeAt(arena[..], x) == nodes[x];
      e := Entry(KeyAt(arena[..], x), ValueAt(arena[..], x));
    }

    /** From the top level down to the last node below the target. */
    method DescendTo(target: Key) returns (x: nat)
      requires Holds(arena[..], nodes, dataBottom) && Inv(nodes, chain, height)
      ensures Arrived(nodes, chain, 0, target, x)
    {
      x := HEAD;
      var i := height;
      ghost var j := 0;
      while i > 0
        invariant 0 <= i <= height && (i > 0 ==> Stands(nodes, chain, i - 1, target, x, j))
        invariant i == 0 ==> Arrived(nodes, chain, 0, target, x)
      {
        i := i - 1;
        x, j := WalkLevel(i, target, x, j);
      }
    }

    /** The first node whose key is not below the target, found from the top level down. */
    method Seek(target: Key) returns (cur: nat)
      requires Valid()
      ensures cur == At(chain, Below(Keys(nodes, chain), target))
    {
      var x := DescendTo(target);
      FollowsArrived(nodes, chain, height, 0, target, x);
      cur := NodeNext(x, 0);
      LowestFollows(nodes, chain, height, target, cur);
      if cur != NIL {
        var key := NodeKey(cur);
        if Less(key, target) {
          cur := SeekLowerBoundLinear(target);
        }
      }
    }

    /** The same by walking the lowest level from the head. */
    method SeekLowerBoundLinear(target: Key) returns (cur: nat)
      requires Valid()
      ensures cur == At(chain, Below(Keys(nodes, chain), target))
    {
      ghost var x, j := HEAD, 0;
      StepAlong(nodes, chain, 0, target, x, j);
      cur := NodeNext(HEAD, 0);
      while cur != NIL
        invariant Stands(nodes, chain, 0, target, x, j) && x in nodes && cur == nodes[x].next[0]
        decreases Stop(nodes, chain, 0, target) - j, cur != NIL
      {
        StepAlong(nodes, chain, 0, target, x, j);
        var key := NodeKey(cur);
        if !Less(key, target) {
          break;
        }
        x, j := cur, j + 1;
        StepAlong(nodes, chain, 0, target, x, j);
        cur := NodeNext(cur, 0);
      }
      StepAlong(nodes, chain, 0, target, x, j);
      LowestFollows(nodes, chain, height, target, cur);
    }
  }

  // ---- Any number of insertions ----------------------------------------------------------------------

  /** The entries after a list of insertions, starting from none. */
  function PutAll(es: seq<Entry>): seq<Entry> {
    if es == [] then [] else WithEntry(PutAll(es[..|es| - 1]), es[|es| - 1])
  }

  lemma InsertedMultiset<T>(xs: seq<T>, p: nat, x: T)
    requires p <= |xs|
    ensures multiset(Insert(xs, p, x)) == multiset(xs) + multiset{x}
  {
    assert xs == xs[..p] + xs[p..];
  }

  lemma WithEntrySorted(es: seq<Entry>, e: Entry)
    requires Sorted(EntryKeys(es))
    ensures Sorted(EntryKeys(WithEntry(es, e))) && multiset(WithEntry(es, e)) == multiset(es) + multiset{e}
  {
    var keys, p := EntryKeys(es), Below(EntryKeys(es), e.key);
    InsertSorted(keys, e.key);
    InsertedMultiset(es, p, e);
    KeysOfInsert(es, p, e);
  }

  lemma KeysOfInsert(es: seq<Entry>, p: nat, e: Entry)
    requires p <= |es|
    ensures EntryKeys(Insert(es, p, e)) == Insert(EntryKeys(es), p, e.key)
  {
  }

  lemma LastOut<T>(xs: seq<T>, n: nat)
    requires n + 1 == |xs|
    ensures multiset(xs) == multiset(xs[..n]) + multiset{xs[n]}
  {
    assert xs == xs[..n] + [xs[n]];
  }

  /** They are in key order and are the entries that were put, each as often. */
  lemma {:induction false} PutAllSorts(es: seq<Entry>)
    ensures Sorted(EntryKeys(PutAll(es))) && multiset(PutAll(es)) == multiset(es)
  {
    if es != [] {
      var n := |es| - 1;
      PutAllSorts(es[..n]);
      WithEntrySorted(PutAll(es[..n]), es[n]);
      LastOut(es, n);
    }
  }

  lemma EntriesSorted(nodes: Nodes, chain: seq<nat>, height: nat)
    requires Inv(nodes, chain, height)
    ensures Sorted(EntryKeys(EntriesOf(nodes, chain)))
  {
    assert EntryKeys(EntriesOf(nodes, chain)) == Keys(nodes, chain);
  }
}
