/** A skip list in one byte array: node slots of 64 bytes grow upward from the head at offset
    zero, keys and values are packed downward from the end. */
module SkipMemory {
  import opened Bytes
  import opened SkipLinks

  const NODE: nat := 64
  const NEXT: nat := 20

  /** The little-endian word at an offset. */
  function Word(m: seq<Byte>, off: nat): nat {
    if off + 4 <= |m| then FromLE(m[off..off + 4]) else 0
  }

  function Slice(m: seq<Byte>, off: nat, len: nat): seq<Byte> {
    if off + len <= |m| then m[off..off + len] else []
  }

  function NextAt(m: seq<Byte>, off: nat, i: nat): nat {
    Word(m, off + NEXT + 4 * i)
  }

  /** The first `k` links of a node. */
  function NextsAt(m: seq<Byte>, off: nat, k: nat): (next: seq<nat>)
    ensures |next| == k && forall i :: 0 <= i < k ==> next[i] == NextAt(m, off, i)
  {
    if k == 0 then [] else NextsAt(m, off, k - 1) + [NextAt(m, off, k - 1)]
  }

  function KeyAt(m: seq<Byte>, off: nat): seq<Byte> {
    if off == HEAD then [] else Slice(m, Word(m, off + 4), Word(m, off + 12))
  }

  function ValueAt(m: seq<Byte>, off: nat): seq<Byte> {
    if off == HEAD then [] else Slice(m, Word(m, off + 8), Word(m, off + 16))
  }

  function NodeAt(m: seq<Byte>, off: nat): Node {
    Node(Word(m, off), KeyAt(m, off), ValueAt(m, off), NextsAt(m, off, MAX_HEIGHT))
  }

  /** The slot and the data of a node lie where the allocator puts them, on either side of
      `bottom`. */
  predicate InPlace(m: seq<Byte>, off: nat, bottom: nat) {
    && off % NODE == 0 && off + NODE <= bottom <= |m|
    && (off != HEAD ==>
          && bottom <= Word(m, off + 4) && Word(m, off + 4) + Word(m, off + 12) <= |m|
          && bottom <= Word(m, off + 8) && Word(m, off + 8) + Word(m, off + 16) <= |m|)
  }

  predicate Holds(m: seq<Byte>, nodes: Nodes, bottom: nat) {
    forall off {:trigger NodeAt(m, off)} {:trigger InPlace(m, off, bottom)} ::
      off in nodes ==> InPlace(m, off, bottom) && NodeAt(m, off) == nodes[off]
  }

  // ---- What a write leaves alone -----------------------------------------------------------------

  lemma SubSlice(t: seq<Byte>, a: nat, b: nat, i: nat, j: nat)
    requires a <= b <= |t| && i <= j <= b - a
    ensures t[a..b][i..j] == t[a + i..a + j]
  {
    var x, y := t[a..b][i..j], t[a + i..a + j];
    assert |x| == |y|;
    assert forall k :: 0 <= k < |x| ==> x[k] == t[a..b][i + k] == t[a + i + k] == y[k];
  }

  lemma PatchSlice(m: seq<Byte>, at: nat, src: seq<Byte>, off: nat, len: nat)
    requires at + |src| <= |m| && off + len <= |m| && (at + |src| <= off || off + len <= at)
    ensures Patch(m, at, src)[off..off + len] == m[off..off + len]
  {
  }

  lemma WordKept(m: seq<Byte>, at: nat, src: seq<Byte>, off: nat)
    requires at + |src| <= |m| && off + 4 <= |m| && (at + |src| <= off || off + 4 <= at)
    ensures Word(Patch(m, at, src), off) == Word(m, off)
  {
    PatchSlice(m, at, src, off, 4);
  }

  lemma SliceKept(m: seq<Byte>, at: nat, src: seq<Byte>, off: nat, len: nat)
    requires at + |src| <= |m| && off + len <= |m| && (at + |src| <= off || off + len <= at)
    ensures Slice(Patch(m, at, src), off, len) == Slice(m, off, len)
  {
    PatchSlice(m, at, src, off, len);
  }

  lemma WordSet(m: seq<Byte>, at: nat, v: nat)
    requires at + 4 <= |m| && v < U32
    ensures Word(Patch(m, at, LE(v, 4)), at) == v
  {
    assert Patch(m, at, LE(v, 4))[at..at + 4] == LE(v, 4);
    Widths();
    LERoundTrip(v, 4);
  }

  /** A write outside the slot and the data of a node leaves the node. */
  lemma NodeKept(m: seq<Byte>, at: nat, src: seq<Byte>, off: nat, bottom: nat)
    requires at + |src| <= |m| && InPlace(m, off, bottom)
    requires at + |src| <= off || (off + NODE <= at && at + |src| <= bottom)
    ensures InPlace(Patch(m, at, src), off, bottom) && NodeAt(Patch(m, at, src), off) == NodeAt(m, off)
  {
    var t := Patch(m, at, src);
    FieldsKept(m, at, src, off);
    if off != HEAD {
      SliceKept(m, at, src, Word(m, off + 4), Word(m, off + 12));
      SliceKept(m, at, src, Word(m, off + 8), Word(m, off + 16));
    }
    assert NextsAt(t, off, MAX_HEIGHT) == NextsAt(m, off, MAX_HEIGHT);
  }

  lemma FieldsKept(m: seq<Byte>, at: nat, src: seq<Byte>, off: nat)
    requires at + |src| <= |m| && off + NODE <= |m| && (at + |src| <= off || off + NODE <= at)
    ensures var t := Patch(m, at, src);
            && Word(t, off) == Word(m, off) && Word(t, off + 4) == Word(m, off + 4) && Word(t, off + 8) == Word(m, off + 8)
            && Word(t, off + 12) == Word(m, off + 12) && Word(t, off + 16) == Word(m, off + 16)
            && forall i :: 0 <= i < MAX_HEIGHT ==> NextAt(t, off, i) == NextAt(m, off, i)
  {
    WordKept(m, at, src, off);
    WordKept(m, at, src, off + 4);
    WordKept(m, at, src, off + 8);
    WordKept(m, at, src, off + 12);
    WordKept(m, at, src, off + 16);
    forall i | 0 <= i < MAX_HEIGHT ensures NextAt(Patch(m, at, src), off, i) == NextAt(m, off, i) {
      WordKept(m, at, src, off + NEXT + 4 * i);
    }
  }

  /** The fields before the links, and the data they lead to. */
  lemma HeaderKept(m: seq<Byte>, at: nat, src: seq<Byte>, off: nat, bottom: nat)
    requires at + |src| <= |m| && InPlace(m, off, bottom) && off + NEXT <= at && at + |src| <= off + NODE
    ensures var t := Patch(m, at, src);
            && InPlace(t, off, bottom) && Word(t, off) == Word(m, off)
            && KeyAt(t, off) == KeyAt(m, off) && ValueAt(t, off) == ValueAt(m, off)
  {
    WordKept(m, at, src, off);
    WordKept(m, at, src, off + 4);
    WordKept(m, at, src, off + 8);
    WordKept(m, at, src, off + 12);
    WordKept(m, at, src, off + 16);
    if off != HEAD {
      SliceKept(m, at, src, Word(m, off + 4), Word(m, off + 12));
      SliceKept(m, at, src, Word(m, off + 8), Word(m, off + 16));
    }
  }

  lemma NextsSet(m: seq<Byte>, off: nat, i: nat, v: nat)
    requires off + NODE <= |m| && i < MAX_HEIGHT && v < U32
    ensures NextsAt(Patch(m, off + NEXT + 4 * i, LE(v, 4)), off, MAX_HEIGHT) == NextsAt(m, off, MAX_HEIGHT)[i := v]
  {
    var at, src := off + NEXT + 4 * i, LE(v, 4);
    forall l | 0 <= l < MAX_HEIGHT ensures NextAt(Patch(m, at, src), off, l) == if l == i then v else NextAt(m, off, l) {
      if l == i {
        WordSet(m, at, v);
      } else {
        WordKept(m, at, src, off + NEXT + 4 * l);
      }
    }
  }

  /** Setting one link changes that link of the node and nothing else. */
  lemma NextSet(m: seq<Byte>, off: nat, i: nat, v: nat, bottom: nat)
    requires InPlace(m, off, bottom) && i < MAX_HEIGHT && v < U32
    ensures var t := Patch(m, off + NEXT + 4 * i, LE(v, 4));
            && InPlace(t, off, bottom)
            && NodeAt(t, off) == NodeAt(m, off).(next := NodeAt(m, off).next[i := v])
  {
    HeaderKept(m, off + NEXT + 4 * i, LE(v, 4), off, bottom);
    NextsSet(m, off, i, v);
  }

  lemma SlotsApart(a: nat, b: nat)
    requires a % NODE == 0 && b % NODE == 0 && a != b
    ensures a + NODE <= b || b + NODE <= a
  {
  }

  lemma OtherKept(m: seq<Byte>, off: nat, x: nat, i: nat, v: nat, bottom: nat)
    requires InPlace(m, off, bottom) && InPlace(m, x, bottom) && off != x && i < MAX_HEIGHT
    ensures var t := Patch(m, x + NEXT + 4 * i, LE(v, 4)); InPlace(t, off, bottom) && NodeAt(t, off) == NodeAt(m, off)
  {
    SlotsApart(off, x);
    NodeKept(m, x + NEXT + 4 * i, LE(v, 4), off, bottom);
  }

  /** Setting a link of one node is that link in the whole list. */
  lemma LinkHolds(m: seq<Byte>, nodes: Nodes, bottom: nat, x: nat, i: nat, v: nat)
    requires Holds(m, nodes, bottom) && Wide(nodes) && x in nodes && i < MAX_HEIGHT && v < U32
    ensures x + NEXT + 4 * i + 4 <= |m| && Holds(Patch(m, x + NEXT + 4 * i, LE(v, 4)), Link(nodes, x, i, v), bottom)
  {
    assert InPlace(m, x, bottom);
    var t := Patch(m, x + NEXT + 4 * i, LE(v, 4));
    forall off | off in nodes ensures InPlace(t, off, bottom) && NodeAt(t, off) == Link(nodes, x, i, v)[off] {
      if off == x {
        NextSet(m, x, i, v, bottom);
      } else {
        OtherKept(m, off, x, i, v, bottom);
      }
    }
  }

  // ---- A new node ------------------------------------------------------------------------------------

  /** `k` links to nothing. */
  function Nils(k: nat): (b: seq<Byte>)
    ensures |b| == 4 * k
  {
    if k == 0 then [] else Nils(k - 1) + LE(NIL, 4)
  }

  function NoNext(k: nat): (next: seq<nat>)
    ensures |next| == k && forall i :: 0 <= i < k ==> next[i] == NIL
  {
    if k == 0 then [] else NoNext(k - 1) + [NIL]
  }

  /** The slot of a new node. */
  function Slot(height: nat, data: nat, keyLen: nat, valLen: nat): (b: seq<Byte>)
    ensures |b| == NODE
  {
    LE(height, 4) + LE(data, 4) + LE(data + keyLen, 4) + LE(keyLen, 4) + LE(valLen, 4) + Nils(MAX_HEIGHT)
  }

  lemma {:induction false} NilsAt(k: nat, i: nat)
    requires i < k
    ensures Nils(k)[4 * i..4 * i + 4] == LE(NIL, 4)
  {
    if i < k - 1 {
      NilsAt(k - 1, i);
    }
  }

  lemma SlotFields(height: nat, data: nat, keyLen: nat, valLen: nat)
    ensures var b := Slot(height, data, keyLen, valLen);
            && b[0..4] == LE(height, 4) && b[4..8] == LE(data, 4) && b[8..12] == LE(data + keyLen, 4)
            && b[12..16] == LE(keyLen, 4) && b[16..20] == LE(valLen, 4) && b[20..] == Nils(MAX_HEIGHT)
  {
    FiveFields(LE(height, 4), LE(data, 4), LE(data + keyLen, 4), LE(keyLen, 4), LE(valLen, 4), Nils(MAX_HEIGHT));
  }

  lemma FiveFields(a: seq<Byte>, b: seq<Byte>, c: seq<Byte>, d: seq<Byte>, e: seq<Byte>, rest: seq<Byte>)
    requires |a| == |b| == |c| == |d| == |e| == 4
    ensures var s := a + b + c + d + e + rest;
            s[0..4] == a && s[4..8] == b && s[8..12] == c && s[12..16] == d && s[16..20] == e && s[20..] == rest
  {
  }

  lemma SlotNext(height: nat, data: nat, keyLen: nat, valLen: nat, i: nat)
    requires i < MAX_HEIGHT
    ensures Slot(height, data, keyLen, valLen)[NEXT + 4 * i..NEXT + 4 * i + 4] == LE(NIL, 4)
  {
    var b := Slot(height, data, keyLen, valLen);
    SlotFields(height, data, keyLen, valLen);
    NilsAt(MAX_HEIGHT, i);
    SubSlice(b, 20, NODE, 4 * i, 4 * i + 4);
    assert b[20..NODE] == b[20..];
  }

  /** `b` stands at `at`. */
  predicate StandsAt(t: seq<Byte>, at: nat, b: seq<Byte>) {
    at + |b| <= |t| && t[at..at + |b|] == b
  }

  lemma WordWithin(t: seq<Byte>, at: nat, b: seq<Byte>, j: nat, v: nat)
    requires StandsAt(t, at, b) && j + 4 <= |b| && b[j..j + 4] == LE(v, 4) && v < U32
    ensures Word(t, at + j) == v
  {
    SubSlice(t, at, at + |b|, j, j + 4);
    Widths();
    LERoundTrip(v, 4);
  }

  predicate SlotOf(b: seq<Byte>, height: nat, data: nat, keyLen: nat, valLen: nat) {
    && |b| == NODE
    && b[0..4] == LE(height, 4) && b[4..8] == LE(data, 4) && b[8..12] == LE(data + keyLen, 4)
    && b[12..16] == LE(keyLen, 4) && b[16..20] == LE(valLen, 4)
    && forall i :: 0 <= i < MAX_HEIGHT ==> StandsAt(b, NEXT + 4 * i, LE(NIL, 4))
  }

  lemma SlotIsSlot(height: nat, data: nat, keyLen: nat, valLen: nat)
    ensures SlotOf(Slot(height, data, keyLen, valLen), height, data, keyLen, valLen)
  {
    SlotFields(height, data, keyLen, valLen);
    forall i | 0 <= i < MAX_HEIGHT ensures StandsAt(Slot(height, data, keyLen, valLen), NEXT + 4 * i, LE(NIL, 4)) {
      SlotNext(height, data, keyLen, valLen, i);
    }
  }

  /** The fields of a slot. */
  lemma SlotWords(t: seq<Byte>, n: nat, b: seq<Byte>, height: nat, data: nat, keyLen: nat, valLen: nat)
    requires StandsAt(t, n, b) && SlotOf(b, height, data, keyLen, valLen) && height < U32 && data + keyLen + valLen < U32
    ensures Word(t, n) == height && Word(t, n + 4) == data && Word(t, n + 8) == data + keyLen
    ensures Word(t, n + 12) == keyLen && Word(t, n + 16) == valLen
  {
    WordWithin(t, n, b, 0, height);
    WordWithin(t, n, b, 4, data);
    WordWithin(t, n, b, 8, data + keyLen);
    WordWithin(t, n, b, 12, keyLen);
    WordWithin(t, n, b, 16, valLen);
  }

  lemma SlotUnlinked(t: seq<Byte>, n: nat, b: seq<Byte>, height: nat, data: nat, keyLen: nat, valLen: nat)
    requires StandsAt(t, n, b) && SlotOf(b, height, data, keyLen, valLen)
    ensures NextsAt(t, n, MAX_HEIGHT) == NoNext(MAX_HEIGHT)
  {
    forall i | 0 <= i < MAX_HEIGHT ensures NextAt(t, n, i) == NIL {
      assert StandsAt(b, NEXT + 4 * i, LE(NIL, 4));
      WordWithin(t, n, b, NEXT + 4 * i, NIL);
    }
  }

  /** The bytes with a new node's slot and data written. */
  function WithNode(m: seq<Byte>, n: nat, height: nat, data: nat, key: seq<Byte>, val: seq<Byte>): seq<Byte>
    requires n + NODE <= data && data + |key| + |val| <= |m|
  {
    Patch(Patch(m, n, Slot(height, data, |key|, |val|)), data, key + val)
  }

  lemma NewNodeAt(m: seq<Byte>, n: nat, height: nat, data: nat, key: seq<Byte>, val: seq<Byte>)
    requires n != HEAD && n % NODE == 0 && n + NODE <= data && data + |key| + |val| <= |m| < U32 && height < U32
    ensures InPlace(WithNode(m, n, height, data, key, val), n, data)
    ensures NodeAt(WithNode(m, n, height, data, key, val), n) == Node(height, key, val, NoNext(MAX_HEIGHT))
  {
    var b := Slot(height, data, |key|, |val|);
    var s := Patch(m, n, b);
    var t := Patch(s, data, key + val);
    SlotIsSlot(height, data, |key|, |val|);
    SlotStays(m, n, b, data, key + val);
    SlotWords(t, n, b, height, data, |key|, |val|);
    SlotUnlinked(t, n, b, height, data, |key|, |val|);
    DataStands(s, data, key, val);
    NodeFrom(t, n, height, data, key, val);
  }

  lemma SlotStays(m: seq<Byte>, n: nat, b: seq<Byte>, data: nat, src: seq<Byte>)
    requires |b| == NODE && n + NODE <= data && data + |src| <= |m|
    ensures StandsAt(Patch(Patch(m, n, b), data, src), n, b)
  {
    assert StandsAt(Patch(m, n, b), n, b);
    PatchSlice(Patch(m, n, b), data, src, n, NODE);
  }

  lemma DataStands(s: seq<Byte>, data: nat, key: seq<Byte>, val: seq<Byte>)
    requires data + |key| + |val| <= |s|
    ensures StandsAt(Patch(s, data, key + val), data, key) && StandsAt(Patch(s, data, key + val), data + |key|, val)
  {
    var t := Patch(s, data, key + val);
    assert t[data..data + |key|] == key;
    assert t[data + |key|..data + |key| + |val|] == val;
  }

  lemma NodeFrom(t: seq<Byte>, n: nat, height: nat, data: nat, key: seq<Byte>, val: seq<Byte>)
    requires n != HEAD && n % NODE == 0 && n + NODE <= data && |t| < U32 && height < U32
    requires Word(t, n) == height && Word(t, n + 4) == data && Word(t, n + 8) == data + |key|
    requires Word(t, n + 12) == |key| && Word(t, n + 16) == |val| && NextsAt(t, n, MAX_HEIGHT) == NoNext(MAX_HEIGHT)
    requires StandsAt(t, data, key) && StandsAt(t, data + |key|, val)
    ensures InPlace(t, n, data) && NodeAt(t, n) == Node(height, key, val, NoNext(MAX_HEIGHT))
  {
  }

  lemma OldNodeAt(m: seq<Byte>, n: nat, height: nat, data: nat, key: seq<Byte>, val: seq<Byte>, off: nat, bottom: nat)
    requires n % NODE == 0 && n + NODE <= data && data + |key| + |val| == bottom && InPlace(m, off, bottom)
    requires off < n
    ensures InPlace(WithNode(m, n, height, data, key, val), off, data)
    ensures NodeAt(WithNode(m, n, height, data, key, val), off) == NodeAt(m, off)
  {
    SlotsApart(off, n);
    NodeKept(m, n, Slot(height, data, |key|, |val|), off, bottom);
    NodeKept(Patch(m, n, Slot(height, data, |key|, |val|)), data, key + val, off, bottom);
  }

  /** The new node joins the nodes already held, none of which changes. */
  lemma NodeJoins(m: seq<Byte>, nodes: Nodes, n: nat, height: nat, data: nat, key: seq<Byte>, val: seq<Byte>, bottom: nat)
    requires n != HEAD && n % NODE == 0 && n + NODE <= data && data + |key| + |val| == bottom <= |m| < U32 && height < U32
    requires Holds(m, nodes, bottom) && forall off :: off in nodes ==> off < n
    ensures Holds(WithNode(m, n, height, data, key, val), nodes[n := Node(height, key, val, NoNext(MAX_HEIGHT))], data)
  {
    NewNodeAt(m, n, height, data, key, val);
    forall off | off in nodes
      ensures InPlace(WithNode(m, n, height, data, key, val), off, data)
      ensures NodeAt(WithNode(m, n, height, data, key, val), off) == NodeAt(m, off)
    {
      OldNodeAt(m, n, height, data, key, val, off, bottom);
    }
  }
}
