/** How an event is laid out in the memtable: a composite key whose byte order is entity, then
    the three times, and a packed value. */
module Packing {
  import opened Bytes
  import opened SkipOrder

  datatype Event = Event(
    id: seq<Byte>, sysT: int, vs: int, ve: int, ast: int, h3: int, digest: seq<Byte>, payload: seq<Byte>)

  predicate EventOk(e: Event) {
    && |e.id| < U16 && |e.digest| == 32 && |e.payload| < U32 && IsU64(e.h3)
    && IsI64(e.sysT) && IsI64(e.vs) && IsI64(e.ve) && IsI64(e.ast)
  }

  /** The 40-byte key: 16 bytes of the entity's hash, then the times, most significant byte
      first and as unsigned words. */
  function KeyOf(hash: seq<Byte>, e: Event): (k: Key)
    requires EventOk(e)
    ensures |k| == |hash| + 24
  {
    hash + (BE(ToU64(e.sysT), 8) + (BE(ToU64(e.vs), 8) + BE(ToU64(e.ast), 8)))
  }

  function ValueOf(e: Event): (v: seq<Byte>)
    requires EventOk(e)
    ensures |v| == 54 + |e.id| + |e.payload|
  {
    LE(|e.id|, 2) + (e.id + (LE(e.h3, 8) + (LE(ToU64(e.ve), 8) + (e.digest + (LE(|e.payload|, 4) + e.payload)))))
  }

  /** A row as the flusher writes it. */
  datatype Row = Row(hash: seq<Byte>, event: Event)

  /** A key and a value long enough for the fields they announce. */
  predicate Readable(key: Key, val: seq<Byte>) {
    && |key| == 40 && |val| >= 2
    && var n := FromLE(val[..2]);
       && |val| >= 54 + n
       && |val| >= 54 + n + FromLE(val[50 + n..54 + n])
  }

  function Unpack(key: Key, val: seq<Byte>): Row
    requires Readable(key, val)
  {
    Widths();
    var n := FromLE(val[..2]);
    var h3, ve := FromLE(val[2 + n..10 + n]), FromLE(val[10 + n..18 + n]);
    var len := FromLE(val[50 + n..54 + n]);
    Row(key[..16], Event(val[2..2 + n],
      ToI64(FromBE(key[16..24])), ToI64(FromBE(key[24..32])), ToI64(ve), ToI64(FromBE(key[32..40])),
      h3, val[18 + n..50 + n], val[54 + n..54 + n + len]))
  }

  // ---- Round trip ----------------------------------------------------------------------------------

  lemma LEAt(n: nat, w: nat)
    requires (w == 2 && n < U16) || (w == 4 && n < U32) || (w == 8 && n < U64)
    ensures FromLE(LE(n, w)) == n
  {
    Widths();
    LERoundTrip(n, w);
  }

  lemma KeyFields(hash: seq<Byte>, a: seq<Byte>, b: seq<Byte>, c: seq<Byte>)
    requires |hash| == 16 && |a| == |b| == |c| == 8
    ensures var k := hash + (a + (b + c)); k[..16] == hash && k[16..24] == a && k[24..32] == b && k[32..40] == c
  {
  }

  lemma ValueFields(l: seq<Byte>, id: seq<Byte>, h: seq<Byte>, v: seq<Byte>, d: seq<Byte>, p: seq<Byte>, payload: seq<Byte>)
    requires |l| == 2 && |h| == |v| == 8 && |d| == 32 && |p| == 4
    ensures var s, n := l + (id + (h + (v + (d + (p + payload))))), |id|;
            && s[..2] == l && s[2..2 + n] == id && s[2 + n..10 + n] == h && s[10 + n..18 + n] == v
            && s[18 + n..50 + n] == d && s[50 + n..54 + n] == p && s[54 + n..54 + n + |payload|] == payload
  {
    var n := |id|;
    var s := l + (id + (h + (v + (d + (p + payload)))));
    var t := id + (h + (v + (d + (p + payload))));
    assert s[2..] == t;
    assert t[..n] == id && t[n..n + 8] == h && t[n + 8..n + 16] == v && t[n + 16..n + 48] == d;
    assert t[n + 48..n + 52] == p && t[n + 52..n + 52 + |payload|] == payload;
    Shift(s, t, 0, n);
    Shift(s, t, n, n + 8);
    Shift(s, t, n + 8, n + 16);
    Shift(s, t, n + 16, n + 48);
    Shift(s, t, n + 48, n + 52);
    Shift(s, t, n + 52, n + 52 + |payload|);
  }

  lemma Shift(s: seq<Byte>, t: seq<Byte>, a: nat, b: nat)
    requires |s| >= 2 && s[2..] == t && a <= b <= |t|
    ensures s[2 + a..2 + b] == t[a..b]
  {
  }

  /** What was packed is what is unpacked. */
  lemma PackRoundTrip(hash: seq<Byte>, e: Event)
    requires EventOk(e) && |hash| == 16
    ensures Readable(KeyOf(hash, e), ValueOf(e)) && Unpack(KeyOf(hash, e), ValueOf(e)) == Row(hash, e)
  {
    KeyFields(hash, BE(ToU64(e.sysT), 8), BE(ToU64(e.vs), 8), BE(ToU64(e.ast), 8));
    ValueFields(LE(|e.id|, 2), e.id, LE(e.h3, 8), LE(ToU64(e.ve), 8), e.digest, LE(|e.payload|, 4), e.payload);
    BE8(ToU64(e.sysT));
    BE8(ToU64(e.vs));
    BE8(ToU64(e.ast));
    LEAt(|e.id|, 2);
    LEAt(e.h3, 8);
    LEAt(ToU64(e.ve), 8);
    LEAt(|e.payload|, 4);
  }

  // ---- Byte order and number order ---------------------------------------------------------------

  lemma {:induction false} LessAfter(p: Key, a: Key, b: Key)
    ensures Less(p + a, p + b) <==> Less(a, b)
  {
    if p == [] {
      assert p + a == a && p + b == b;
    } else {
      LessAfter(p[1..], a, b);
      assert (p + a)[1..] == p[1..] + a && (p + b)[1..] == p[1..] + b;
    }
  }

  /** Words in big-endian form compare as numbers, whatever follows. */
  lemma {:induction false} WordsCompare(x: nat, y: nat, w: nat, u: Key, v: Key)
    requires x < y < Pow256(w)
    ensures Less(BE(x, w) + u, BE(y, w) + v)
  {
    if w > 0 {
      var x', y' := x / 256, y / 256;
      var s, t := [x % 256] + u, [y % 256] + v;
      assert BE(x, w) + u == BE(x', w - 1) + s && BE(y, w) + v == BE(y', w - 1) + t;
      if x' < y' {
        WordsCompare(x', y', w - 1, s, t);
      } else {
        LessAfter(BE(x', w - 1), s, t);
      }
    }
  }

  /** Prefixes of one length decide the order unless they are equal. */
  lemma {:induction false} PrefixesCompare(p: Key, q: Key, u: Key, v: Key)
    requires |p| == |q| && Less(p, q)
    ensures Less(p + u, q + v)
  {
    if p[0] == q[0] {
      PrefixesCompare(p[1..], q[1..], u, v);
      assert (p + u)[1..] == p[1..] + u && (q + v)[1..] == q[1..] + v;
    }
  }

  lemma {:induction false} WordForm(b: seq<Byte>)
    ensures BE(FromBE(b), |b|) == b
  {
    if b != [] {
      var n := |b| - 1;
      WordForm(b[..n]);
      assert FromBE(b) / 256 == FromBE(b[..n]) && FromBE(b) % 256 == b[n];
    }
  }

  lemma WordsLess(x: seq<Byte>, y: seq<Byte>, u: Key, v: Key)
    requires |x| == |y| && FromBE(x) < FromBE(y)
    ensures Less(x + u, y + v)
  {
    WordForm(x);
    WordForm(y);
    WordsCompare(FromBE(x), FromBE(y), |x|, u, v);
  }

  /** After a common start, the first word in which two keys in order differ is lower in the
      first. */
  lemma WordInOrder(a: Key, b: Key, i: nat)
    requires |a| == |b| && i + 8 <= |a| && a[..i] == b[..i] && !Less(b, a)
    ensures FromBE(a[i..i + 8]) <= FromBE(b[i..i + 8])
    ensures FromBE(a[i..i + 8]) == FromBE(b[i..i + 8]) ==> a[..i + 8] == b[..i + 8]
  {
    var p, x, y, u, v := a[..i], a[i..i + 8], b[i..i + 8], a[i + 8..], b[i + 8..];
    KeyParts(a, i);
    KeyParts(b, i);
    WordsLeq(p, x, y, u, v);
  }

  lemma KeyParts(a: Key, i: nat)
    requires i + 8 <= |a|
    ensures a == a[..i] + (a[i..i + 8] + a[i + 8..]) && a[..i + 8] == a[..i] + a[i..i + 8]
  {
  }

  lemma WordsLeq(p: Key, x: seq<Byte>, y: seq<Byte>, u: Key, v: Key)
    requires |x| == |y| && !Less(p + (y + v), p + (x + u))
    ensures FromBE(x) <= FromBE(y) && (FromBE(x) == FromBE(y) ==> x == y)
  {
    if FromBE(y) < FromBE(x) {
      WordsLess(y, x, v, u);
      LessAfter(p, y + v, x + u);
    }
    WordForm(x);
    WordForm(y);
  }

  /** The order of three words, the first that differs deciding. */
  predicate TimesLeq(s: int, v: int, t: int, s': int, v': int, t': int) {
    s < s' || (s == s' && (v < v' || (v == v' && t <= t')))
  }

  /** Of two keys in order, the first has the lower hash; under the same hash it has the lower
      system time, then the lower valid time, then the lower assertion time, as unsigned words. */
  lemma KeysInOrder(a: Key, b: Key)
    requires |a| == |b| == 40 && !Less(b, a)
    ensures !Less(b[..16], a[..16])
    ensures a[..16] == b[..16] ==>
              TimesLeq(FromBE(a[16..24]), FromBE(a[24..32]), FromBE(a[32..40]),
                       FromBE(b[16..24]), FromBE(b[24..32]), FromBE(b[32..40]))
  {
    assert a == a[..16] + a[16..] && b == b[..16] + b[16..];
    if Less(b[..16], a[..16]) {
      PrefixesCompare(b[..16], a[..16], b[16..], a[16..]);
    }
    if a[..16] == b[..16] {
      WordInOrder(a, b, 16);
      if a[..24] == b[..24] {
        WordInOrder(a, b, 24);
        if a[..32] == b[..32] {
          WordInOrder(a, b, 32);
        }
      }
    }
  }
}
