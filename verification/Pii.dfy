/** Masking of twelve-digit runs: find the first, count them to size the buffer, assemble. */
module Pii {
  import opened Basics
  import opened Bytes

  const RUN: nat := 12
  const HEX: nat := 16

  /** "PII_REDACTED" and an underscore. */
  const MARKER: seq<Byte> := [80, 73, 73, 95, 82, 69, 68, 65, 67, 84, 69, 68]
  const UNDERSCORE: Byte := 95
  const REPLACEMENT: nat := 29

  /** The 64-bit digest of a run. */
  type Digest = seq<Byte> -> nat

  predicate Digit(b: Byte) {
    (b + 256 - 48) % 256 < 10
  }

  predicate RunAt(s: seq<Byte>, i: nat) {
    i + RUN <= |s| && forall k :: i <= k < i + RUN ==> Digit(s[k])
  }

  /** No run starts before `n`. */
  predicate NoRunBefore(s: seq<Byte>, n: nat) {
    forall i :: 0 <= i < n ==> !RunAt(s, i)
  }

  function Pow16(k: nat): (p: nat)
    ensures p > 0
  {
    if k == 0 then 1 else 16 * Pow16(k - 1)
  }

  function HexAt(v: nat, k: nat): Byte
    requires k < HEX
  {
    HexDigit(v / Pow16(HEX - 1 - k) % 16)
  }

  function HexPrefix(v: nat, k: nat): (b: seq<Byte>)
    requires k <= HEX
    ensures |b| == k && forall i :: 0 <= i < k ==> b[i] == HexAt(v, i)
  {
    if k == 0 then [] else HexPrefix(v, k - 1) + [HexAt(v, k - 1)]
  }

  function DigitValue(c: Byte): int {
    if c < 58 then c - 48 else c - 87
  }

  /** The number that hexadecimal digits spell. */
  function HexValue(b: seq<Byte>): int {
    if b == [] then 0 else 16 * HexValue(b[..|b| - 1]) + DigitValue(b[|b| - 1])
  }

  /** The number without its last `n` hexadecimal digits. */
  function Drop(v: nat, n: nat): nat {
    if n == 0 then v else Drop(v, n - 1) / 16
  }

  /** Dropping digits is dividing by a power of sixteen. */
  lemma {:induction false} DropIs(v: nat, n: nat)
    ensures Drop(v, n) == v / Pow16(n)
  {
    if n > 0 {
      DropIs(v, n - 1);
      DivideAgain(v, Pow16(n - 1));
    }
  }

  lemma DivideAgain(v: nat, p: nat)
    requires p > 0
    ensures v / p / 16 == v / (16 * p)
  {
    var a := v / p;
    var q := a / 16;
    Between(v, p, a);
    assert 16 * q <= a < 16 * q + 16;
    Scaled(p, 16 * q, a);
    Scaled(p, a + 1, 16 * q + 16);
    assert p * (16 * q) == (16 * p) * q && p * (16 * q + 16) == (16 * p) * (q + 1);
    QuotientIs(v, 16 * p, q);
  }

  lemma Between(v: nat, p: nat, a: nat)
    requires p > 0 && a == v / p
    ensures p * a <= v < p * (a + 1)
  {
  }

  lemma Scaled(p: nat, x: int, y: int)
    requires x <= y
    ensures p * x <= p * y
  {
  }

  lemma QuotientIs(v: nat, n: nat, q: nat)
    requires n > 0 && n * q <= v < n * (q + 1)
    ensures v / n == q
  {
    var x := v / n;
    Between(v, n, x);
    if x < q {
      Scaled(n, x + 1, q);
    } else if x > q {
      Scaled(n, q + 1, x);
    }
  }

  /** What stands beyond the first `k` digits, moved up by them. */
  function Carry(k: nat, c: nat): nat {
    if k == 0 then c else 16 * Carry(k - 1, c)
  }

  lemma {:induction false} DigitsSpell(v: nat, k: nat)
    requires k <= HEX
    ensures HexValue(HexPrefix(v, k)) == Drop(v, HEX - k) - Carry(k, Drop(v, HEX))
  {
    if k > 0 {
      DigitsSpell(v, k - 1);
      var before, last := HexPrefix(v, k - 1), HexAt(v, k - 1);
      var d: int, c: int := Drop(v, HEX - k), Carry(k - 1, Drop(v, HEX));
      assert DigitValue(last) == d % 16 by { LastIs(v, k); }
      assert HexValue(before) == d / 16 - c by { DropNext(v, HEX - k); }
      SpellNext(before, last);
      NextValue(d, c);
    }
  }

  lemma DropNext(v: nat, n: nat)
    ensures Drop(v, n + 1) == Drop(v, n) / 16
  {
  }

  lemma NextValue(d: int, c: int)
    ensures 16 * (d / 16 - c) + d % 16 == d - 16 * c
  {
  }

  lemma LastIs(v: nat, k: nat)
    requires 0 < k <= HEX
    ensures DigitValue(HexAt(v, k - 1)) == Drop(v, HEX - k) % 16
  {
    DropIs(v, HEX - k);
  }

  lemma SpellNext(b: seq<Byte>, c: Byte)
    ensures HexValue(b + [c]) == 16 * HexValue(b) + DigitValue(c)
  {
    assert (b + [c])[..|b|] == b;
  }

  lemma Pow16Of16()
    ensures Pow16(16) == U64
  {
    assert Pow16(4) == 0x1_0000;
    assert Pow16(8) == 0x1_0000_0000;
    assert Pow16(12) == 0x1_0000_0000_0000;
  }

  lemma {:induction false} CarryIs(k: nat, c: nat)
    ensures Carry(k, c) == Pow16(k) * c
  {
    if k > 0 {
      CarryIs(k - 1, c);
    }
  }

  /** The sixteen digits spell the low 64 bits, most significant first. */
  lemma HexSpells(v: nat)
    ensures HexValue(HexPrefix(v, HEX)) == v % U64
  {
    DigitsSpell(v, HEX);
    DropIs(v, HEX);
    Pow16Of16();
    CarryIs(HEX, v / U64);
  }

  function Replacement(digest: Digest, run: seq<Byte>): (b: seq<Byte>)
    ensures |b| == REPLACEMENT
  {
    MARKER + [UNDERSCORE] + HexPrefix(digest(run), HEX)
  }

  /** The greedy rewriting from `i` on: a run where the cursor stands is replaced and
      skipped, any other byte is copied. */
  function MaskFrom(digest: Digest, s: seq<Byte>, i: nat): (out: seq<Byte>)
    requires i <= |s|
    decreases |s| - i
  {
    if i + RUN > |s| then s[i..]
    else if RunAt(s, i) then Replacement(digest, s[i..i + RUN]) + MaskFrom(digest, s, i + RUN)
    else [s[i]] + MaskFrom(digest, s, i + 1)
  }

  function Mask(digest: Digest, s: seq<Byte>): seq<Byte> {
    MaskFrom(digest, s, 0)
  }

  /** How many runs that rewriting replaces. */
  function Runs(s: seq<Byte>, i: nat): nat
    requires i <= |s|
    decreases |s| - i
  {
    if i + RUN > |s| then 0 else if RunAt(s, i) then 1 + Runs(s, i + RUN) else Runs(s, i + 1)
  }

  // ---- About the rewriting -----------------------------------------------------------------------

  lemma {:induction false} MaskLength(digest: Digest, s: seq<Byte>, i: nat)
    requires i <= |s|
    ensures |MaskFrom(digest, s, i)| == |s| - i + 17 * Runs(s, i)
    decreases |s| - i
  {
    if i + RUN <= |s| {
      MaskLength(digest, s, if RunAt(s, i) then i + RUN else i + 1);
    }
  }

  lemma {:induction false} NoRunsLeft(digest: Digest, s: seq<Byte>, i: nat)
    requires i <= |s| && Runs(s, i) == 0
    ensures MaskFrom(digest, s, i) == s[i..]
    decreases |s| - i
  {
    if i + RUN <= |s| {
      NoRunsLeft(digest, s, i + 1);
      assert s[i..] == [s[i]] + s[i + 1..];
    }
  }

  /** Runs are counted from wherever none has been passed. */
  lemma {:induction false} RunsFrom(s: seq<Byte>, i: nat, j: nat)
    requires i <= j <= |s| && forall k :: i <= k < j ==> !RunAt(s, k)
    ensures Runs(s, i) == Runs(s, j)
    decreases j - i
  {
    if i < j {
      RunsFrom(s, i + 1, j);
    }
  }

  lemma {:induction false} RunCounted(s: seq<Byte>, i: nat)
    requires RunAt(s, i)
    ensures Runs(s, 0) > 0
  {
    var first := 0;
    while first < i && !RunAt(s, first)
      invariant first <= i && forall k :: 0 <= k < first ==> !RunAt(s, k)
    {
      first := first + 1;
    }
    RunsFrom(s, 0, first);
  }

  /** The result is the input exactly when there is no run. */
  lemma MaskUnchangedIff(digest: Digest, s: seq<Byte>)
    ensures Mask(digest, s) == s <==> NoRunBefore(s, |s|)
  {
    MaskLength(digest, s, 0);
    if NoRunBefore(s, |s|) {
      RunsFrom(s, 0, |s|);
      NoRunsLeft(digest, s, 0);
    } else {
      var i :| 0 <= i < |s| && RunAt(s, i);
      RunCounted(s, i);
    }
  }

  /** The result is literal segments with a replacement between each two. */
  datatype Piece = Literal(bytes: seq<Byte>) | Masked(run: seq<Byte>)

  function Flat(digest: Digest, pieces: seq<Piece>): seq<Byte> {
    if pieces == [] then []
    else (match pieces[0] case Literal(b) => b case Masked(r) => Replacement(digest, r)) + Flat(digest, pieces[1..])
  }

  function Original(pieces: seq<Piece>): seq<Byte> {
    if pieces == [] then []
    else (match pieces[0] case Literal(b) => b case Masked(r) => r) + Original(pieces[1..])
  }

  predicate Alternates(pieces: seq<Piece>) {
    && (forall i :: 0 <= i < |pieces| ==> pieces[i].Literal? ==> NoRunBefore(pieces[i].bytes, |pieces[i].bytes|))
    && (forall i :: 0 <= i < |pieces| ==> pieces[i].Masked? ==> |pieces[i].run| == RUN && RunAt(pieces[i].run, 0))
    && (forall i :: 0 <= i < |pieces| - 1 ==> pieces[i].Literal? ==> pieces[i + 1].Masked?)
  }

  /** The input cut from `i` on, the bytes from `lit` to `i` already in the current literal. */
  function PiecesFrom(s: seq<Byte>, lit: nat, i: nat): seq<Piece>
    requires lit <= i <= |s|
    decreases |s| - i
  {
    if i + RUN > |s| then [Literal(s[lit..])]
    else if RunAt(s, i) then [Literal(s[lit..i]), Masked(s[i..i + RUN])] + PiecesFrom(s, i + RUN, i + RUN)
    else PiecesFrom(s, lit, i + 1)
  }

  lemma PiecesTwo(digest: Digest, lit: seq<Byte>, run: seq<Byte>, rest: seq<Piece>)
    ensures Flat(digest, [Literal(lit), Masked(run)] + rest) == lit + (Replacement(digest, run) + Flat(digest, rest))
    ensures Original([Literal(lit), Masked(run)] + rest) == lit + (run + Original(rest))
  {
    var ps := [Literal(lit), Masked(run)] + rest;
    assert ps[1..] == [Masked(run)] + rest && ps[1..][1..] == rest;
  }

  lemma PiecesOne(digest: Digest, lit: seq<Byte>)
    ensures Flat(digest, [Literal(lit)]) == lit && Original([Literal(lit)]) == lit
  {
    var none: seq<Piece> := [];
    assert [Literal(lit)][1..] == none && lit + [] == lit;
  }

  lemma {:induction false} PiecesMask(digest: Digest, s: seq<Byte>, lit: nat, i: nat)
    requires lit <= i <= |s|
    ensures Flat(digest, PiecesFrom(s, lit, i)) == s[lit..i] + MaskFrom(digest, s, i)
    decreases |s| - i
  {
    if i + RUN > |s| {
      PiecesLast(digest, s, lit, i);
    } else if RunAt(s, i) {
      PiecesMask(digest, s, i + RUN, i + RUN);
      PiecesRun(digest, s, lit, i, PiecesFrom(s, i + RUN, i + RUN), MaskFrom(digest, s, i + RUN));
    } else {
      PiecesMask(digest, s, lit, i + 1);
      PiecesPlain(digest, s, lit, i, PiecesFrom(s, lit, i + 1), MaskFrom(digest, s, i + 1));
    }
  }

  lemma PiecesLast(digest: Digest, s: seq<Byte>, lit: nat, i: nat)
    requires lit <= i <= |s| < i + RUN
    ensures Flat(digest, PiecesFrom(s, lit, i)) == s[lit..i] + MaskFrom(digest, s, i)
  {
    PiecesOne(digest, s[lit..]);
    assert s[lit..] == s[lit..i] + s[i..];
  }

  lemma PiecesPlain(digest: Digest, s: seq<Byte>, lit: nat, i: nat, rest: seq<Piece>, masked: seq<Byte>)
    requires lit <= i && i + RUN <= |s| && !RunAt(s, i)
    requires rest == PiecesFrom(s, lit, i + 1) && masked == MaskFrom(digest, s, i + 1) && Flat(digest, rest) == s[lit..i + 1] + masked
    ensures Flat(digest, PiecesFrom(s, lit, i)) == s[lit..i] + MaskFrom(digest, s, i)
  {
    assert PiecesFrom(s, lit, i) == rest && MaskFrom(digest, s, i) == [s[i]] + masked;
    MoveByte(s[lit..i + 1], s[lit..i], s[i], masked);
  }

  lemma PiecesRun(digest: Digest, s: seq<Byte>, lit: nat, i: nat, rest: seq<Piece>, masked: seq<Byte>)
    requires lit <= i && RunAt(s, i) && rest == PiecesFrom(s, i + RUN, i + RUN) && masked == MaskFrom(digest, s, i + RUN)
    requires Flat(digest, rest) == s[i + RUN..i + RUN] + masked
    ensures Flat(digest, PiecesFrom(s, lit, i)) == s[lit..i] + MaskFrom(digest, s, i)
  {
    assert PiecesFrom(s, lit, i) == [Literal(s[lit..i]), Masked(s[i..i + RUN])] + rest;
    RunCase(digest, s[lit..i], s[i..i + RUN], rest, s[i + RUN..i + RUN], masked);
  }

  lemma RunCase(digest: Digest, lit: seq<Byte>, run: seq<Byte>, rest: seq<Piece>, none: seq<Byte>, masked: seq<Byte>)
    requires Flat(digest, rest) == none + masked && none == []
    ensures Flat(digest, [Literal(lit), Masked(run)] + rest) == lit + (Replacement(digest, run) + masked)
  {
    PiecesTwo(digest, lit, run, rest);
    assert none + masked == masked;
  }

  lemma MoveByte(longer: seq<Byte>, a: seq<Byte>, x: Byte, b: seq<Byte>)
    requires |longer| == |a| + 1 && longer[..|a|] == a && longer[|a|] == x
    ensures longer + b == a + ([x] + b)
  {
    assert longer == a + [x];
  }

  lemma ThreeSlices(s: seq<Byte>, a: nat, b: nat, c: nat)
    requires a <= b <= c <= |s|
    ensures s[a..] == s[a..b] + (s[b..c] + s[c..])
  {
  }

  lemma {:induction false} PiecesOriginal(digest: Digest, s: seq<Byte>, lit: nat, i: nat)
    requires lit <= i <= |s|
    ensures Original(PiecesFrom(s, lit, i)) == s[lit..]
    decreases |s| - i
  {
    if i + RUN > |s| {
      PiecesOne(digest, s[lit..]);
    } else if RunAt(s, i) {
      PiecesOriginal(digest, s, i + RUN, i + RUN);
      PiecesTwo(digest, s[lit..i], s[i..i + RUN], PiecesFrom(s, i + RUN, i + RUN));
      ThreeSlices(s, lit, i, i + RUN);
    } else {
      PiecesOriginal(digest, s, lit, i + 1);
    }
  }

  /** A run inside a segment is a run of the input. */
  lemma SegmentRun(s: seq<Byte>, a: nat, b: nat, k: nat)
    requires a <= b <= |s| && RunAt(s[a..b], k)
    ensures RunAt(s, a + k) && a + k + RUN <= b
  {
    forall j | a + k <= j < a + k + RUN ensures Digit(s[j]) {
      assert s[a..b][j - a] == s[j];
    }
  }

  lemma {:induction false} PiecesAlternate(s: seq<Byte>, lit: nat, i: nat)
    requires lit <= i <= |s| && forall k :: lit <= k < i ==> !RunAt(s, k)
    ensures PiecesFrom(s, lit, i) != [] && PiecesFrom(s, lit, i)[0].Literal? && Alternates(PiecesFrom(s, lit, i))
    decreases |s| - i
  {
    if i + RUN > |s| {
      LiteralClean(s, lit, |s|, i);
      assert s[lit..|s|] == s[lit..];
    } else if RunAt(s, i) {
      LiteralClean(s, lit, i, i);
      PiecesAlternate(s, i + RUN, i + RUN);
      assert RunAt(s[i..i + RUN], 0);
      AlternatesMore(s[lit..i], s[i..i + RUN], PiecesFrom(s, i + RUN, i + RUN));
    } else {
      PiecesAlternate(s, lit, i + 1);
    }
  }

  lemma AlternatesMore(lit: seq<Byte>, run: seq<Byte>, rest: seq<Piece>)
    requires NoRunBefore(lit, |lit|) && |run| == RUN && RunAt(run, 0) && Alternates(rest)
    ensures Alternates([Literal(lit), Masked(run)] + rest)
  {
    var ps := [Literal(lit), Masked(run)] + rest;
    assert forall i :: 2 <= i < |ps| ==> ps[i] == rest[i - 2];
  }

  lemma LiteralClean(s: seq<Byte>, lit: nat, end: nat, i: nat)
    requires lit <= i <= |s| && lit <= end <= |s| && (forall k :: lit <= k < i ==> !RunAt(s, k)) && (end <= i || i + RUN > |s|)
    ensures NoRunBefore(s[lit..end], |s[lit..end]|)
  {
    forall k | 0 <= k < |s[lit..end]| ensures !RunAt(s[lit..end], k) {
      if RunAt(s[lit..end], k) {
        SegmentRun(s, lit, end, k);
      }
    }
  }

  /** Every payload is literal segments without a run between masked runs; masking replaces
      exactly those runs. */
  lemma MaskIsPiecewise(digest: Digest, s: seq<Byte>) returns (pieces: seq<Piece>)
    ensures Original(pieces) == s && Flat(digest, pieces) == Mask(digest, s) && Alternates(pieces)
  {
    pieces := PiecesFrom(s, 0, 0);
    PiecesMask(digest, s, 0, 0);
    PiecesOriginal(digest, s, 0, 0);
    PiecesAlternate(s, 0, 0);
    assert s[0..0] == [] && s[0..] == s;
  }

  // ---- The three passes ----------------------------------------------------------------------------

  /** The first run, found by counting consecutive digits. */
  method FindFirstPIIRun(s: seq<Byte>) returns (start: nat, ok: bool)
    ensures ok ==> RunAt(s, start) && NoRunBefore(s, start)
    ensures !ok ==> start == 0 && NoRunBefore(s, |s|)
  {
    if |s| < RUN {
      return 0, false;
    }
    var run := 0;
    for i := 0 to |s|
      invariant run <= i && run < RUN
      invariant forall k :: i - run <= k < i ==> Digit(s[k])
      invariant i > run ==> !Digit(s[i - run - 1])
      invariant forall k :: 0 <= k && k + RUN <= i ==> !RunAt(s, k)
    {
      if Digit(s[i]) {
        run := run + 1;
        if run >= RUN {
          return i - RUN + 1, true;
        }
      } else {
        run := 0;
      }
    }
    return 0, false;
  }

  method CountRuns(s: seq<Byte>, first: nat) returns (masks: nat)
    requires first <= |s|
    ensures masks == Runs(s, first)
  {
    masks := 0;
    var i := first;
    while i + RUN <= |s|
      invariant first <= i <= |s| && masks + Runs(s, i) == Runs(s, first)
      decreases |s| - i
    {
      if RunAt(s, i) {
        masks := masks + 1;
        i := i + RUN;
      } else {
        i := i + 1;
      }
    }
  }

  method WriteHex16(dst: array<Byte>, off: nat, v: nat)
    requires off + HEX <= dst.Length
    modifies dst
    ensures dst[..] == Patch(old(dst[..]), off, HexPrefix(v, HEX))
  {
    ghost var was := dst[..];
    assert Patch(was, off, []) == was;
    for k := 0 to HEX
      invariant dst[..] == Patch(was, off, HexPrefix(v, k))
    {
      PatchNext(was, off, HexPrefix(v, k), [HexAt(v, k)]);
      CopyAt(dst, off + k, [HexAt(v, k)]);
    }
  }

  /** Writes the replacement of one run at `off`. */
  method WriteReplacement(dst: array<Byte>, off: nat, digest: Digest, run: seq<Byte>) returns (next: nat)
    requires off + REPLACEMENT <= dst.Length
    modifies dst
    ensures dst[..] == Patch(old(dst[..]), off, Replacement(digest, run)) && next == off + REPLACEMENT
  {
    ghost var was := dst[..];
    CopyAt(dst, off, MARKER);
    CopyAt(dst, off + 12, [UNDERSCORE]);
    PatchNext(was, off, MARKER, [UNDERSCORE]);
    WriteHex16(dst, off + 13, digest(run));
    PatchNext(was, off, MARKER + [UNDERSCORE], HexPrefix(digest(run), HEX));
    next := off + REPLACEMENT;
  }

  lemma PatchFront(m: seq<Byte>, off: nat, src: seq<Byte>)
    requires off + |src| <= |m|
    ensures Patch(m, off, src)[..off + |src|] == m[..off] + src
  {
  }

  /** Copies the current literal, if there is one, to the output. */
  method CopyLiteral(out: array<Byte>, off: nat, s: seq<Byte>, lit: nat, i: nat) returns (next: nat)
    requires lit <= i <= |s| && off + (i - lit) <= out.Length
    modifies out
    ensures next == off + (i - lit) && out[..next] == old(out[..off]) + s[lit..i]
  {
    next := off;
    if i > lit {
      PatchFront(out[..], off, s[lit..i]);
      CopyAt(out, off, s[lit..i]);
      next := off + (i - lit);
      assert out[..next] == out[..][..next];
    } else {
      assert s[lit..i] == [];
    }
  }

  /** What the assembly has written and what is still to come make up the rewriting. */
  ghost predicate Assembling(digest: Digest, s: seq<Byte>, done: seq<Byte>, lit: nat, i: nat)
  {
    lit <= i <= |s| && done + s[lit..i] + MaskFrom(digest, s, i) == Mask(digest, s)
  }

  lemma AssemblePlain(digest: Digest, s: seq<Byte>, done: seq<Byte>, lit: nat, i: nat)
    requires Assembling(digest, s, done, lit, i) && i + RUN <= |s| && !RunAt(s, i)
    ensures Assembling(digest, s, done, lit, i + 1)
  {
    MoveByte(s[lit..i + 1], s[lit..i], s[i], MaskFrom(digest, s, i + 1));
    assert done + s[lit..i] + MaskFrom(digest, s, i) == done + (s[lit..i] + MaskFrom(digest, s, i));
    assert done + s[lit..i + 1] + MaskFrom(digest, s, i + 1) == done + (s[lit..i + 1] + MaskFrom(digest, s, i + 1));
  }

  lemma AssembleRun(digest: Digest, s: seq<Byte>, done: seq<Byte>, lit: nat, i: nat)
    requires Assembling(digest, s, done, lit, i) && RunAt(s, i)
    ensures Assembling(digest, s, done + s[lit..i] + Replacement(digest, s[i..i + RUN]), i + RUN, i + RUN)
  {
    var r, rest := Replacement(digest, s[i..i + RUN]), MaskFrom(digest, s, i + RUN);
    assert done + s[lit..i] + (r + rest) == done + s[lit..i] + r + s[i + RUN..i + RUN] + rest;
  }

  lemma AssembleEnd(digest: Digest, s: seq<Byte>, done: seq<Byte>, lit: nat, i: nat)
    requires Assembling(digest, s, done, lit, i) && Runs(s, i) == 0
    ensures done + s[lit..] == Mask(digest, s)
  {
    NoRunsLeft(digest, s, i);
    assert done + s[lit..i] + s[i..] == done + s[lit..];
  }

  /** The output has room for what is left, exactly. */
  predicate Sized(s: seq<Byte>, size: nat, off: nat, lit: nat, i: nat) {
    lit <= i <= |s| && off + (|s| - lit) + 17 * Runs(s, i) == size
  }

  /** Replaces the run at `i`: the literal before it, then its replacement. */
  method MaskRun(digest: Digest, s: seq<Byte>, out: array<Byte>, off: nat, lit: nat, i: nat) returns (next: nat)
    requires Sized(s, out.Length, off, lit, i) && RunAt(s, i) && off <= out.Length
    requires Assembling(digest, s, out[..off], lit, i)
    modifies out
    ensures next <= out.Length && Sized(s, out.Length, next, i + RUN, i + RUN)
    ensures Assembling(digest, s, out[..next], i + RUN, i + RUN)
  {
    AssembleRun(digest, s, out[..off], lit, i);
    next := CopyLiteral(out, off, s, lit, i);
    ghost var was, mid := out[..], next;
    PatchFront(was, mid, Replacement(digest, s[i..i + RUN]));
    next := WriteReplacement(out, next, digest, s[i..i + RUN]);
    assert out[..next] == out[..][..next] && was[..mid] == old(out[..off]) + s[lit..i];
  }

  method MaskAssemble(digest: Digest, s: seq<Byte>, out: array<Byte>, masks: nat)
    requires masks == Runs(s, 0) && out.Length == |s| + 17 * masks
    modifies out
    ensures out[..] == Mask(digest, s)
  {
    var inPos, outPos, lit, masked := 0, 0, 0, 0;
    assert out[..0] + s[0..0] + MaskFrom(digest, s, 0) == Mask(digest, s);
    while inPos + RUN <= |s| && masked < masks
      invariant 0 <= outPos <= out.Length && 0 <= lit <= inPos <= |s|
      invariant masked + Runs(s, inPos) == masks && Sized(s, out.Length, outPos, lit, inPos)
      invariant Assembling(digest, s, out[..outPos], lit, inPos)
      decreases |s| - inPos
    {
      if RunAt(s, inPos) {
        outPos := MaskRun(digest, s, out, outPos, lit, inPos);
        inPos := inPos + RUN;
        lit := inPos;
        masked := masked + 1;
      } else {
        AssemblePlain(digest, s, out[..outPos], lit, inPos);
        inPos := inPos + 1;
      }
    }
    AssembleEnd(digest, s, out[..outPos], lit, inPos);
    outPos := CopyLiteral(out, outPos, s, lit, |s|);
    assert s[lit..|s|] == s[lit..] && out[..outPos] == out[..];
  }

  /** The payload itself when it holds no run, otherwise a new buffer of exactly the right
      size with every run replaced. */
  method MaskPII(digest: Digest, s: seq<Byte>) returns (masked: seq<Byte>, copied: bool)
    ensures masked == Mask(digest, s) && (copied <==> !NoRunBefore(s, |s|))
  {
    if |s| < RUN {
      MaskUnchangedIff(digest, s);
      return s, false;
    }
    var first, found := FindFirstPIIRun(s);
    if !found {
      MaskUnchangedIff(digest, s);
      return s, false;
    }
    var masks := CountRuns(s, first);
    RunsFrom(s, 0, first);
    var out := new Byte[|s| + masks * (REPLACEMENT - RUN)];
    MaskAssemble(digest, s, out, masks);
    return out[..], true;
  }

  /** The digest is written in hexadecimal, so a result can hold a run of its own: a digest
      whose digits are all decimal. */
  lemma DigestCanShowRun(digest: Digest, s: seq<Byte>)
    requires |s| == RUN && RunAt(s, 0) && digest(s) == 0
    ensures RunAt(Mask(digest, s), 13)
  {
    assert s[0..RUN] == s && MaskFrom(digest, s, RUN) == [];
    var out := Replacement(digest, s) + [];
    assert Mask(digest, s) == out;
    forall k | 13 <= k < 25 ensures Digit(out[k]) {
      assert out[k] == HexPrefix(0, HEX)[k - 13] == HexAt(0, k - 13);
    }
  }

  predicate RunFree(s: seq<Byte>) {
    NoRunBefore(s, |s|)
  }

  lemma RunInPart(a: seq<Byte>, b: seq<Byte>, i: nat)
    ensures RunAt(a, i) ==> RunAt(a + b, i)
    ensures RunAt(b, i) ==> RunAt(a + b, |a| + i)
  {
    forall k | RunAt(b, i) && |a| + i <= k < |a| + i + RUN ensures Digit((a + b)[k]) {
      assert (a + b)[k] == b[k - |a|];
    }
  }

  /** No run crosses a byte that is not a digit. */
  lemma RunFreeAcross(a: seq<Byte>, mid: seq<Byte>, b: seq<Byte>)
    requires mid != [] && forall k :: 0 <= k < |mid| ==> !Digit(mid[k])
    ensures RunFree(a + mid + b) <==> RunFree(a) && RunFree(b)
  {
    var s := a + mid + b;
    if RunFree(s) {
      forall i | 0 <= i < |a| ensures !RunAt(a, i) {
        RunInPart(a, mid, i);
        RunInPart(a + mid, b, i);
      }
      forall i | 0 <= i < |b| ensures !RunAt(b, i) {
        RunInPart(a + mid, b, i);
      }
    }
    if RunFree(a) && RunFree(b) {
      forall i | 0 <= i < |s| ensures !RunAt(s, i) {
        if RunAt(s, i) {
          RunAvoids(a, mid, b, i);
        }
      }
    }
  }

  lemma NotAcross(a: seq<Byte>, mid: seq<Byte>, b: seq<Byte>, i: nat)
    requires mid != [] && (forall k :: 0 <= k < |mid| ==> !Digit(mid[k])) && |a| < i + RUN && i < |a| + |mid|
    ensures !RunAt(a + mid + b, i)
  {
    var k := if i < |a| then |a| else i;
    assert (a + mid + b)[k] == mid[k - |a|];
  }

  lemma RunAvoids(a: seq<Byte>, mid: seq<Byte>, b: seq<Byte>, i: nat)
    requires mid != [] && (forall k :: 0 <= k < |mid| ==> !Digit(mid[k])) && RunAt(a + mid + b, i)
    ensures RunAt(a, i) || (i >= |a| + |mid| && RunAt(b, i - |a| - |mid|))
  {
    var s := a + mid + b;
    if i + RUN <= |a| {
      assert forall k :: i <= k < i + RUN ==> s[k] == a[k];
    } else {
      assert i >= |a| + |mid| by {
        if i < |a| + |mid| {
          NotAcross(a, mid, b, i);
        }
      }
      var j := i - |a| - |mid|;
      forall k | j <= k < j + RUN ensures Digit(b[k]) {
        assert s[k + |a| + |mid|] == b[k];
      }
    }
  }

  /** Each replaced run's digest, in hexadecimal and followed by the literal after it, holds
      no run; `carry` is the digest before the first literal. */
  predicate DigestsClean(digest: Digest, carry: seq<Byte>, s: seq<Byte>, lit: nat, i: nat)
    requires lit <= i <= |s|
    decreases |s| - i
  {
    if i + RUN > |s| then RunFree(carry + s[lit..])
    else if RunAt(s, i) then
      RunFree(carry + s[lit..i]) && DigestsClean(digest, HexPrefix(digest(s[i..i + RUN]), HEX), s, i + RUN, i + RUN)
    else DigestsClean(digest, carry, s, lit, i + 1)
  }

  lemma {:induction false} RunFreeIffDigests(digest: Digest, carry: seq<Byte>, s: seq<Byte>, lit: nat, i: nat)
    requires lit <= i <= |s|
    ensures RunFree(carry + s[lit..i] + MaskFrom(digest, s, i)) <==> DigestsClean(digest, carry, s, lit, i)
    decreases |s| - i
  {
    if i + RUN > |s| {
      assert carry + s[lit..i] + s[i..] == carry + s[lit..];
    } else if RunAt(s, i) {
      var hex, rest := HexPrefix(digest(s[i..i + RUN]), HEX), MaskFrom(digest, s, i + RUN);
      RunFreeIffDigests(digest, hex, s, i + RUN, i + RUN);
      assert hex + s[i + RUN..i + RUN] == hex;
      RunFreeAcross(carry + s[lit..i], MARKER + [UNDERSCORE], hex + rest);
      Regroup(carry + s[lit..i], MARKER + [UNDERSCORE], hex, rest);
    } else {
      RunFreeIffDigests(digest, carry, s, lit, i + 1);
      MoveWithin(carry, s, lit, i, MaskFrom(digest, s, i + 1));
    }
  }

  lemma Regroup(a: seq<Byte>, m: seq<Byte>, h: seq<Byte>, r: seq<Byte>)
    ensures a + ((m + h) + r) == a + m + (h + r)
  {
  }

  lemma MoveWithin(carry: seq<Byte>, s: seq<Byte>, lit: nat, i: nat, rest: seq<Byte>)
    requires lit <= i < |s|
    ensures carry + s[lit..i + 1] + rest == carry + s[lit..i] + ([s[i]] + rest)
  {
    assert s[lit..i + 1] == s[lit..i] + [s[i]];
  }

  /** The result holds no twelve-digit run exactly when no digest brings one. */
  lemma MaskRunFreeIff(digest: Digest, s: seq<Byte>)
    ensures RunFree(Mask(digest, s)) <==> DigestsClean(digest, [], s, 0, 0)
  {
    RunFreeIffDigests(digest, [], s, 0, 0);
    assert [] + s[0..0] + MaskFrom(digest, s, 0) == Mask(digest, s);
  }
}
