/** Fixed-width integers as byte strings. */
module Bytes {
  type Byte = x: int | 0 <= x < 256

  function Pow256(w: nat): (p: nat)
    ensures p > 0
  {
    if w == 0 then 1 else 256 * Pow256(w - 1)
  }

  /** The low `w` bytes of `n`, most significant first. */
  function BE(n: nat, w: nat): (b: seq<Byte>)
    ensures |b| == w
  {
    if w == 0 then [] else BE(n / 256, w - 1) + [n % 256]
  }

  function FromBE(b: seq<Byte>): (n: nat)
    ensures n < Pow256(|b|)
  {
    if b == [] then 0 else FromBE(b[..|b| - 1]) * 256 + b[|b| - 1]
  }

  /** The low `w` bytes of `n`, least significant first. */
  function LE(n: nat, w: nat): (b: seq<Byte>)
    ensures |b| == w
  {
    if w == 0 then [] else [n % 256] + LE(n / 256, w - 1)
  }

  function FromLE(b: seq<Byte>): (n: nat)
    ensures n < Pow256(|b|)
  {
    if b == [] then 0 else b[0] + 256 * FromLE(b[1..])
  }

  lemma {:induction false} BERoundTrip(n: nat, w: nat)
    requires n < Pow256(w)
    ensures FromBE(BE(n, w)) == n
  {
    if w > 0 {
      BERoundTrip(n / 256, w - 1);
      assert BE(n, w)[..w - 1] == BE(n / 256, w - 1);
    }
  }

  lemma {:induction false} LERoundTrip(n: nat, w: nat)
    requires n < Pow256(w)
    ensures FromLE(LE(n, w)) == n
  {
    if w > 0 {
      LERoundTrip(n / 256, w - 1);
      assert LE(n, w)[1..] == LE(n / 256, w - 1);
    }
  }

  const U16: int := 0x1_0000
  const U32: int := 0x1_0000_0000
  const U64: int := 0x1_0000_0000_0000_0000
  const MIN_I64: int := -0x8000_0000_0000_0000
  const MAX_I64: int := 0x7FFF_FFFF_FFFF_FFFF

  lemma Widths()
    ensures Pow256(2) == U16 && Pow256(4) == U32 && Pow256(8) == U64
  {
    assert Pow256(3) == 0x100_0000 && Pow256(5) == 0x100_0000_0000;
    assert Pow256(6) == 0x1_0000_0000_0000 && Pow256(7) == 0x100_0000_0000_0000;
  }

  lemma BE4(n: nat)
    requires n < U32
    ensures FromBE(BE(n, 4)) == n
  {
    Widths();
    BERoundTrip(n, 4);
  }

  lemma BE8(n: nat)
    requires n < U64
    ensures FromBE(BE(n, 8)) == n
  {
    Widths();
    BERoundTrip(n, 8);
  }

  /** Two's complement view of a 64-bit signed integer. */
  function ToU64(n: int): int {
    if n < 0 then n + U64 else n
  }

  function ToI64(n: nat): (r: int)
    requires n < U64
    ensures IsI64(r)
  {
    if n > MAX_I64 then n - U64 else n
  }

  predicate IsI64(n: int) {
    MIN_I64 <= n <= MAX_I64
  }

  predicate IsU64(n: int) {
    0 <= n < U64
  }

  /** The word at the front of `b`. */
  function Word64(b: seq<Byte>): (n: nat)
    requires |b| >= 8
    ensures n < U64
  {
    Widths();
    FromBE(b[..8])
  }

  function Word32(b: seq<Byte>): (n: nat)
    requires |b| >= 4
    ensures n < U32
  {
    Widths();
    FromBE(b[..4])
  }

  lemma Front<T>(a: seq<T>, b: seq<T>)
    ensures (a + b)[..|a|] == a && (a + b)[|a|..] == b
  {
  }

  lemma Word64Front(n: nat, rest: seq<Byte>)
    requires n < U64
    ensures var b := BE(n, 8) + rest; Word64(b) == n && b[8..] == rest
  {
    Front(BE(n, 8), rest);
    BE8(n);
  }

  lemma Word32Front(n: nat, rest: seq<Byte>)
    requires n < U32
    ensures var b := BE(n, 4) + rest; Word32(b) == n && b[4..] == rest
  {
    Front(BE(n, 4), rest);
    BE4(n);
  }

  // ---- Writing into a buffer -------------------------------------------------------------------

  /** `s` with `src` written over it at `off`. */
  function Patch(s: seq<Byte>, off: nat, src: seq<Byte>): (t: seq<Byte>)
    requires off + |src| <= |s|
    ensures |t| == |s|
  {
    s[..off] + src + s[off + |src|..]
  }

  /** Writing `a` and then `b` after it is writing both. */
  lemma PatchNext(s: seq<Byte>, off: nat, a: seq<Byte>, b: seq<Byte>)
    requires off + |a| + |b| <= |s|
    ensures Patch(Patch(s, off, a), off + |a|, b) == Patch(s, off, a + b)
  {
  }

  /** `dst[off..]` receives `src`; the rest of the buffer is unchanged. */
  method CopyAt(dst: array<Byte>, off: nat, src: seq<Byte>)
    requires off + |src| <= dst.Length
    modifies dst
    ensures dst[..] == Patch(old(dst[..]), off, src)
  {
    for i := 0 to |src|
      invariant dst[..off] == old(dst[..off]) && dst[off..off + i] == src[..i]
      invariant dst[off + |src|..] == old(dst[off + |src|..])
    {
      dst[off + i] := src[i];
    }
    assert dst[..] == dst[..off] + dst[off..off + |src|] + dst[off + |src|..];
  }
}
