/** CRC-32C (Castagnoli), bit by bit, and the error it is there to catch. A word is its 32
    bits, least significant first. */
module Crc32c {
  import opened Bytes

  const T := true
  const F := false

  const ONES: seq<bool> := [
    T, T, T, T, T, T, T, T, T, T, T, T, T, T, T, T,
    T, T, T, T, T, T, T, T, T, T, T, T, T, T, T, T]

  type Word = w: seq<bool> | |w| == 32 witness ONES

  /** The reversed Castagnoli polynomial 0x82F63B78. */
  const POLY: seq<bool> := [
    F, F, F, T, T, T, T, F, T, T, F, T, T, T, F, F,
    F, T, T, F, T, T, T, T, F, T, F, F, F, F, F, T]

  /** Shift right by one; a bit shifted out folds the polynomial in. */
  function Shift(c: Word): Word {
    seq(32, i requires 0 <= i < 32 => ShiftedBit(c, i))
  }

  function ShiftedBit(c: Word, i: int): bool
    requires 0 <= i < 32
  {
    if c[0] && POLY[i] then !NextBit(c, i) else NextBit(c, i)
  }

  function NextBit(c: Word, i: int): bool
    requires 0 <= i < 32
  {
    i < 31 && c[i + 1]
  }

  function Shifts(c: Word, n: nat): Word
    decreases n, |c|
  {
    if n == 0 then c else Shifts(Shift(c), n - 1)
  }

  /** The low `n` bits of `v`, least significant first. */
  function Bits(v: nat, n: nat): (b: seq<bool>)
    ensures |b| == n
  {
    if n == 0 then [] else [v % 2 == 1] + Bits(v / 2, n - 1)
  }

  function Value(b: seq<bool>): (v: nat)
    ensures v < Pow2(|b|)
  {
    if b == [] then 0 else (if b[0] then 1 else 0) + 2 * Value(b[1..])
  }

  function Pow2(n: nat): nat {
    if n == 0 then 1 else 2 * Pow2(n - 1)
  }

  /** Exclusive or of a byte into the low bits. */
  function Mix(c: Word, b: seq<bool>): Word
    requires |b| == 8
  {
    seq(32, i requires 0 <= i < 32 => MixedBit(c, b, i))
  }

  function MixedBit(c: Word, b: seq<bool>, i: int): bool
    requires |b| == 8 && 0 <= i < 32
  {
    if i < 8 && b[i] then !c[i] else c[i]
  }

  function Absorb(c: Word, b: Byte): Word {
    Shifts(Mix(c, Bits(b, 8)), 8)
  }

  function Run(c: Word, body: seq<Byte>): Word {
    if body == [] then c else Absorb(Run(c, body[..|body| - 1]), body[|body| - 1])
  }

  function Complement(c: Word): Word {
    seq(32, i requires 0 <= i < 32 => !c[i])
  }

  lemma Pow2Of32()
    ensures Pow2(32) == U32
  {
    assert Pow2(4) == 16;
    assert Pow2(8) == 256;
    assert Pow2(12) == 4096;
    assert Pow2(16) == 65536;
    assert Pow2(20) == 0x10_0000;
    assert Pow2(24) == 0x100_0000;
    assert Pow2(28) == 0x1000_0000;
  }

  function Checksum(body: seq<Byte>): (r: nat)
    ensures r < U32
  {
    Pow2Of32();
    Value(Complement(Run(ONES, body)))
  }

  // ---- A change confined to one byte changes the checksum -----------------------------------------

  /** The top bit of the polynomial is set, so a shift can be undone. */
  lemma ShiftInjective(x: Word, y: Word)
    requires Shift(x) == Shift(y)
    ensures x == y
  {
    var s, t := Shift(x), Shift(y);
    assert s[31] == x[0] && t[31] == y[0];
    forall i | 0 <= i < 32 ensures x[i] == y[i] {
      if i > 0 {
        assert s[i - 1] == t[i - 1];
        assert NextBit(x, i - 1) == x[i] && NextBit(y, i - 1) == y[i];
      }
    }
  }

  lemma {:induction false} ShiftsInjective(x: Word, y: Word, n: nat)
    requires Shifts(x, n) == Shifts(y, n)
    ensures x == y
    decreases n
  {
    if n > 0 {
      ShiftsInjective(Shift(x), Shift(y), n - 1);
      ShiftInjective(x, y);
    }
  }

  lemma {:induction false} BitsInjective(a: nat, b: nat, n: nat)
    requires a < Pow2(n) && b < Pow2(n) && Bits(a, n) == Bits(b, n)
    ensures a == b
  {
    if n > 0 {
      assert Bits(a, n)[1..] == Bits(a / 2, n - 1) && Bits(b, n)[1..] == Bits(b / 2, n - 1);
      assert Bits(a, n)[0] == Bits(b, n)[0];
      BitsInjective(a / 2, b / 2, n - 1);
    }
  }

  lemma {:induction false} ValueInjective(a: seq<bool>, b: seq<bool>)
    requires |a| == |b| && Value(a) == Value(b)
    ensures a == b
  {
    if a != [] {
      ValueInjective(a[1..], b[1..]);
      assert a == [a[0]] + a[1..] && b == [b[0]] + b[1..];
    }
  }

  lemma MixInjective(c: Word, a: seq<bool>, d: Word, b: seq<bool>)
    requires |a| == |b| == 8 && Mix(c, a) == Mix(d, b)
    ensures a == b ==> c == d
    ensures c == d ==> a == b
  {
    forall i | 0 <= i < 32 ensures MixedBit(c, a, i) == MixedBit(d, b, i) {
      assert Mix(c, a)[i] == Mix(d, b)[i];
    }
    if a == b {
      forall i | 0 <= i < 32 ensures c[i] == d[i] {
        assert MixedBit(c, a, i) == MixedBit(d, b, i);
      }
    }
    if c == d {
      forall i | 0 <= i < 8 ensures a[i] == b[i] {
        assert MixedBit(c, a, i) == MixedBit(d, b, i);
      }
    }
  }

  lemma AbsorbInjective(c: Word, a: Byte, d: Word, b: Byte)
    requires Absorb(c, a) == Absorb(d, b)
    ensures a == b ==> c == d
    ensures c == d ==> a == b
  {
    ShiftsInjective(Mix(c, Bits(a, 8)), Mix(d, Bits(b, 8)), 8);
    MixInjective(c, Bits(a, 8), d, Bits(b, 8));
    if c == d {
      assert Pow2(4) == 16 && Pow2(8) == 256;
      BitsInjective(a, b, 8);
    }
  }

  /** A difference in the running checksum survives equal bytes. */
  lemma {:induction false} DifferenceSurvives(c: Word, d: Word, body: seq<Byte>)
    requires Run(c, body) == Run(d, body)
    ensures c == d
  {
    if body != [] {
      var init, last := body[..|body| - 1], body[|body| - 1];
      AbsorbInjective(Run(c, init), last, Run(d, init), last);
      DifferenceSurvives(c, d, init);
    }
  }

  lemma {:induction false} RunConcat(c: Word, a: seq<Byte>, b: seq<Byte>)
    ensures Run(c, a + b) == Run(Run(c, a), b)
  {
    if b == [] {
      assert a + b == a;
    } else {
      assert (a + b)[..|a + b| - 1] == a + b[..|b| - 1];
      RunConcat(c, a, b[..|b| - 1]);
    }
  }

  lemma ComplementInjective(x: Word, y: Word)
    requires Complement(x) == Complement(y)
    ensures x == y
  {
    forall i | 0 <= i < 32 ensures x[i] == y[i] {
      assert Complement(x)[i] == Complement(y)[i];
    }
  }

  lemma RunOneByte(c: Word, pre: seq<Byte>, x: Byte, post: seq<Byte>)
    ensures Run(c, pre + [x] + post) == Run(Absorb(Run(c, pre), x), post)
  {
    RunConcat(c, pre + [x], post);
    assert (pre + [x])[..|pre|] == pre;
  }

  /** Replacing one byte by another changes the checksum. */
  lemma OneByteDetected(pre: seq<Byte>, x: Byte, y: Byte, post: seq<Byte>)
    requires x != y
    ensures Checksum(pre + [x] + post) != Checksum(pre + [y] + post)
  {
    var a, b := Run(ONES, pre + [x] + post), Run(ONES, pre + [y] + post);
    RunOneByte(ONES, pre, x, post);
    RunOneByte(ONES, pre, y, post);
    if Checksum(pre + [x] + post) == Checksum(pre + [y] + post) {
      ValueInjective(Complement(a), Complement(b));
      ComplementInjective(a, b);
      var c := Run(ONES, pre);
      DifferenceSurvives(Absorb(c, x), Absorb(c, y), post);
      AbsorbInjective(c, x, c, y);
    }
  }
}
