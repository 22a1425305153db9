/** Object names: decimal rendering of the first system time, the number parsed back
    from a name, and the lexical order in which names are listed. */
module ObjectKeys {
  import opened Basics
  import opened Bytes

  // ---- Decimal numerals -----------------------------------------------------------------

  function Digit(n: int): char
    requires 0 <= n < 10
  {
    '0' + n as char
  }

  predicate IsDigit(c: char) {
    '0' <= c <= '9'
  }

  function DigitValue(c: char): int {
    c as int - '0' as int
  }

  function Decimal(n: nat): (s: string)
    ensures |s| > 0 && forall i :: 0 <= i < |s| ==> IsDigit(s[i])
  {
    if n < 10 then [Digit(n)] else Decimal(n / 10) + [Digit(n % 10)]
  }

  function FormatInt(n: int): string {
    if n < 0 then "-" + Decimal(-n) else Decimal(n)
  }

  predicate AllDigits(s: string) {
    forall i :: 0 <= i < |s| ==> IsDigit(s[i])
  }

  function ValueOf(s: string): int {
    if s == "" then 0 else ValueOf(s[..|s| - 1]) * 10 + DigitValue(s[|s| - 1])
  }

  /** Base-10 parse of a 64-bit signed integer: optional sign, at least one digit, and
      an error when out of range. */
  function ParseInt(s: string): Option<int> {
    var signed := s != "" && (s[0] == '-' || s[0] == '+');
    var body := if signed then s[1..] else s;
    if body == "" || !AllDigits(body) then None
    else
      var v := if s[0] == '-' then -ValueOf(body) else ValueOf(body);
      if IsI64(v) then Some(v) else None
  }

  lemma {:induction false} DecimalValue(n: nat)
    ensures ValueOf(Decimal(n)) == n
  {
    if n >= 10 {
      DecimalValue(n / 10);
      var s := Decimal(n);
      assert s[..|s| - 1] == Decimal(n / 10);
    } else {
      assert Decimal(n)[..0] == "";
    }
  }

  /** Rendering and parsing are inverse on every 64-bit integer. */
  lemma ParseFormat(n: int)
    requires IsI64(n)
    ensures ParseInt(FormatInt(n)) == Some(n)
  {
    if n < 0 {
      DecimalValue(-n);
      assert FormatInt(n)[1..] == Decimal(-n);
    } else {
      DecimalValue(n);
      assert IsDigit(Decimal(n)[0]);
    }
  }

  // ---- Names ----------------------------------------------------------------------------

  datatype Tier = L0 | L1 | ManifestTier

  function Prefix(t: Tier): string {
    match t
    case L0 => "l0/"
    case L1 => "l1/"
    case ManifestTier => "compaction/"
  }

  function Suffix(t: Tier): string {
    if t.ManifestTier? then ".manifest" else ".arrow"
  }

  function KeyFor(t: Tier, hex: string, firstSys: int): string {
    Prefix(t) + hex + "/" + FormatInt(firstSys) + Suffix(t)
  }

  function LastIndex(s: string, c: char): (i: int)
    ensures -1 <= i < |s|
    ensures i >= 0 ==> s[i] == c
    ensures forall j :: i < j < |s| ==> s[j] != c
  {
    if s == "" then -1
    else if s[|s| - 1] == c then |s| - 1
    else LastIndex(s[..|s| - 1], c)
  }

  /** The first system time encoded in a name, or nothing on any parse anomaly or a
      negative number. */
  function ParseFirstSys(key: string): Option<int> {
    var slash := LastIndex(key, '/');
    if slash < 0 || slash == |key| - 1 then None else ParseTail(key[slash + 1..])
  }

  function ParseTail(tail: string): Option<int> {
    var dot := LastIndex(tail, '.');
    if dot <= 0 then None
    else
      var n := ParseInt(tail[..dot]);
      if n.Some? && n.value >= 0 then n else None
  }

  lemma LastIndexUnique(s: string, c: char, i: int)
    requires 0 <= i < |s| && s[i] == c
    requires forall j :: i < j < |s| ==> s[j] != c
    ensures LastIndex(s, c) == i
  {
  }

  lemma NumeralChars(n: int)
    ensures forall i :: 0 <= i < |FormatInt(n)| ==> FormatInt(n)[i] != '/' && FormatInt(n)[i] != '.'
    ensures |FormatInt(n)| > 0
  {
    assert forall i :: 0 <= i < |FormatInt(n)| ==> FormatInt(n)[i] == '-' || IsDigit(FormatInt(n)[i]);
  }

  /** The last path segment of a name is the numeral and the suffix. */
  lemma NameTail(head: string, tail: string)
    requires forall i :: 0 <= i < |tail| ==> tail[i] != '/'
    ensures LastIndex(head + "/" + tail, '/') == |head|
    ensures (head + "/" + tail)[|head| + 1..] == tail
  {
    LastIndexUnique(head + "/" + tail, '/', |head|);
  }

  lemma NumeralBeforeDot(num: string, rest: string)
    requires forall i :: 0 <= i < |num| ==> num[i] != '.'
    requires forall i :: 0 <= i < |rest| ==> rest[i] != '.'
    ensures LastIndex(num + ("." + rest), '.') == |num|
    ensures (num + ("." + rest))[..|num|] == num
  {
    LastIndexUnique(num + ("." + rest), '.', |num|);
  }

  /** The number read back from an L0, L1 or manifest name is the one it was built from,
      and a name built from a negative number is never read as a bound. */
  lemma KeyRoundTrip(t: Tier, hex: string, n: int)
    requires IsI64(n)
    ensures ParseFirstSys(KeyFor(t, hex, n)) == if n >= 0 then Some(n) else None
  {
    var tail := FormatInt(n) + Suffix(t);
    NoSlash(t, n);
    KeyParts(Prefix(t) + hex, FormatInt(n), Suffix(t));
    NameTail(Prefix(t) + hex, tail);
    TailRoundTrip(t, n);
  }

  lemma KeyParts(head: string, num: string, suf: string)
    ensures head + "/" + num + suf == head + "/" + (num + suf)
  {
  }

  lemma NoSlash(t: Tier, n: int)
    ensures forall i :: 0 <= i < |FormatInt(n) + Suffix(t)| ==> (FormatInt(n) + Suffix(t))[i] != '/'
  {
    NumeralChars(n);
    assert forall i :: 0 <= i < |Suffix(t)| ==> Suffix(t)[i] != '/';
  }

  lemma TailRoundTrip(t: Tier, n: int)
    requires IsI64(n)
    ensures ParseTail(FormatInt(n) + Suffix(t)) == if n >= 0 then Some(n) else None
  {
    NumeralChars(n);
    var rest := Suffix(t)[1..];
    assert Suffix(t) == "." + rest;
    NumeralBeforeDot(FormatInt(n), rest);
    ParseFormat(n);
  }

  /** Distinct first system times give distinct names. */
  /** The hash part stands after the tier's prefix. */
  lemma KeyHex(t: Tier, hex: string, n: int)
    ensures |Prefix(t)| + |hex| <= |KeyFor(t, hex, n)|
    ensures KeyFor(t, hex, n)[|Prefix(t)|..|Prefix(t)| + |hex|] == hex
  {
    MiddlePart(Prefix(t), hex, "/" + FormatInt(n) + Suffix(t));
    assert KeyFor(t, hex, n) == Prefix(t) + hex + ("/" + FormatInt(n) + Suffix(t));
  }

  lemma MiddlePart(a: string, b: string, c: string)
    ensures |a| + |b| <= |a + b + c| && (a + b + c)[|a|..|a| + |b|] == b
  {
  }

  lemma KeyInjective(t: Tier, hex: string, a: int, b: int)
    requires IsI64(a) && IsI64(b)
    requires KeyFor(t, hex, a) == KeyFor(t, hex, b)
    ensures a == b
  {
    var ka, kb, p := KeyFor(t, hex, a), KeyFor(t, hex, b), |Prefix(t) + hex| + 1;
    assert ka[p..|ka| - |Suffix(t)|] == FormatInt(a);
    assert kb[p..|kb| - |Suffix(t)|] == FormatInt(b);
    ParseFormat(a);
    ParseFormat(b);
  }

  // ---- Listing order --------------------------------------------------------------------

  predicate LexLess(a: string, b: string) {
    if a == "" then b != ""
    else if b == "" then false
    else a[0] < b[0] || (a[0] == b[0] && LexLess(a[1..], b[1..]))
  }

  lemma {:induction false} LexLessPrefix(p: string, a: string, b: string)
    ensures LexLess(p + a, p + b) <==> LexLess(a, b)
  {
    if p == "" {
      assert p + a == a && p + b == b;
    } else {
      LexLessPrefix(p[1..], a, b);
      assert (p + a)[1..] == p[1..] + a && (p + b)[1..] == p[1..] + b;
    }
  }

  lemma {:induction false} LexLessWidth(a: string, b: string, s: string)
    requires |a| == |b|
    ensures LexLess(a + s, b + s) <==> LexLess(a, b)
  {
    if a == "" {
      LexIrreflexive(s);
      assert a + s == s && b + s == s;
    } else {
      LexLessWidth(a[1..], b[1..], s);
      assert (a + s)[1..] == a[1..] + s && (b + s)[1..] == b[1..] + s;
    }
  }

  lemma {:induction false} LexIrreflexive(s: string)
    ensures !LexLess(s, s)
  {
    if s != "" {
      LexIrreflexive(s[1..]);
    }
  }

  lemma {:induction false} LexLessSnoc(a: string, b: string, x: char, y: char)
    requires |a| == |b|
    ensures LexLess(a + [x], b + [y]) <==> LexLess(a, b) || (a == b && x < y)
  {
    if a == "" {
      assert a + [x] == [x] && b + [y] == [y];
      assert LexLess([x][1..], [y][1..]) == false;
    } else {
      LexLessSnoc(a[1..], b[1..], x, y);
      assert (a + [x])[1..] == a[1..] + [x] && (b + [y])[1..] == b[1..] + [y];
      assert a == b <==> a[0] == b[0] && a[1..] == b[1..] by {
        assert a == [a[0]] + a[1..] && b == [b[0]] + b[1..];
      }
    }
  }

  lemma {:induction false} NumeralOrder(a: string, b: string)
    requires |a| == |b| && AllDigits(a) && AllDigits(b)
    ensures LexLess(a, b) <==> ValueOf(a) < ValueOf(b)
    ensures a == b <==> ValueOf(a) == ValueOf(b)
  {
    if a != "" {
      var n := |a| - 1;
      NumeralOrder(a[..n], b[..n]);
      LexLessSnoc(a[..n], b[..n], a[n], b[n]);
      assert a == a[..n] + [a[n]] && b == b[..n] + [b[n]];
    }
  }

  /** Decimal width of a non-negative number. */
  function Width(n: nat): nat {
    |Decimal(n)|
  }

  /** Among names of equal decimal width the lexical order is the numeric order. */
  lemma ListingOrder(t: Tier, hex: string, a: nat, b: nat)
    requires Width(a) == Width(b)
    ensures LexLess(KeyFor(t, hex, a), KeyFor(t, hex, b)) <==> a < b
  {
    var p, suf := Prefix(t) + hex + "/", Suffix(t);
    assert KeyFor(t, hex, a) == p + (Decimal(a) + suf);
    assert KeyFor(t, hex, b) == p + (Decimal(b) + suf);
    LexLessPrefix(p, Decimal(a) + suf, Decimal(b) + suf);
    LexLessWidth(Decimal(a), Decimal(b), suf);
    NumeralOrder(Decimal(a), Decimal(b));
    DecimalValue(a);
    DecimalValue(b);
  }

  /** Without equal widths it is not: 10 is listed before 9. */
  lemma ListingOrderNeedsWidth(hex: string)
    ensures LexLess(KeyFor(L0, hex, 10), KeyFor(L0, hex, 9))
  {
    var p := Prefix(L0) + hex + "/";
    assert Decimal(10) == "10" && Decimal(9) == "9";
    assert KeyFor(L0, hex, 10) == p + ("10" + ".arrow") && KeyFor(L0, hex, 9) == p + ("9" + ".arrow");
    LexLessPrefix(p, "10" + ".arrow", "9" + ".arrow");
  }

  lemma {:induction false} LexDecide(d: string, e: string, u: string, v: string)
    requires |d| == |e| && LexLess(d, e)
    ensures LexLess(d + u, e + v) && !LexLess(e + v, d + u)
  {
    if d[0] == e[0] {
      LexDecide(d[1..], e[1..], u, v);
    }
    assert (d + u)[1..] == d[1..] + u && (e + v)[1..] == e[1..] + v;
  }

  /** The number the first `w` digits of `n` make. */
  function Lead(n: nat, w: nat): nat {
    if Width(n) <= w || n < 10 then n else Lead(n / 10, w)
  }

  lemma {:induction false} LeadDigits(n: nat, w: nat) returns (tail: string)
    requires 1 <= w <= Width(n)
    ensures Decimal(n) == Decimal(Lead(n, w)) + tail && Width(Lead(n, w)) == w && AllDigits(tail)
  {
    if Width(n) == w {
      tail := "";
    } else {
      var more := LeadDigits(n / 10, w);
      tail := more + [Digit(n % 10)];
    }
  }

  lemma {:induction false} WiderIsGreater(a: nat, b: nat)
    requires a <= b
    ensures Width(a) <= Width(b)
  {
    if b >= 10 && a >= 10 {
      WiderIsGreater(a / 10, b / 10);
    }
  }

  lemma NamesCompare(p: string, d: string, e: string, suf: string)
    ensures LexLess(p + d + suf, p + e + suf) <==> LexLess(d + suf, e + suf)
  {
    assert p + d + suf == p + (d + suf) && p + e + suf == p + (e + suf);
    LexLessPrefix(p, d + suf, e + suf);
  }

  /** Of two numbers the lower is listed first exactly when it does not exceed the number its
      own count of leading digits of the higher makes. */
  lemma ListingOrderIff(t: Tier, hex: string, a: nat, b: nat)
    requires a < b
    ensures LexLess(KeyFor(t, hex, a), KeyFor(t, hex, b)) <==> a <= Lead(b, Width(a))
  {
    WiderIsGreater(a, b);
    var l := Lead(b, Width(a));
    var tail := LeadDigits(b, Width(a));
    var d, e, suf := Decimal(a), Decimal(l), Suffix(t);
    NamesCompare(Prefix(t) + hex + "/", d, Decimal(b), suf);
    NumeralOrder(d, e);
    NumeralOrder(e, d);
    DecimalValue(a);
    DecimalValue(l);
    DecimalValue(b);
    assert a == l ==> tail != "";
    LeadDecides(d, e, tail, suf);
  }

  lemma LeadDecides(d: string, e: string, tail: string, suf: string)
    requires |d| == |e| && suf != "" && suf[0] == '.' && AllDigits(tail)
    requires (LexLess(d, e) || d == e || LexLess(e, d)) && (d == e ==> tail != "")
    ensures LexLess(d + suf, (e + tail) + suf) <==> LexLess(d, e) || d == e
  {
    assert (e + tail) + suf == e + (tail + suf);
    if LexLess(d, e) {
      LexDecide(d, e, suf, tail + suf);
    } else if d == e {
      LexLessPrefix(d, suf, tail + suf);
      DotBeforeDigit(suf, tail);
    } else {
      LexDecide(e, d, tail + suf, suf);
    }
  }

  lemma DotBeforeDigit(suf: string, tail: string)
    requires suf != "" && suf[0] == '.' && tail != "" && AllDigits(tail)
    ensures LexLess(suf, tail + suf)
  {
  }

  /** Every L1 name sorts after every L0 name, so a reverse scan meets the L1 tier first. */
  lemma TierOrder(hex: string, a: int, b: int)
    ensures LexLess(KeyFor(L0, hex, a), KeyFor(L1, hex, b))
  {
    TierOrderTails(hex + "/" + FormatInt(a) + ".arrow", hex + "/" + FormatInt(b) + ".arrow");
    assert KeyFor(L0, hex, a) == "l0/" + (hex + "/" + FormatInt(a) + ".arrow");
    assert KeyFor(L1, hex, b) == "l1/" + (hex + "/" + FormatInt(b) + ".arrow");
  }

  lemma TierOrderTails(x: string, y: string)
    ensures LexLess("l0/" + x, "l1/" + y)
  {
    assert "l0/" + x == "l" + ("0/" + x) && "l1/" + y == "l" + ("1/" + y);
    LexLessPrefix("l", "0/" + x, "1/" + y);
  }
}
