/** The text of a compaction manifest: the L1 key on the first line, a merged L0 key on each
    line after it; and the reader that scans it without splitting it. */
module Manifests {
  import opened ObjectKeys

  predicate Space(c: char) {
    c == ' ' || '\t' <= c <= '\r'
  }

  function TrimLeft(s: string): string {
    if s != "" && Space(s[0]) then TrimLeft(s[1..]) else s
  }

  function TrimRight(s: string): string {
    if s != "" && Space(s[|s| - 1]) then TrimRight(s[..|s| - 1]) else s
  }

  function Trim(s: string): string {
    TrimRight(TrimLeft(s))
  }

  predicate AllSpace(s: string) {
    forall i :: 0 <= i < |s| ==> Space(s[i])
  }

  predicate Solid(s: string) {
    s != "" ==> !Space(s[0]) && !Space(s[|s| - 1])
  }

  lemma {:induction false} TrimLeftDrops(a: string, s: string)
    requires AllSpace(a) && (s != "" ==> !Space(s[0]))
    ensures TrimLeft(a + s) == s
  {
    if a == "" {
      assert a + s == s;
    } else {
      TrimLeftDrops(a[1..], s);
      assert (a + s)[1..] == a[1..] + s;
    }
  }

  lemma {:induction false} TrimRightDrops(s: string, b: string)
    requires AllSpace(b) && (s != "" ==> !Space(s[|s| - 1]))
    ensures TrimRight(s + b) == s
  {
    if b == "" {
      assert s + b == s;
    } else {
      TrimRightDrops(s, b[..|b| - 1]);
      assert (s + b)[..|s + b| - 1] == s + b[..|b| - 1];
    }
  }

  lemma {:induction false} TrimLeftBlank(s: string)
    requires AllSpace(s)
    ensures TrimLeft(s) == ""
  {
    if s != "" {
      TrimLeftBlank(s[1..]);
    }
  }

  /** Trimming leaves what the blanks at both ends surround. */
  lemma TrimIs(a: string, core: string, b: string)
    requires AllSpace(a) && AllSpace(b) && Solid(core)
    ensures Trim(a + (core + b)) == core
  {
    if core == "" {
      assert core + b == b;
      TrimLeftBlank(a + b);
    } else {
      TrimLeftDrops(a, core + b);
      TrimRightDrops(core, b);
    }
  }

  predicate HasPrefix(s: string, p: string) {
    p <= s
  }

  // ---- Writing -----------------------------------------------------------------------------------

  function Body(keys: seq<string>): string {
    if keys == [] then "" else Body(keys[..|keys| - 1]) + keys[|keys| - 1] + "\n"
  }

  method BuildManifest(l1Key: string, l0Keys: seq<string>) returns (b: string)
    ensures b == Body([l1Key] + l0Keys)
  {
    b := l1Key + "\n";
    assert Body([l1Key]) == "" + l1Key + "\n" == l1Key + "\n";
    for i := 0 to |l0Keys|
      invariant b == Body([l1Key] + l0Keys[..i])
    {
      b := b + l0Keys[i] + "\n";
      var keys := [l1Key] + l0Keys[..i + 1];
      assert keys[..|keys| - 1] == [l1Key] + l0Keys[..i];
    }
    assert l0Keys[..|l0Keys|] == l0Keys;
  }

  // ---- Reading -----------------------------------------------------------------------------------

  /** The offset of the first line break, the length when there is none. */
  function BreakAt(s: string): (i: nat)
    ensures i <= |s| && (i < |s| ==> s[i] == '\n') && forall j :: 0 <= j < i ==> s[j] != '\n'
  {
    if s == "" || s[0] == '\n' then 0 else 1 + BreakAt(s[1..])
  }

  /** The text split at its line breaks. */
  function Lines(s: string): (lines: seq<string>)
    ensures lines != []
    decreases |s|
  {
    var i := BreakAt(s);
    if i == |s| then [s] else [s[..i]] + Lines(s[i + 1..])
  }

  /** The lines that hold something, trimmed. */
  function Content(lines: seq<string>): (c: seq<string>)
    ensures |c| <= |lines| && forall i :: 0 <= i < |c| ==> c[i] != ""
  {
    if lines == [] then []
    else Prepend(Trim(lines[0]), Content(lines[1..]))
  }

  function Prepend(ln: string, rest: seq<string>): seq<string> {
    if ln == "" then rest else [ln] + rest
  }

  /** The line is the key with blanks around it. */
  ghost predicate Padded(line: string, key: string) {
    exists a, b :: AllSpace(a) && AllSpace(b) && line == a + (key + b)
  }

  /** Lines with blanks around their keys hold the keys. */
  lemma {:induction false} PaddedContent(lines: seq<string>, keys: seq<string>)
    requires |lines| == |keys| && forall i :: 0 <= i < |lines| ==> keys[i] != "" && Solid(keys[i]) && Padded(lines[i], keys[i])
    ensures Content(lines) == keys
  {
    if lines != [] {
      var a, b :| AllSpace(a) && AllSpace(b) && lines[0] == a + (keys[0] + b);
      TrimIs(a, keys[0], b);
      PaddedContent(lines[1..], keys[1..]);
      assert keys == [keys[0]] + keys[1..];
    }
  }

  function L0Only(keys: seq<string>): seq<string> {
    if keys == [] then []
    else
      var before, k := L0Only(keys[..|keys| - 1]), keys[|keys| - 1];
      if HasPrefix(k, "l0/") then before + [k] else before
  }

  datatype Manifest = Manifest(l1Key: string, l0Keys: seq<string>)

  /** What the reader makes of the lines that hold something: the first, whatever it is, is
      the L1 key; of the others those under l0/ are the L0 keys. */
  function Read(content: seq<string>): Manifest {
    if content == [] then Manifest("", []) else Manifest(content[0], L0Only(content[1..]))
  }

  predicate Rising(at: seq<nat>) {
    forall a, b :: 0 <= a < b < |at| ==> at[a] < at[b]
  }

  /** The places of the keys under l0/. */
  ghost predicate Chosen(keys: seq<string>, chosen: seq<string>, at: seq<nat>) {
    && |at| == |chosen| && Rising(at)
    && (forall m :: 0 <= m < |at| ==> at[m] < |keys| && chosen[m] == keys[at[m]])
    && (forall i :: 0 <= i < |keys| ==> (i in at <==> "l0/" <= keys[i]))
  }

  lemma ChosenSkip(init: seq<string>, last: string, chosen: seq<string>, at: seq<nat>)
    requires Chosen(init, chosen, at) && !("l0/" <= last)
    ensures Chosen(init + [last], chosen, at)
  {
    var keys := init + [last];
    assert |init| !in at;
    forall i | 0 <= i < |keys| ensures i in at <==> "l0/" <= keys[i] {
      assert i < |init| ==> keys[i] == init[i];
    }
  }

  lemma ChosenJoin(init: seq<string>, last: string, chosen: seq<string>, at: seq<nat>)
    requires Chosen(init, chosen, at) && "l0/" <= last
    ensures Chosen(init + [last], chosen + [last], at + [|init|])
  {
    var keys, more := init + [last], at + [|init|];
    forall i | 0 <= i < |keys| ensures i in more <==> "l0/" <= keys[i] {
      if i < |init| {
        assert keys[i] == init[i] && (i in more <==> i in at);
      } else {
        assert more[|at|] == i;
      }
    }
  }

  lemma {:induction false} L0OnlyAt(keys: seq<string>) returns (at: seq<nat>)
    ensures Chosen(keys, L0Only(keys), at)
  {
    if keys == [] {
      at := [];
    } else {
      var init, last := keys[..|keys| - 1], keys[|keys| - 1];
      at := L0OnlyAt(init);
      assert keys == init + [last];
      if HasPrefix(last, "l0/") {
        ChosenJoin(init, last, L0Only(init), at);
        at := at + [|init|];
      } else {
        ChosenSkip(init, last, L0Only(init), at);
      }
    }
  }

  /** The reading of a manifest: its first line that holds something is the L1 key, and of the
      others exactly those under l0/ are the L0 keys, in their order. */
  lemma ReadExactly(content: seq<string>) returns (at: seq<nat>)
    requires content != []
    ensures Read(content).l1Key == content[0] && |at| == |Read(content).l0Keys| && Rising(at)
    ensures forall m :: 0 <= m < |at| ==> 0 < at[m] < |content| && Read(content).l0Keys[m] == content[at[m]]
    ensures forall i :: 0 < i < |content| ==> (i in at <==> "l0/" <= content[i])
  {
    var rest := L0OnlyAt(content[1..]);
    at := seq(|rest|, m requires 0 <= m < |rest| => rest[m] + 1);
    forall i | 0 < i < |content| ensures i in at <==> "l0/" <= content[i] {
      assert content[1..][i - 1] == content[i];
      if i - 1 in rest {
        var m :| 0 <= m < |rest| && rest[m] == i - 1;
        assert at[m] == i;
      }
      if i in at {
        var m :| 0 <= m < |at| && at[m] == i;
        assert rest[m] == i - 1;
      }
    }
  }

  lemma ReadSnoc(content: seq<string>, ln: string)
    requires content != []
    ensures Read(content + [ln])
         == Manifest(content[0], if HasPrefix(ln, "l0/") then Read(content).l0Keys + [ln] else Read(content).l0Keys)
  {
    var rest := (content + [ln])[1..];
    assert rest[..|rest| - 1] == content[1..];
  }

  /** What is still to be read from `start` on. */
  function Ahead(s: string, start: nat): seq<string> {
    if start < |s| then Content(Lines(s[start..])) else []
  }

  lemma ContentHead(rest: string)
    requires rest != ""
    ensures var end := BreakAt(rest);
            Content(Lines(rest)) == Prepend(Trim(rest[..end]), if end < |rest| then Content(Lines(rest[end + 1..])) else [])
  {
    var end := BreakAt(rest);
    if end < |rest| {
      assert ([rest[..end]] + Lines(rest[end + 1..]))[1..] == Lines(rest[end + 1..]);
    } else {
      assert rest[..end] == rest && [rest][1..] == [];
    }
  }

  lemma ContentOfNothing()
    ensures Content(Lines("")) == []
  {
    assert Lines("") == [""] && [""][1..] == [];
  }

  lemma AheadNext(s: string, start: nat, end: nat, ln: string)
    requires start < |s| && end == BreakAt(s[start..]) && ln == Trim(s[start..start + end])
    ensures Ahead(s, start) == Prepend(ln, Ahead(s, start + end + 1))
  {
    var rest := s[start..];
    ContentHead(rest);
    assert rest[..end] == s[start..start + end];
    if end < |rest| {
      assert rest[end + 1..] == s[start + end + 1..];
      ContentOfNothing();
    }
  }

  /** What one line does to the manifest read so far. */
  method TakeLine(m: Manifest, first: bool, ln: string, ghost done: seq<string>) returns (next: Manifest)
    requires m == Read(done) && (first <==> done == []) && ln != "" && (done != [] ==> done[0] != "")
    ensures next == Read(done + [ln])
  {
    if first {
      return Manifest(ln, []);
    }
    ReadSnoc(done, ln);
    next := m;
    if m.l1Key == "" && HasPrefix(ln, "l1/") {
      next := m.(l1Key := ln);
    } else if HasPrefix(ln, "l0/") {
      next := m.(l0Keys := m.l0Keys + [ln]);
    }
  }

  lemma AheadStart(s: string)
    ensures Ahead(s, 0) == Content(Lines(s))
  {
    assert s[0..] == s;
    ContentOfNothing();
  }

  /** The trimmed line at `start`, and where the next begins. */
  method NextLine(s: string, start: nat) returns (ln: string, next: nat)
    requires start < |s|
    ensures next > start && Ahead(s, start) == Prepend(ln, Ahead(s, next))
  {
    var end := BreakAt(s[start..]);
    ln := Trim(s[start..start + end]);
    AheadNext(s, start, end, ln);
    next := start + end + 1;
  }

  /** Of the lines that hold something, `done` are read and `left` are not. */
  ghost predicate Between(all: seq<string>, done: seq<string>, left: seq<string>) {
    all == done + left && (done != [] ==> done[0] != "")
  }

  lemma BetweenNext(all: seq<string>, done: seq<string>, ln: string, left: seq<string>)
    requires Between(all, done, Prepend(ln, left))
    ensures Between(all, if ln == "" then done else done + [ln], left)
  {
    assert ln != "" ==> done + ([ln] + left) == (done + [ln]) + left;
  }

  /** The single-pass scan. */
  method ParseManifest(s: string) returns (m: Manifest)
    ensures m == Read(Content(Lines(s)))
  {
    m := Manifest("", []);
    ghost var done, left: seq<string> := [], Ahead(s, 0);
    var start, first := 0, true;
    AheadStart(s);
    ghost var all := left;
    assert [] + left == left;
    while start < |s|
      invariant (first <==> done == []) && m == Read(done) && left == Ahead(s, start) && Between(all, done, left)
      decreases |s| - start
    {
      var ln;
      ln, start := NextLine(s, start);
      left := Ahead(s, start);
      BetweenNext(all, done, ln, left);
      if ln != "" {
        m := TakeLine(m, first, ln, done);
        first := false;
        done := done + [ln];
      }
    }
    assert done + [] == done;
  }

  // ---- The reader it replaced ----------------------------------------------------------------------

  /** One turn of the loop over the split lines that the scan is meant to reproduce. */
  function ReferenceStep(m: Manifest, i: nat, ln: string): Manifest {
    if ln == "" then m
    else if (i == 0 || HasPrefix(ln, "l1/")) && m.l1Key == "" then m.(l1Key := ln)
    else if HasPrefix(ln, "l0/") then m.(l0Keys := m.l0Keys + [ln])
    else m
  }

  function Reference(lines: seq<string>): Manifest {
    if lines == [] then Manifest("", [])
    else ReferenceStep(Reference(lines[..|lines| - 1]), |lines| - 1, Trim(lines[|lines| - 1]))
  }

  lemma {:induction false} ContentSnoc(lines: seq<string>, ln: string)
    ensures Content(lines + [ln]) == if Trim(ln) == "" then Content(lines) else Content(lines) + [Trim(ln)]
  {
    if lines == [] {
      assert [ln][1..] == [] && lines + [ln] == [ln];
    } else {
      ContentSnoc(lines[1..], ln);
      assert (lines + [ln])[1..] == lines[1..] + [ln];
    }
  }

  /** The first line holds something, or what comes first is an L1 key, or there is nothing. */
  predicate LeadsWithL1(lines: seq<string>)
    requires lines != []
  {
    Trim(lines[0]) != "" || Content(lines) == [] || HasPrefix(Content(lines)[0], "l1/")
  }

  lemma {:induction false} SameWhenLed(lines: seq<string>)
    requires lines != [] && LeadsWithL1(lines)
    ensures Reference(lines) == Read(Content(lines))
  {
    var n := |lines| - 1;
    var init, ln := lines[..n], lines[n];
    assert lines == init + [ln];
    ContentSnoc(init, ln);
    if n == 0 {
      assert init == [];
    } else {
      SameWhenLed(init);
      if Content(init) != [] {
        ReadSnoc(Content(init), Trim(ln));
      }
    }
  }

  lemma {:induction false} ReferenceKey(lines: seq<string>)
    requires lines != [] && Trim(lines[0]) == ""
    ensures Reference(lines).l1Key == "" || HasPrefix(Reference(lines).l1Key, "l1/")
  {
    if |lines| == 1 {
      assert lines[..0] == [];
    } else {
      ReferenceKey(lines[..|lines| - 1]);
    }
  }

  /** The scan reads a manifest as the split reader did exactly when the first line is not
      blank, or the first line that is not blank is an L1 key, or all are blank. */
  lemma ScanIsSplitIff(s: string)
    ensures Reference(Lines(s)) == Read(Content(Lines(s))) <==> LeadsWithL1(Lines(s))
  {
    if LeadsWithL1(Lines(s)) {
      SameWhenLed(Lines(s));
    } else {
      ReferenceKey(Lines(s));
    }
  }

  lemma BlankThenKey()
    ensures Lines("\nl0/a") == ["", "l0/a"]
  {
    var s, k := "\nl0/a", "l0/a";
    assert s[1..] == k && s[..0] == "";
    assert BreakAt(k) == 4 by {
      assert forall j :: 0 <= j < |k| ==> k[j] != '\n';
    }
    assert Lines(s) == [""] + [k];
  }

  /** A blank line before an L0 key: the scan takes the L0 key for the L1 key. */
  lemma BlankLineMisread()
    ensures Read(Content(Lines("\nl0/a"))) == Manifest("l0/a", [])
    ensures Reference(Lines("\nl0/a")) == Manifest("", ["l0/a"])
  {
    var k := "l0/a";
    BlankThenKey();
    assert Trim(k) == k;
    var none: seq<string> := [];
    assert ["", k][1..] == [k] && [k][1..] == none && ["", k][..1] == [""] && [""][..0] == none;
    assert Content([k]) == [k];
  }

  // ---- Round trip ------------------------------------------------------------------------------------

  predicate NoSpaces(s: string) {
    forall i :: 0 <= i < |s| ==> !Space(s[i])
  }

  lemma TrimKeeps(s: string)
    requires NoSpaces(s)
    ensures Trim(s) == s
  {
  }

  lemma {:induction false} LinesBreak(s: string, t: string)
    requires NoSpaces(s)
    ensures Lines(s + "\n" + t) == [s] + Lines(t)
  {
    var u := s + "\n" + t;
    assert forall j :: 0 <= j < |s| ==> u[j] == s[j] && !Space(s[j]);
    assert u[|s|] == '\n';
    assert BreakAt(u) == |s|;
    assert u[..|s|] == s && u[|s| + 1..] == t;
  }

  lemma {:induction false} BodyCons(k: string, keys: seq<string>)
    ensures Body([k] + keys) == k + "\n" + Body(keys)
  {
    var all := [k] + keys;
    if keys == [] {
      assert all[..0] == [];
    } else {
      var n := |keys| - 1;
      assert all[..|all| - 1] == [k] + keys[..n];
      BodyCons(k, keys[..n]);
    }
  }

  lemma {:induction false} ContentOfBody(keys: seq<string>)
    requires forall i :: 0 <= i < |keys| ==> keys[i] != "" && NoSpaces(keys[i])
    ensures Content(Lines(Body(keys))) == keys
  {
    if keys == [] {
      assert Lines("") == [""] && Trim("") == "" && [""][1..] == [];
    } else {
      var k, rest := keys[0], keys[1..];
      assert keys == [k] + rest;
      BodyCons(k, rest);
      LinesBreak(k, Body(rest));
      TrimKeeps(k);
      ContentOfBody(rest);
      assert ([k] + Lines(Body(rest)))[1..] == Lines(Body(rest));
    }
  }

  lemma {:induction false} L0OnlyKeeps(keys: seq<string>)
    requires forall i :: 0 <= i < |keys| ==> HasPrefix(keys[i], "l0/")
    ensures L0Only(keys) == keys
  {
    if keys != [] {
      L0OnlyKeeps(keys[..|keys| - 1]);
    }
  }

  lemma KeyHasNoSpaces(t: Tier, hex: string, n: int)
    requires NoSpaces(hex)
    ensures NoSpaces(KeyFor(t, hex, n)) && KeyFor(t, hex, n) != "" && HasPrefix(KeyFor(t, hex, n), Prefix(t))
  {
    assert NoSpaces(FormatInt(n));
    assert NoSpaces(Prefix(t)) && NoSpaces(Suffix(t)) && NoSpaces("/");
  }

  /** The L0 keys of an entity's files, by first system time. */
  function L0Keys(hex: string, times: seq<int>): seq<string> {
    seq(|times|, i requires 0 <= i < |times| => KeyFor(L0, hex, times[i]))
  }

  /** A manifest of generated names reads back as it was written. */
  lemma ManifestRoundTrip(hex: string, l1: int, times: seq<int>)
    requires NoSpaces(hex)
    ensures Read(Content(Lines(Body([KeyFor(L1, hex, l1)] + L0Keys(hex, times)))))
         == Manifest(KeyFor(L1, hex, l1), L0Keys(hex, times))
  {
    var keys := L0Keys(hex, times);
    var all := [KeyFor(L1, hex, l1)] + keys;
    KeyHasNoSpaces(L1, hex, l1);
    forall i | 0 <= i < |keys| ensures keys[i] != "" && NoSpaces(keys[i]) && HasPrefix(keys[i], "l0/") {
      KeyHasNoSpaces(L0, hex, times[i]);
    }
    ContentOfBody(all);
    assert all[1..] == keys;
    L0OnlyKeeps(keys);
  }
}
