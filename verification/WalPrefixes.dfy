/** Whole records of a log, as byte ranges of its file: taking them away, repeating them or
    reordering them is noticed unless a prefix of the file is left. */
module WalPrefixes {
  import opened Basics
  import opened Bytes
  import opened WalRecords
  import opened WalReplay

  /** The bytes of one whole record. */
  predicate Whole(r: seq<Byte>) {
    |r| >= 13 && |r| == 13 + HeadOf(r).len
  }

  /** The byte ranges of the whole records at the front of `data`. */
  function Ranges(data: seq<Byte>): (rs: seq<seq<Byte>>)
    decreases |data|
  {
    if |data| < 13 || |data| < 13 + HeadOf(data).len then []
    else [data[..13 + HeadOf(data).len]] + Ranges(data[13 + HeadOf(data).len..])
  }

  function Join(rs: seq<seq<Byte>>): seq<Byte> {
    if rs == [] then [] else rs[0] + Join(rs[1..])
  }

  predicate AllWhole(rs: seq<seq<Byte>>) {
    forall i :: 0 <= i < |rs| ==> Whole(rs[i])
  }

  function PieceOf(r: seq<Byte>): Piece
    requires Whole(r)
  {
    PieceAt(r, HeadOf(r))
  }

  function Pieces(rs: seq<seq<Byte>>): (ps: seq<Piece>)
    requires AllWhole(rs)
    ensures |ps| == |rs| && forall i :: 0 <= i < |ps| ==> ps[i] == PieceOf(rs[i])
  {
    seq(|rs|, i requires 0 <= i < |rs| => PieceOf(rs[i]))
  }

  // ---- Ranges and records ---------------------------------------------------------------------------

  lemma HeadOfFront(r: seq<Byte>, rest: seq<Byte>)
    requires |r| >= 13
    ensures HeadOf(r + rest) == HeadOf(r)
  {
    var data := r + rest;
    assert data[..8] == r[..8] && data[9..][..4] == r[9..][..4];
  }

  lemma RangesWhole(data: seq<Byte>, n: nat)
    requires |data| >= 13 && n == 13 + HeadOf(data).len <= |data|
    ensures Whole(data[..n]) && PieceOf(data[..n]) == PieceAt(data, HeadOf(data))
  {
    assert data == data[..n] + data[n..];
    HeadOfFront(data[..n], data[n..]);
  }

  /** The ranges are the records that are parsed, and the front of the data. */
  lemma {:induction false} RangesParse(data: seq<Byte>)
    ensures AllWhole(Ranges(data)) && Pieces(Ranges(data)) == Parse(data).pieces && Join(Ranges(data)) <= data
    decreases |data|
  {
    if |data| >= 13 && |data| >= 13 + HeadOf(data).len {
      var n := 13 + HeadOf(data).len;
      RangesWhole(data, n);
      RangesParse(data[n..]);
      RangesCons(data[..n], Ranges(data[n..]), Ranges(data));
      assert data == data[..n] + data[n..];
    }
  }

  lemma RangesCons(r: seq<Byte>, rs: seq<seq<Byte>>, all: seq<seq<Byte>>)
    requires Whole(r) && AllWhole(rs) && all == [r] + rs
    ensures AllWhole(all) && Pieces(all) == [PieceOf(r)] + Pieces(rs) && Join(all) == r + Join(rs)
  {
    assert all[1..] == rs && all[0] == r;
    assert AllWhole(all);
    PiecesCons(all);
  }

  lemma PiecesCons(rs: seq<seq<Byte>>)
    requires rs != [] && AllWhole(rs)
    ensures Pieces(rs) == [PieceOf(rs[0])] + Pieces(rs[1..])
  {
    var ps, qs := Pieces(rs), Pieces(rs[1..]);
    assert forall i :: 0 <= i < |qs| ==> ps[i + 1] == qs[i];
  }

  function After(ps: seq<Piece>, p: Parsed): Parsed {
    p.(pieces := ps + p.pieces)
  }

  lemma AfterTwice(a: seq<Piece>, b: seq<Piece>, p: Parsed)
    ensures After(a, After(b, p)) == After(a + b, p)
  {
    assert a + (b + p.pieces) == (a + b) + p.pieces;
  }

  lemma ParseRange(r: seq<Byte>, rest: seq<Byte>)
    requires Whole(r)
    ensures Parse(r + rest) == After([PieceOf(r)], Parse(rest))
  {
    var data := r + rest;
    HeadOfFront(r, rest);
    assert data[|r|..] == rest && data[13..|r|] == r[13..];
    assert r[13..] == r[13..13 + HeadOf(r).len];
  }

  /** Ranges laid end to end parse to their records, whatever follows them. */
  lemma {:induction false} ParseJoin(rs: seq<seq<Byte>>, rest: seq<Byte>)
    requires AllWhole(rs)
    ensures Parse(Join(rs) + rest) == After(Pieces(rs), Parse(rest))
  {
    if rs == [] {
      assert Join(rs) + rest == rest && Pieces(rs) + Parse(rest).pieces == Parse(rest).pieces;
    } else {
      JoinCons(rs, rest);
      ParseRange(rs[0], Join(rs[1..]) + rest);
      ParseJoin(rs[1..], rest);
      AfterTwice([PieceOf(rs[0])], Pieces(rs[1..]), Parse(rest));
      PiecesCons(rs);
    }
  }

  lemma JoinCons(rs: seq<seq<Byte>>, rest: seq<Byte>)
    requires rs != []
    ensures Join(rs) + rest == rs[0] + (Join(rs[1..]) + rest)
  {
  }

  lemma ParseJoinAlone(rs: seq<seq<Byte>>)
    requires AllWhole(rs)
    ensures Parse(Join(rs)) == Parsed(Pieces(rs), None)
  {
    ParseJoin(rs, []);
    assert Join(rs) + [] == Join(rs) && Pieces(rs) + [] == Pieces(rs);
  }

  lemma {:induction false} JoinPrefix(rs: seq<seq<Byte>>, n: nat)
    requires n <= |rs|
    ensures Join(rs[..n]) <= Join(rs)
  {
    if n > 0 {
      assert rs[..n][1..] == rs[1..][..n - 1];
      JoinPrefix(rs[1..], n - 1);
    }
  }

  // ---- Picking ranges ---------------------------------------------------------------------------------

  predicate InRange(picks: seq<nat>, n: nat) {
    forall i :: 0 <= i < |picks| ==> picks[i] < n
  }

  /** Ranges picked in any order and with any repetition. */
  function Picked(rs: seq<seq<Byte>>, picks: seq<nat>): (out: seq<seq<Byte>>)
    requires InRange(picks, |rs|)
    ensures |out| == |picks| && forall i :: 0 <= i < |out| ==> out[i] == rs[picks[i]]
  {
    seq(|picks|, i requires 0 <= i < |picks| => rs[picks[i]])
  }

  lemma PickedRecords(decode: Decoder, rs: seq<seq<Byte>>, picks: seq<nat>)
    requires AllWhole(rs) && InRange(picks, |rs|)
    ensures AllWhole(Picked(rs, picks))
    ensures Decoded(decode, Pieces(Picked(rs, picks))) == Pick(Decoded(decode, Pieces(rs)), picks)
  {
  }

  lemma InPlaceIsPrefix(rs: seq<seq<Byte>>, picks: seq<nat>, data: seq<Byte>)
    requires InRange(picks, |rs|) && |picks| <= |rs| && (forall i :: 0 <= i < |picks| ==> picks[i] == i)
    requires Join(rs) <= data
    ensures Join(Picked(rs, picks)) <= data
  {
    assert Picked(rs, picks) == rs[..|picks|];
    JoinPrefix(rs, |picks|);
  }

  /** A byte prefix made of whole records has the first records of the log. */
  lemma PrefixReplays(decode: Decoder, rs: seq<seq<Byte>>, data: seq<Byte>)
    requires AllWhole(rs) && Join(rs) <= data && ReplayRecords(Decoded(decode, Parse(data).pieces)).Ok?
    ensures ReplayRecords(Decoded(decode, Pieces(rs))).Ok?
  {
    var rest := data[|Join(rs)|..];
    assert data == Join(rs) + rest;
    ParseJoin(rs, rest);
    DecodedConcat(decode, Pieces(rs), Parse(rest).pieces);
    PrefixAccepted(Decoded(decode, Pieces(rs)), Decoded(decode, Parse(rest).pieces));
  }

  /** The file with its records replaced by picked ones. */
  function Rebuilt(file: seq<Byte>, picks: seq<nat>): seq<Byte>
    requires |file| >= 8 && InRange(picks, |Ranges(file[8..])|)
  {
    file[..8] + Join(Picked(Ranges(file[8..]), picks))
  }

  lemma RebuiltReplays(decode: Decoder, file: seq<Byte>, picks: seq<nat>)
    requires HeaderOk(file) && InRange(picks, |Ranges(file[8..])|)
    ensures AllWhole(Ranges(file[8..])) && AllWhole(Picked(Ranges(file[8..]), picks))
    ensures ReplayBy(decode, Rebuilt(file, picks)) == ReplayRecords(Decoded(decode, Pieces(Picked(Ranges(file[8..]), picks))))
  {
    var rs := Ranges(file[8..]);
    RangesParse(file[8..]);
    PickedRecords(decode, rs, picks);
    var picked := Picked(rs, picks);
    ParseJoinAlone(picked);
    ReplayAfterHeader(decode, file, Join(picked), Pieces(picked));
  }

  lemma ReplayAfterHeader(decode: Decoder, file: seq<Byte>, data: seq<Byte>, pieces: seq<Piece>)
    requires HeaderOk(file) && Parse(data) == Parsed(pieces, None)
    ensures ReplayBy(decode, file[..8] + data) == ReplayRecords(Decoded(decode, pieces))
  {
    var cut := file[..8] + data;
    assert cut[..4] == file[..4] && cut[4..6] == file[4..6] && cut[8..] == data;
  }

  lemma OnlyPrefixesBy(decode: Decoder, file: seq<Byte>, picks: seq<nat>)
    requires ReplayBy(decode, file).Ok? && |Ranges(file[8..])| <= U64 && |picks| <= U64
    requires InRange(picks, |Ranges(file[8..])|)
    ensures ReplayBy(decode, Rebuilt(file, picks)).Ok? <==> Rebuilt(file, picks) <= file
  {
    var data := file[8..];
    var rs := Ranges(data);
    var picked := Picked(rs, picks);
    RangesParse(data);
    RebuiltReplays(decode, file, picks);
    var records := Decoded(decode, Pieces(rs));
    assert Rebuilt(file, picks) <= file <==> Join(picked) <= data by { FrontEqual(file, Join(picked)); }
    if ReplayBy(decode, Rebuilt(file, picks)).Ok? {
      PickedRecords(decode, rs, picks);
      PickedInPlace(records, picks);
      InPlaceIsPrefix(rs, picks, data);
    } else if Join(picked) <= data {
      PrefixReplays(decode, picked, data);
    }
  }

  lemma FrontEqual(file: seq<Byte>, tail: seq<Byte>)
    requires |file| >= 8
    ensures file[..8] + tail <= file <==> tail <= file[8..]
  {
    var cut := file[..8] + tail;
    if tail <= file[8..] {
      assert file == file[..8] + file[8..];
    }
    if cut <= file {
      assert cut[8..] == tail && file[..|cut|] == cut;
      assert file[8..][..|tail|] == file[..|cut|][8..];
    }
  }

  /** A file rebuilt from the byte ranges of whole records of an accepted log, some left out,
      some repeated, in any order, is accepted exactly when it is a byte prefix of the log. */
  lemma OnlyBytePrefixes(file: seq<Byte>, picks: seq<nat>)
    requires Replay(file).Ok? && |Ranges(file[8..])| <= U64 && |picks| <= U64
    requires InRange(picks, |Ranges(file[8..])|)
    ensures Replay(Rebuilt(file, picks)).Ok? <==> Rebuilt(file, picks) <= file
  {
    OnlyPrefixesBy(Decode, file, picks);
  }
}
