/** Flushing a frozen arena: the sorted entries are cut into one partition per entity. */
module Flusher {
  import opened Basics
  import opened Bytes
  import opened SkipOrder
  import opened SkipArena
  import opened Packing
  import ObjectKeys
  import R = Rows
  import Merging
  import Store

  datatype Partition = Partition(hash: seq<Byte>, firstSys: int, rows: seq<Row>)

  predicate AllReadable(es: seq<Entry>) {
    forall i :: 0 <= i < |es| ==> Readable(es[i].key, es[i].val)
  }

  /** The rows of the entries, without those of pruned entities. */
  function Rows(es: seq<Entry>, pruned: set<seq<Byte>>): seq<Row>
    requires AllReadable(es)
  {
    if es == [] then []
    else
      var before, r := Rows(es[..|es| - 1], pruned), Unpack(es[|es| - 1].key, es[|es| - 1].val);
      if r.event.id in pruned then before else before + [r]
  }

  /** Consecutive rows of one hash, under that hash and the first row's system time. */
  function Groups(rows: seq<Row>): seq<Partition> {
    if rows == [] then [] else AddRow(Groups(rows[..|rows| - 1]), rows[|rows| - 1])
  }

  function AddRow(parts: seq<Partition>, r: Row): seq<Partition> {
    if parts != [] && parts[|parts| - 1].hash == r.hash then
      parts[..|parts| - 1] + [parts[|parts| - 1].(rows := parts[|parts| - 1].rows + [r])]
    else parts + [Partition(r.hash, r.event.sysT, [r])]
  }

  function Flat(parts: seq<Partition>): seq<Row> {
    if parts == [] then [] else Flat(parts[..|parts| - 1]) + parts[|parts| - 1].rows
  }

  // ---- Nothing is lost and each partition is one entity --------------------------------------------

  lemma FlatAdd(parts: seq<Partition>, r: Row)
    ensures Flat(AddRow(parts, r)) == Flat(parts) + [r]
  {
    var n := |parts| - 1;
    if parts != [] && parts[n].hash == r.hash {
      var last := parts[n].(rows := parts[n].rows + [r]);
      assert (parts[..n] + [last])[..n] == parts[..n];
      assert Flat(parts[..n]) + (parts[n].rows + [r]) == Flat(parts[..n]) + parts[n].rows + [r];
    } else {
      var one := Partition(r.hash, r.event.sysT, [r]);
      assert (parts + [one])[..|parts|] == parts;
    }
  }

  lemma KeepAdd(parts: seq<Partition>, init: seq<Row>, r: Row, rows: seq<Row>, all: seq<Partition>)
    requires Flat(parts) == init && rows == init + [r] && all == AddRow(parts, r)
    ensures Flat(all) == rows
  {
    FlatAdd(parts, r);
  }

  lemma GroupsSnoc(rows: seq<Row>, r: Row)
    ensures Groups(rows + [r]) == AddRow(Groups(rows), r)
  {
    assert (rows + [r])[..|rows|] == rows;
  }

  /** All rows, in order. */
  lemma {:induction false} GroupsKeepRows(rows: seq<Row>)
    ensures Flat(Groups(rows)) == rows
  {
    if rows != [] {
      var n := |rows| - 1;
      GroupsKeepRows(rows[..n]);
      KeepAdd(Groups(rows[..n]), rows[..n], rows[n], rows, Groups(rows));
    }
  }

  /** A partition holds rows of its own entity alone, and is named after the first. */
  predicate PartOk(p: Partition) {
    p.rows != [] && p.firstSys == p.rows[0].event.sysT && forall i :: 0 <= i < |p.rows| ==> p.rows[i].hash == p.hash
  }

  predicate PartsOk(parts: seq<Partition>) {
    forall i :: 0 <= i < |parts| ==> PartOk(parts[i])
  }

  lemma {:induction false} GroupsAreEntities(rows: seq<Row>)
    ensures PartsOk(Groups(rows)) && (rows != [] ==> Groups(rows) != [])
  {
    if rows != [] {
      var n := |rows| - 1;
      GroupsAreEntities(rows[..n]);
      AddOk(Groups(rows[..n]), rows[n], Groups(rows));
    }
  }

  lemma AddOk(parts: seq<Partition>, r: Row, all: seq<Partition>)
    requires PartsOk(parts) && all == AddRow(parts, r)
    ensures PartsOk(all) && all != []
  {
  }

  // ---- Sorted rows ----------------------------------------------------------------------------------

  /** The row as a reader of the uploaded file has it. */
  function Written(r: Row): R.Row {
    var e := r.event;
    R.Row(e.id, e.sysT, e.vs, e.ve, e.ast, e.h3, e.digest, e.payload)
  }

  /** A row does not come before another it follows: not by hash, and under one hash not in the
      order of the three times that a merge sorts by. */
  predicate RowLeq(a: Row, b: Row) {
    !Less(b.hash, a.hash) && (a.hash == b.hash ==> Merging.KeyLeq(Written(a), Written(b)))
  }

  predicate RowsSorted(rows: seq<Row>) {
    forall i, j :: 0 <= i < j < |rows| ==> RowLeq(rows[i], rows[j])
  }

  lemma UnpackTimes(e: Entry)
    requires Readable(e.key, e.val)
    ensures Unpack(e.key, e.val).hash == e.key[..16]
    ensures var u := Unpack(e.key, e.val).event;
            && ToU64(u.sysT) == FromBE(e.key[16..24]) && ToU64(u.vs) == FromBE(e.key[24..32])
            && ToU64(u.ast) == FromBE(e.key[32..40])
  {
    Widths();
  }

  lemma EntriesLeq(a: Entry, b: Entry)
    requires Readable(a.key, a.val) && Readable(b.key, b.val) && !Less(b.key, a.key)
    ensures RowLeq(Unpack(a.key, a.val), Unpack(b.key, b.val))
  {
    KeysInOrder(a.key, b.key);
    UnpackTimes(a);
    UnpackTimes(b);
  }

  /** Each row comes from an entry. */
  lemma {:induction false} RowSource(es: seq<Entry>, pruned: set<seq<Byte>>, i: nat) returns (k: nat)
    requires AllReadable(es) && i < |Rows(es, pruned)|
    ensures k < |es| && Rows(es, pruned)[i] == Unpack(es[k].key, es[k].val)
  {
    var n := |es| - 1;
    var before := Rows(es[..n], pruned);
    if i < |before| {
      k := RowSource(es[..n], pruned, i);
    } else {
      k := n;
    }
  }

  lemma {:induction false} RowsInOrder(es: seq<Entry>, pruned: set<seq<Byte>>)
    requires AllReadable(es) && Sorted(EntryKeys(es))
    ensures RowsSorted(Rows(es, pruned))
  {
    if es != [] {
      var n := |es| - 1;
      assert Sorted(EntryKeys(es[..n])) by {
        assert forall i :: 0 <= i < n ==> EntryKeys(es[..n])[i] == EntryKeys(es)[i];
      }
      RowsInOrder(es[..n], pruned);
      var before := Rows(es[..n], pruned);
      forall i | 0 <= i < |before| ensures RowLeq(before[i], Unpack(es[n].key, es[n].val)) {
        var k := RowSource(es[..n], pruned, i);
        assert !Less(EntryKeys(es)[n], EntryKeys(es)[k]);
        EntriesLeq(es[k], es[n]);
      }
      SortedSnoc(before, Unpack(es[n].key, es[n].val));
    }
  }

  lemma SortedSnoc(rows: seq<Row>, r: Row)
    requires RowsSorted(rows) && forall i :: 0 <= i < |rows| ==> RowLeq(rows[i], r)
    ensures RowsSorted(rows + [r])
  {
  }

  // ---- One partition per entity --------------------------------------------------------------------------

  predicate HashesRise(parts: seq<Partition>) {
    forall i, j :: 0 <= i < j < |parts| ==> Less(parts[i].hash, parts[j].hash)
  }

  lemma {:induction false} GroupsRise(rows: seq<Row>)
    requires RowsSorted(rows)
    ensures HashesRise(Groups(rows))
    ensures rows != [] ==> Groups(rows) != [] && Groups(rows)[|Groups(rows)| - 1].hash == rows[|rows| - 1].hash
  {
    if rows != [] {
      var n := |rows| - 1;
      GroupsRise(rows[..n]);
      assert n > 0 ==> RowLeq(rows[n - 1], rows[n]);
      AddRises(Groups(rows[..n]), rows[n], Groups(rows));
    }
  }

  lemma AddRises(parts: seq<Partition>, r: Row, all: seq<Partition>)
    requires HashesRise(parts) && (parts != [] ==> !Less(r.hash, parts[|parts| - 1].hash)) && all == AddRow(parts, r)
    ensures HashesRise(all) && all != [] && all[|all| - 1].hash == r.hash
  {
    if parts != [] && parts[|parts| - 1].hash != r.hash {
      var last := parts[|parts| - 1];
      LessTotal(last.hash, r.hash);
      forall i | 0 <= i < |parts| - 1 ensures Less(parts[i].hash, r.hash) {
        LessTrans(parts[i].hash, last.hash, r.hash);
      }
    }
  }

  // ---- The time in the name ----------------------------------------------------------------------------------

  lemma {:induction false} InPart(parts: seq<Partition>, k: nat, i: nat) returns (at: nat)
    requires k < |parts| && i < |parts[k].rows|
    ensures at + (|parts[k].rows| - i) <= |Flat(parts)|
    ensures forall j :: i <= j < |parts[k].rows| ==> Flat(parts)[at + j - i] == parts[k].rows[j]
  {
    var n := |parts| - 1;
    if k < n {
      at := InPart(parts[..n], k, i);
      assert Flat(parts[..n]) <= Flat(parts);
    } else {
      at := |Flat(parts[..n])| + i;
    }
  }

  /** The rows of a partition are in order. */
  lemma PartSorted(rows: seq<Row>, k: nat, i: nat, j: nat)
    requires RowsSorted(rows) && k < |Groups(rows)| && i < j < |Groups(rows)[k].rows|
    ensures RowLeq(Groups(rows)[k].rows[i], Groups(rows)[k].rows[j])
  {
    GroupsKeepRows(rows);
    FlatSorted(Groups(rows), rows, k, i, j);
  }

  lemma FlatSorted(parts: seq<Partition>, rows: seq<Row>, k: nat, i: nat, j: nat)
    requires RowsSorted(rows) && Flat(parts) == rows && k < |parts| && i < j < |parts[k].rows|
    ensures RowLeq(parts[k].rows[i], parts[k].rows[j])
  {
    var at := InPart(parts, k, i);
    assert rows[at] == parts[k].rows[i] && rows[at + j - i] == parts[k].rows[j];
  }

  predicate IsMin(p: Partition) {
    forall i :: 0 <= i < |p.rows| ==> p.firstSys <= p.rows[i].event.sysT
  }

  predicate OneSign(p: Partition) {
    (forall i :: 0 <= i < |p.rows| ==> p.rows[i].event.sysT >= 0) || (forall i :: 0 <= i < |p.rows| ==> p.rows[i].event.sysT < 0)
  }

  predicate RowsOk(rows: seq<Row>) {
    forall i :: 0 <= i < |rows| ==> IsI64(rows[i].event.sysT)
  }

  /** The number in a partition's name is its least system time exactly when its system times
      are all negative or none is: the keys order them as unsigned words. */
  lemma FirstIsMinIff(rows: seq<Row>, k: nat)
    requires RowsSorted(rows) && RowsOk(rows) && k < |Groups(rows)|
    ensures IsMin(Groups(rows)[k]) <==> OneSign(Groups(rows)[k])
  {
    GroupsAreEntities(rows);
    var p := Groups(rows)[k];
    assert PartOk(p);
    PartRowsOk(rows, k);
    forall j | 0 <= j < |p.rows| ensures ToU64(p.firstSys) <= ToU64(p.rows[j].event.sysT) {
      if j > 0 {
        PartSorted(rows, k, 0, j);
      }
    }
    if IsMin(p) && p.firstSys < 0 {
      assert forall j :: 0 <= j < |p.rows| ==> ToU64(p.firstSys) <= ToU64(p.rows[j].event.sysT);
    }
  }

  // ---- The file of a partition ---------------------------------------------------------------------------

  function FileOf(p: Partition): seq<R.Row> {
    seq(|p.rows|, i requires 0 <= i < |p.rows| => Written(p.rows[i]))
  }

  /** The partition belongs in the directory of `eid` whose names have `width` digits. */
  predicate Belongs(p: Partition, eid: seq<int>, width: nat) {
    Store.NameOk(p.firstSys, width) && forall i :: 0 <= i < |p.rows| ==> p.rows[i].event.id == eid && p.rows[i].event.sysT > 0
  }

  /** The file flushed for a partition is one that compactions and queries may rely on, sorted
      by system, valid and assertion time, exactly when all its rows carry the one entity id and
      positive system times and its name has the directory's width. */
  lemma FlushedFileOkIff(es: seq<Entry>, pruned: set<seq<Byte>>, k: nat, eid: seq<int>, width: nat)
    requires AllReadable(es) && Sorted(EntryKeys(es)) && k < |Groups(Rows(es, pruned))|
    ensures var p := Groups(Rows(es, pruned))[k]; Store.FileOk(FileOf(p), eid, width) <==> Belongs(p, eid, width)
  {
    var rows := Rows(es, pruned);
    RowsInOrder(es, pruned);
    GroupsAreEntities(rows);
    var p := Groups(rows)[k];
    assert PartOk(p);
    forall i, j | 0 <= i < j < |p.rows| ensures Merging.KeyLeq(Written(p.rows[i]), Written(p.rows[j])) {
      PartSorted(rows, k, i, j);
    }
    FileOkIff(p, eid, width);
  }

  lemma FileOkIff(p: Partition, eid: seq<int>, width: nat)
    requires PartOk(p)
    requires forall i, j :: 0 <= i < j < |p.rows| ==> Merging.KeyLeq(Written(p.rows[i]), Written(p.rows[j]))
    ensures Store.FileOk(FileOf(p), eid, width) <==> Belongs(p, eid, width)
  {
    var f := FileOf(p);
    assert f[0] == Written(p.rows[0]) && Merging.KeySorted(f);
    if Store.FileOk(f, eid, width) {
      forall i | 0 <= i < |p.rows| ensures p.rows[i].event.id == eid && p.rows[i].event.sysT > 0 {
        assert f[i] in f && f[i] == Written(p.rows[i]);
      }
    }
  }

  lemma PartRowsOk(rows: seq<Row>, k: nat)
    requires RowsOk(rows) && k < |Groups(rows)|
    ensures RowsOk(Groups(rows)[k].rows)
  {
    GroupsKeepRows(rows);
    forall j | 0 <= j < |Groups(rows)[k].rows| ensures IsI64(Groups(rows)[k].rows[j].event.sysT) {
      var at := InPart(Groups(rows), k, j);
      assert rows[at] == Groups(rows)[k].rows[j];
    }
  }

  function HexOf(bytes: seq<Byte>): (s: string)
    ensures |s| == 2 * |bytes|
  {
    if bytes == [] then ""
    else HexOf(bytes[..|bytes| - 1]) + [HexDigit(bytes[|bytes| - 1] / 16) as char, HexDigit(bytes[|bytes| - 1] % 16) as char]
  }

  /** The name a partition is uploaded under: the first half of its hash and its first time. */
  function NameOf(p: Partition): string
    requires |p.hash| >= 8
  {
    ObjectKeys.KeyFor(ObjectKeys.L0, HexOf(p.hash[..8]), p.firstSys)
  }

  lemma {:induction false} HexInjective(a: seq<Byte>, b: seq<Byte>)
    requires |a| == |b| && HexOf(a) == HexOf(b)
    ensures a == b
  {
    if a != [] {
      var n := |a| - 1;
      var s, t := HexOf(a), HexOf(b);
      assert s[..2 * n] == HexOf(a[..n]) && t[..2 * n] == HexOf(b[..n]);
      HexInjective(a[..n], b[..n]);
      assert s[2 * n] == HexDigit(a[n] / 16) as char && s[2 * n + 1] == HexDigit(a[n] % 16) as char;
      assert t[2 * n] == HexDigit(b[n] / 16) as char && t[2 * n + 1] == HexDigit(b[n] % 16) as char;
      assert a == a[..n] + [a[n]] && b == b[..n] + [b[n]];
    }
  }

  /** Partitions share a name only when they share the first half of their hashes and their first
      time. */
  lemma NamesApart(p: Partition, q: Partition)
    requires |p.hash| >= 8 && |q.hash| >= 8 && IsI64(p.firstSys) && IsI64(q.firstSys) && NameOf(p) == NameOf(q)
    ensures p.hash[..8] == q.hash[..8] && p.firstSys == q.firstSys
  {
    var a, b := HexOf(p.hash[..8]), HexOf(q.hash[..8]);
    ObjectKeys.KeyHex(ObjectKeys.L0, a, p.firstSys);
    ObjectKeys.KeyHex(ObjectKeys.L0, b, q.firstSys);
    HexInjective(p.hash[..8], q.hash[..8]);
    ObjectKeys.KeyInjective(ObjectKeys.L0, a, p.firstSys, q.firstSys);
  }

  /** A number read back from the name is the partition's first time, and no row with a
      system time that is not negative lies below it: what a reader may skip a file by. */
  lemma NameBoundsRows(rows: seq<Row>, k: nat, n: int)
    requires RowsSorted(rows) && RowsOk(rows) && k < |Groups(rows)| && |Groups(rows)[k].hash| >= 8
    requires ObjectKeys.ParseFirstSys(NameOf(Groups(rows)[k])) == Some(n)
    ensures var p := Groups(rows)[k];
            && n == p.firstSys >= 0
            && forall i :: 0 <= i < |p.rows| && p.rows[i].event.sysT >= 0 ==> n <= p.rows[i].event.sysT
  {
    var p := Groups(rows)[k];
    GroupsAreEntities(rows);
    assert PartOk(p);
    PartRowsOk(rows, k);
    ObjectKeys.KeyRoundTrip(ObjectKeys.L0, HexOf(p.hash[..8]), p.firstSys);
    forall j | 0 <= j < |p.rows| && p.rows[j].event.sysT >= 0 ensures n <= p.rows[j].event.sysT {
      if j > 0 {
        PartSorted(rows, k, 0, j);
      }
    }
  }

  // ---- The flush ------------------------------------------------------------------------------------------

  /** All partitions but the last are settled, whatever rows follow. */
  predicate Settled(some: seq<Partition>, all: seq<Partition>) {
    |some| <= |all| && forall i :: 0 <= i < |some| - 1 ==> all[i] == some[i]
  }

  lemma AddSettles(some: seq<Partition>, parts: seq<Partition>, r: Row)
    requires Settled(some, parts)
    ensures Settled(some, AddRow(parts, r))
  {
  }

  lemma {:induction false} GroupsSettled(rows: seq<Row>, more: seq<Row>)
    ensures Settled(Groups(rows), Groups(rows + more))
  {
    if more == [] {
      assert rows + more == rows;
    } else {
      var n := |more| - 1;
      GroupsSettled(rows, more[..n]);
      assert rows + more == (rows + more[..n]) + [more[n]];
      GroupsSnoc(rows + more[..n], more[n]);
      AddSettles(Groups(rows), Groups(rows + more[..n]), more[n]);
    }
  }

  lemma {:induction false} RowsPrefix(es: seq<Entry>, pruned: set<seq<Byte>>, i: nat)
    requires AllReadable(es) && i <= |es|
    ensures AllReadable(es[..i]) && Rows(es[..i], pruned) <= Rows(es, pruned)
  {
    if i == |es| {
      assert es[..i] == es;
    } else {
      var init := es[..|es| - 1];
      RowsPrefix(init, pruned, i);
      assert init[..i] == es[..i];
    }
  }

  lemma RowsNext(es: seq<Entry>, pruned: set<seq<Byte>>, i: nat)
    requires AllReadable(es) && i < |es|
    ensures AllReadable(es[..i]) && AllReadable(es[..i + 1])
    ensures var r := Unpack(es[i].key, es[i].val);
            Rows(es[..i + 1], pruned) == if r.event.id in pruned then Rows(es[..i], pruned) else Rows(es[..i], pruned) + [r]
  {
    assert es[..i + 1][..i] == es[..i];
  }

  /** The partition being built, if any, after those already emitted. */
  predicate Building(rows: seq<Row>, parts: seq<Partition>, cur: Option<Partition>) {
    Groups(rows) == parts + (if cur.Some? then [cur.value] else []) && (cur.None? ==> parts == [])
  }

  lemma BuildingNext(rows: seq<Row>, parts: seq<Partition>, cur: Option<Partition>, r: Row)
    requires Building(rows, parts, cur)
    ensures cur.Some? && cur.value.hash == r.hash ==>
              Building(rows + [r], parts, Some(cur.value.(rows := cur.value.rows + [r])))
    ensures cur.Some? && cur.value.hash != r.hash ==>
              Building(rows + [r], parts + [cur.value], Some(Partition(r.hash, r.event.sysT, [r])))
    ensures cur.None? ==> Building(rows + [r], [], Some(Partition(r.hash, r.event.sysT, [r])))
  {
    GroupsSnoc(rows, r);
    if cur.Some? {
      assert (parts + [cur.value])[..|parts|] == parts;
    }
  }

  /** Takes one row: the current partition goes on, or is emitted and another begun. */
  method TakeRow(ghost rows: seq<Row>, parts: seq<Partition>, cur: Option<Partition>, r: Row, fails: nat)
    returns (parts': seq<Partition>, cur': Option<Partition>, ok: bool)
    requires Building(rows, parts, cur) && |parts| <= fails
    ensures ok ==> Building(rows + [r], parts', cur') && |parts'| <= fails
    ensures !ok ==> parts' == parts && |parts| == fails && |Groups(rows + [r])| == fails + 2
    ensures !ok ==> forall i :: 0 <= i < fails ==> Groups(rows + [r])[i] == parts[i]
  {
    BuildingNext(rows, parts, cur, r);
    parts', cur', ok := parts, cur, true;
    if cur.Some? && cur.value.hash != r.hash {
      if |parts| == fails {
        return parts, cur, false;
      }
      parts', cur' := parts + [cur.value], None;
    }
    if cur'.None? {
      cur' := Some(Partition(r.hash, r.event.sysT, [r]));
    } else {
      cur' := Some(cur'.value.(rows := cur'.value.rows + [r]));
    }
  }

  /** A failed emission leaves what was emitted before it. */
  lemma StoppedEarly(rows: seq<Row>, all: seq<Row>, parts: seq<Partition>)
    requires rows <= all && |Groups(rows)| == |parts| + 2
    requires forall k :: 0 <= k < |parts| ==> Groups(rows)[k] == parts[k]
    ensures |Groups(all)| > |parts| && parts == Groups(all)[..|parts|]
  {
    assert rows + all[|rows|..] == all;
    GroupsSettled(rows, all[|rows|..]);
    PrefixOfSettled(Groups(rows), Groups(all), parts);
  }

  lemma PrefixOfSettled(some: seq<Partition>, all: seq<Partition>, parts: seq<Partition>)
    requires Settled(some, all) && |some| == |parts| + 2 && forall k :: 0 <= k < |parts| ==> some[k] == parts[k]
    ensures |all| > |parts| && parts == all[..|parts|]
  {
  }

  /** One pass over the entries. `fails` is the number of the partition whose emission fails,
      and ends the flush with an error; those before it have been emitted. */
  method FlushArenaToIPC(es: seq<Entry>, pruned: set<seq<Byte>>, fails: nat) returns (parts: seq<Partition>, ok: bool)
    requires AllReadable(es)
    ensures ok <==> |Groups(Rows(es, pruned))| <= fails
    ensures parts == if ok then Groups(Rows(es, pruned)) else Groups(Rows(es, pruned))[..fails]
  {
    parts, ok := [], true;
    var cur: Option<Partition> := None;
    for i := 0 to |es|
      invariant Building(Rows(es[..i], pruned), parts, cur) && |parts| <= fails
    {
      var r := Unpack(es[i].key, es[i].val);
      RowsNext(es, pruned, i);
      if r.event.id !in pruned {
        parts, cur, ok := TakeRow(Rows(es[..i], pruned), parts, cur, r, fails);
        if !ok {
          RowsPrefix(es, pruned, i + 1);
          StoppedEarly(Rows(es[..i + 1], pruned), Rows(es, pruned), parts);
          return;
        }
      }
    }
    assert es[..|es|] == es;
    if cur.Some? {
      if |parts| == fails {
        return parts, false;
      }
      parts := parts + [cur.value];
    }
    ok := true;
  }
}
