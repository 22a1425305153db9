/** From the memtable to the files of the directory: what was written as an event is what a
    reader of the flushed file finds, column by column. */
module FlushedRows {
  import opened Basics
  import opened Bytes
  import opened SkipOrder
  import opened SkipArena
  import opened Packing
  import opened Flusher
  import R = Rows

  /** Entry `i` is event `i` as it was packed, under hash `i`. */
  predicate Packs(es: seq<Entry>, hashes: seq<seq<Byte>>, events: seq<Event>) {
    && |es| == |hashes| == |events|
    && forall i :: 0 <= i < |es| ==> EventOk(events[i]) && |hashes[i]| == 16 && es[i] == Entry(KeyOf(hashes[i], events[i]), ValueOf(events[i]))
  }

  /** The row carries the event in all its columns. */
  predicate Carries(row: R.Row, e: Event) {
    && row.eid == e.id && row.sysT == e.sysT && row.vs == e.vs && row.ve == e.ve && row.ast == e.ast
    && row.h3 == e.h3 && row.digest == e.digest && row.payload == e.payload
  }

  /** A query sees the row exactly when its coordinates admit the event. */
  lemma CarriedVisible(row: R.Row, e: Event, q: R.Query)
    requires Carries(row, e)
    ensures R.Visible(row, q) <==> e.id == q.eid && e.sysT <= q.txTime && e.vs <= q.validTime < e.ve
  {
  }

  predicate Rising(at: seq<nat>) {
    forall a, b :: 0 <= a < b < |at| ==> at[a] < at[b]
  }

  // ---- Rows and entries --------------------------------------------------------------------------

  predicate UnpacksTo(es: seq<Entry>, us: seq<Row>) {
    |us| == |es| && forall i :: 0 <= i < |es| ==> Readable(es[i].key, es[i].val) && Unpack(es[i].key, es[i].val) == us[i]
  }

  /** The rows that were packed. */
  function Packed(hashes: seq<seq<Byte>>, events: seq<Event>): (us: seq<Row>)
    requires |hashes| == |events|
    ensures |us| == |events| && forall i :: 0 <= i < |us| ==> us[i] == Row(hashes[i], events[i])
  {
    seq(|events|, i requires 0 <= i < |events| => Row(hashes[i], events[i]))
  }

  lemma Unpacks(es: seq<Entry>, hashes: seq<seq<Byte>>, events: seq<Event>)
    requires Packs(es, hashes, events)
    ensures UnpacksTo(es, Packed(hashes, events))
  {
    forall i | 0 <= i < |es|
      ensures Readable(es[i].key, es[i].val) && Unpack(es[i].key, es[i].val) == Row(hashes[i], events[i])
    {
      PackRoundTrip(hashes[i], events[i]);
    }
  }

  /** The rows without those of pruned entities. */
  function Unpruned(us: seq<Row>, pruned: set<seq<Byte>>): seq<Row> {
    if us == [] then []
    else Unpruned(us[..|us| - 1], pruned) + (if us[|us| - 1].event.id in pruned then [] else [us[|us| - 1]])
  }

  lemma ReadableAll(es: seq<Entry>, us: seq<Row>)
    requires UnpacksTo(es, us)
    ensures AllReadable(es)
  {
  }

  lemma UnpackedLast(es: seq<Entry>, us: seq<Row>)
    requires UnpacksTo(es, us) && es != []
    ensures var n := |es| - 1;
            UnpacksTo(es[..n], us[..n]) && Readable(es[n].key, es[n].val) && Unpack(es[n].key, es[n].val) == us[n]
  {
  }

  lemma {:induction false} RowsUnpruned(es: seq<Entry>, us: seq<Row>, pruned: set<seq<Byte>>)
    requires UnpacksTo(es, us)
    ensures AllReadable(es) && Rows(es, pruned) == Unpruned(us, pruned)
  {
    if es != [] {
      var n := |es| - 1;
      UnpackedLast(es, us);
      RowsUnpruned(es[..n], us[..n], pruned);
      ReadableAll(es, us);
      assert es[..n + 1] == es;
      RowsNext(es, pruned, n);
    }
  }

  /** The places of the rows that are kept. */
  ghost predicate KeptAt(us: seq<Row>, pruned: set<seq<Byte>>, kept: seq<Row>, at: seq<nat>) {
    && |at| == |kept| && Rising(at)
    && (forall m :: 0 <= m < |at| ==> at[m] < |us| && kept[m] == us[at[m]])
    && (forall i :: 0 <= i < |us| ==> (i in at <==> us[i].event.id !in pruned))
  }

  lemma {:induction false} UnprunedAt(us: seq<Row>, pruned: set<seq<Byte>>) returns (at: seq<nat>)
    ensures KeptAt(us, pruned, Unpruned(us, pruned), at)
  {
    if us == [] {
      at := [];
    } else {
      var init, last := us[..|us| - 1], us[|us| - 1];
      at := UnprunedAt(init, pruned);
      assert us == init + [last];
      if last.event.id in pruned {
        KeptSkip(init, last, pruned, Unpruned(init, pruned), at);
      } else {
        KeptJoin(init, last, pruned, Unpruned(init, pruned), at);
        at := at + [|init|];
      }
    }
  }

  lemma KeptSkip(init: seq<Row>, last: Row, pruned: set<seq<Byte>>, kept: seq<Row>, at: seq<nat>)
    requires KeptAt(init, pruned, kept, at) && last.event.id in pruned
    ensures KeptAt(init + [last], pruned, kept + [], at)
  {
    var us := init + [last];
    assert kept + [] == kept && |init| !in at;
    forall i | 0 <= i < |us| ensures i in at <==> us[i].event.id !in pruned {
      assert i < |init| ==> us[i] == init[i];
    }
  }

  lemma KeptJoin(init: seq<Row>, last: Row, pruned: set<seq<Byte>>, kept: seq<Row>, at: seq<nat>)
    requires KeptAt(init, pruned, kept, at) && last.event.id !in pruned
    ensures KeptAt(init + [last], pruned, kept + [last], at + [|init|])
  {
    var us, more := init + [last], at + [|init|];
    forall i | 0 <= i < |us| ensures i in more <==> us[i].event.id !in pruned {
      if i < |init| {
        assert us[i] == init[i] && (i in more <==> i in at);
      } else {
        assert more[|at|] == i;
      }
    }
  }

  // ---- Rows and files -----------------------------------------------------------------------------

  lemma {:induction false} FlatAt(parts: seq<Partition>, k: nat, j: nat)
    requires k < |parts| && j < |parts[k].rows|
    ensures var m := |Flat(parts[..k])| + j; m < |Flat(parts)| && Flat(parts)[m] == parts[k].rows[j]
  {
    var n := |parts| - 1;
    if k < n {
      FlatAt(parts[..n], k, j);
      assert parts[..n][..k] == parts[..k];
    }
  }

  lemma {:induction false} Locate(parts: seq<Partition>, m: nat) returns (k: nat, j: nat)
    requires m < |Flat(parts)|
    ensures k < |parts| && j < |parts[k].rows| && |Flat(parts[..k])| + j == m
  {
    var n := |parts| - 1;
    if m < |Flat(parts[..n])| {
      k, j := Locate(parts[..n], m);
      assert parts[..n][..k] == parts[..k];
    } else {
      k, j := n, m - |Flat(parts[..n])|;
    }
  }

  /** Row `j` of file `k` carries the event at `at`, counted through all files. */
  predicate FileRow(parts: seq<Partition>, k: nat, j: nat, at: seq<nat>, hashes: seq<seq<Byte>>, events: seq<Event>)
    requires k < |parts| && j < |parts[k].rows|
  {
    var m := |Flat(parts[..k])| + j;
    && m < |at| && at[m] < |events| == |hashes|
    && Carries(FileOf(parts[k])[j], events[at[m]]) && parts[k].hash == hashes[at[m]]
  }

  ghost predicate FilesHold(parts: seq<Partition>, at: seq<nat>, hashes: seq<seq<Byte>>, events: seq<Event>) {
    && |Flat(parts)| == |at|
    && (forall k :: 0 <= k < |parts| ==> |FileOf(parts[k])| == |parts[k].rows|)
    && forall k, j :: 0 <= k < |parts| && 0 <= j < |parts[k].rows| ==> FileRow(parts, k, j, at, hashes, events)
  }

  /** The files of a flush hold exactly the events that are not pruned, each once and in order:
      row by row, every column is the event's own, and the file is the one of its hash. */
  lemma FilesHoldEvents(es: seq<Entry>, hashes: seq<seq<Byte>>, events: seq<Event>, pruned: set<seq<Byte>>)
    returns (at: seq<nat>)
    requires Packs(es, hashes, events)
    ensures AllReadable(es) && Rising(at)
    ensures forall i :: 0 <= i < |events| ==> (i in at <==> events[i].id !in pruned)
    ensures FilesHold(Groups(Rows(es, pruned)), at, hashes, events)
  {
    var us := Packed(hashes, events);
    Unpacks(es, hashes, events);
    RowsUnpruned(es, us, pruned);
    at := UnprunedAt(us, pruned);
    GroupsHold(us, Unpruned(us, pruned), pruned, at, hashes, events);
  }

  lemma GroupsHold(us: seq<Row>, rows: seq<Row>, pruned: set<seq<Byte>>, at: seq<nat>, hashes: seq<seq<Byte>>, events: seq<Event>)
    requires |hashes| == |events| && us == Packed(hashes, events) && KeptAt(us, pruned, rows, at)
    ensures FilesHold(Groups(rows), at, hashes, events)
  {
    var parts := Groups(rows);
    GroupsKeepRows(rows);
    GroupsAreEntities(rows);
    forall k, j | 0 <= k < |parts| && 0 <= j < |parts[k].rows| ensures FileRow(parts, k, j, at, hashes, events) {
      var m := |Flat(parts[..k])| + j;
      FlatAt(parts, k, j);
      assert PartOk(parts[k]);
      PlacedRow(parts, k, j, m, us[at[m]], at, hashes, events);
    }
  }

  lemma PlacedRow(parts: seq<Partition>, k: nat, j: nat, m: nat, r: Row, at: seq<nat>, hashes: seq<seq<Byte>>, events: seq<Event>)
    requires k < |parts| && j < |parts[k].rows| && PartOk(parts[k]) && m == |Flat(parts[..k])| + j < |at|
    requires at[m] < |events| == |hashes| && r == Row(hashes[at[m]], events[at[m]]) && parts[k].rows[j] == r
    ensures FileRow(parts, k, j, at, hashes, events)
  {
    RowCarries(parts[k], j, hashes[at[m]], events[at[m]]);
  }

  lemma RowCarries(p: Partition, j: nat, hash: seq<Byte>, e: Event)
    requires j < |p.rows| && p.rows[j] == Row(hash, e)
    ensures Carries(FileOf(p)[j], e)
  {
  }

  /** An event that was written and is not pruned is in the file of its hash. */
  lemma EventInFile(es: seq<Entry>, hashes: seq<seq<Byte>>, events: seq<Event>, pruned: set<seq<Byte>>, i: nat)
    returns (k: nat, j: nat)
    requires Packs(es, hashes, events) && i < |events| && events[i].id !in pruned
    ensures AllReadable(es) && k < |Groups(Rows(es, pruned))|
    ensures var p := Groups(Rows(es, pruned))[k]; j < |FileOf(p)| && p.hash == hashes[i] && Carries(FileOf(p)[j], events[i])
  {
    var at := FilesHoldEvents(es, hashes, events, pruned);
    k, j := RowOf(Groups(Rows(es, pruned)), at, hashes, events, i);
  }

  lemma RowOf(parts: seq<Partition>, at: seq<nat>, hashes: seq<seq<Byte>>, events: seq<Event>, i: nat) returns (k: nat, j: nat)
    requires FilesHold(parts, at, hashes, events) && i in at && i < |events| == |hashes|
    ensures k < |parts| && j < |FileOf(parts[k])| && parts[k].hash == hashes[i] && Carries(FileOf(parts[k])[j], events[i])
  {
    var m :| 0 <= m < |at| && at[m] == i;
    k, j := Locate(parts, m);
    assert FileRow(parts, k, j, at, hashes, events);
  }
}
