/** The memtable as one caller sees it: a write is sanitised, packed and put; a full arena is
    handed to the flusher and replaced. */
module MemTable {
  import opened Bytes
  import opened SkipOrder
  import opened SkipMemory
  import opened SkipArena
  import opened Packing
  import Pii

  /** The bytes of an event's key and value. */
  function DataOf(e: Event): nat {
    40 + (54 + |e.id| + |e.payload|)
  }

  /** The bytes it needs besides the head: its slot and those. */
  function Footprint(e: Event): nat {
    DataOf(e) + NODE
  }

  /** The test made before an arena is touched. */
  predicate Preflight(e: Event, arenaSize: nat) {
    Footprint(e) + NODE <= arenaSize
  }

  /** An event passes the test exactly when it fits an arena that holds nothing. */
  lemma PreflightIffFits(e: Event, arenaSize: nat)
    requires EventOk(e)
    ensures Preflight(e, arenaSize) <==> Room(arenaSize, NODE, arenaSize, 40 + |ValueOf(e)|)
  {
  }

  function Sum(handed: seq<seq<Entry>>): multiset<Entry> {
    if handed == [] then multiset{} else Sum(handed[..|handed| - 1]) + multiset(handed[|handed| - 1])
  }

  lemma SumSnoc(handed: seq<seq<Entry>>, es: seq<Entry>)
    ensures Sum(handed + [es]) == Sum(handed) + multiset(es)
  {
    assert (handed + [es])[..|handed|] == handed;
  }

  /** What an event becomes. */
  function Sanitised(digest: Pii.Digest, e: Event): Event {
    e.(payload := Pii.Mask(digest, e.payload))
  }

  /** The fields an event has by its type alone. */
  predicate Typed(e: Event) {
    |e.digest| == 32 && IsU64(e.h3) && IsI64(e.sysT) && IsI64(e.vs) && IsI64(e.ve) && IsI64(e.ast)
  }

  predicate Accepts(digest: Pii.Digest, e: Event, utf8: bool, arenaSize: nat) {
    |e.id| < U16 && utf8 && Preflight(Sanitised(digest, e), arenaSize)
  }

  /** The tests as they are made on the masked event. */
  lemma AcceptedIff(digest: Pii.Digest, e: Event, utf8: bool, sane: Event, arenaSize: nat)
    requires sane == Sanitised(digest, e) && Typed(e) && NODE <= arenaSize < U32
    ensures Accepts(digest, e, utf8, arenaSize) <==> |e.id| <= 65535 && utf8 && Footprint(sane) <= arenaSize - NODE
    ensures Accepts(digest, e, utf8, arenaSize)
       <==> |e.id| <= 65535 && utf8 && 94 + |e.id| + |Pii.Mask(digest, e.payload)| + 2 * NODE <= arenaSize
    ensures Accepts(digest, e, utf8, arenaSize) ==> EventOk(sane) && Preflight(sane, arenaSize)
  {
  }

  function EntryFor(hash: seq<Byte>, e: Event): Entry
    requires EventOk(e)
  {
    Entry(KeyOf(hash, e), ValueOf(e))
  }

  class MemTable {
    const arenaSize: nat
    const maxEntries: nat
    var active: SkipListArena
    var closed: bool
    /** The arenas handed to the flusher, oldest first. */
    var handed: seq<seq<Entry>>

    ghost predicate Valid()
      reads this, active, active.arena
    {
      && NODE <= arenaSize && arenaSize + NODE < U32 && active.Valid() && active.arena.Length == arenaSize
      && (active.nodeCount == 0 ==> active.nodeTop == NODE && active.dataBottom == arenaSize)
    }

    /** Every entry written so far, as often as it was. */
    ghost function All(): multiset<Entry>
      requires Valid()
      reads this, active, active.arena
    {
      Sum(handed) + multiset(active.Entries())
    }

    constructor (arenaSize: nat, maxEntries: nat)
      requires NODE <= arenaSize && arenaSize + NODE < U32
      ensures Valid() && !closed && handed == [] && active.Entries() == []
      ensures this.arenaSize == arenaSize && this.maxEntries == maxEntries && fresh(active) && fresh(active.arena)
    {
      this.arenaSize, this.maxEntries := arenaSize, maxEntries;
      closed, handed := false, [];
      active := new SkipListArena(arenaSize);
    }

    /** Replaces the active arena and hands the old one over. */
    method Swap()
      requires Valid() && active.nodeCount > 0
      modifies this`active, this`handed
      ensures Valid() && fresh(active) && fresh(active.arena) && active.nodeCount == 0 && active.Entries() == []
      ensures handed == old(handed) + [old(active.Entries())] && All() == old(All())
    {
      var es := active.Drain();
      SumSnoc(handed, es);
      handed := handed + [es];
      active := new SkipListArena(arenaSize);
    }

    /** An arena with nothing in it stays; otherwise a flush must be allowed to start. */
    method SwapAndFlushAsync(capacity: bool) returns (ok: bool)
      requires Valid()
      modifies this`active, this`handed
      ensures Valid() && All() == old(All()) && ok == (old(active.nodeCount) == 0 || capacity)
      ensures ok ==> active.nodeCount == 0
      ensures active == old(active) || (fresh(active) && fresh(active.arena))
      ensures !ok || old(active.nodeCount) == 0 ==> active == old(active) && handed == old(handed)
    {
      if active.nodeCount == 0 {
        return true;
      }
      if !capacity {
        return false;
      }
      Swap();
      return true;
    }

    /** Puts an entry into the active arena. */
    method PutActive(h: nat, key: Key, val: seq<Byte>) returns (ok: bool)
      requires Valid() && 1 <= h <= 11 && Room(arenaSize, NODE, arenaSize, |key| + |val|)
      modifies active, active.arena
      ensures Valid() && (ok ==> All() == old(All()) + multiset{Entry(key, val)}) && (!ok ==> All() == old(All()))
      ensures ok == Room(arenaSize, old(active.nodeTop), old(active.dataBottom), |key| + |val|)
      ensures old(active.nodeCount) == 0 ==> ok
      ensures !ok ==> active.nodeCount == old(active.nodeCount) > 0
    {
      ghost var es := active.Entries();
      EntriesSorted(active.nodes, active.chain, active.height);
      WithEntrySorted(es, Entry(key, val));
      ok := active.Put(h, key, val);
    }

    /** One retry: replace the full arena, put again. An arena that holds nothing has room for
        whatever passed the size test. */
    method Retry(h: nat, key: Key, val: seq<Byte>, capacity: bool) returns (ok: bool)
      requires Valid() && 1 <= h <= 11 && Room(arenaSize, NODE, arenaSize, |key| + |val|) && active.nodeCount > 0
      modifies this`active, this`handed, active, active.arena
      ensures Valid() && ok == capacity
      ensures ok ==> All() == old(All()) + multiset{Entry(key, val)}
      ensures !ok ==> All() == old(All())
    {
      var swapped := SwapAndFlushAsync(capacity);
      if !swapped {
        return false;
      }
      ok := PutActive(h, key, val);
    }

    method PutRetrying(h: nat, key: Key, val: seq<Byte>, capacity: bool) returns (ok: bool)
      requires Valid() && 1 <= h <= 11 && Room(arenaSize, NODE, arenaSize, |key| + |val|)
      modifies this`active, this`handed, active, active.arena
      ensures Valid() && ok == (capacity || Room(arenaSize, old(active.nodeTop), old(active.dataBottom), |key| + |val|))
      ensures ok ==> All() == old(All()) + multiset{Entry(key, val)}
      ensures !ok ==> All() == old(All())
    {
      ghost var room := Room(arenaSize, active.nodeTop, active.dataBottom, |key| + |val|);
      ok := PutActive(h, key, val);
      var attempt := 0;
      while !ok && attempt < 3
        invariant Valid() && (attempt == 0 ==> ok == room) && (attempt > 0 ==> ok && capacity)
        invariant !ok ==> active == old(active) && active.nodeCount > 0 && All() == old(All())
        invariant ok ==> All() == old(All()) + multiset{Entry(key, val)}
        decreases 3 - attempt
      {
        ok := Retry(h, key, val, capacity);
        if !ok {
          return;
        }
        attempt := attempt + 1;
      }
    }

    /** The active arena takes `data` bytes more without a flush: it holds nothing, or it is
        below its quota and has the room. */
    predicate Holds(data: nat)
      reads this, active
    {
      active.nodeCount == 0
      || (active.nodeCount < maxEntries && Room(arenaSize, active.nodeTop, active.dataBottom, data))
    }

    /** Swaps an arena that holds its quota, then puts. */
    method PutWithin(h: nat, key: Key, val: seq<Byte>, capacity: bool) returns (ok: bool)
      requires Valid() && 1 <= h <= 11 && Room(arenaSize, NODE, arenaSize, |key| + |val|)
      modifies this`active, this`handed, active, active.arena
      ensures Valid() && ok == (capacity || old(Holds(|key| + |val|)))
      ensures ok ==> All() == old(All()) + multiset{Entry(key, val)}
      ensures !ok ==> All() == old(All())
    {
      if active.nodeCount >= maxEntries {
        var swapped := SwapAndFlushAsync(capacity);
        if !swapped {
          return false;
        }
      }
      ok := PutRetrying(h, key, val, capacity);
    }

    /** Packs an event that passed the size test, and puts it. */
    method PutEvent(h: nat, hash: seq<Byte>, e: Event, capacity: bool) returns (ok: bool)
      requires Valid() && 1 <= h <= 11 && |hash| == 16 && EventOk(e) && Preflight(e, arenaSize)
      modifies this`active, this`handed, active, active.arena
      ensures Valid() && ok == (capacity || old(Holds(DataOf(e))))
      ensures ok ==> All() == old(All()) + multiset{EntryFor(hash, e)}
      ensures !ok ==> All() == old(All())
    {
      PreflightIffFits(e, arenaSize);
      ok := PutWithin(h, KeyOf(hash, e), ValueOf(e), capacity);
    }

    /** Writes an event. It is refused for a long or malformed id, for its size or because the
        table is closed, or because a flush is needed and may not start, and then nothing
        changes; otherwise its sanitised form is in exactly one place more. */
    method Write(digest: Pii.Digest, hash: seq<Byte>, e: Event, utf8: bool, h: nat, capacity: bool) returns (ok: bool)
      requires Valid() && Typed(e) && |hash| == 16 && 1 <= h <= 11
      modifies this`active, this`handed, active, active.arena
      ensures Valid()
      ensures ok == (Accepted(digest, e, utf8) && !closed && (capacity || old(Holds(DataOf(Sanitised(digest, e))))))
      ensures ok ==> All() == old(All()) + multiset{EntryFor(hash, Sanitised(digest, e))}
      ensures !ok ==> All() == old(All())
    {
      ghost var data := DataOf(Sanitised(digest, e));
      ghost var room := Holds(data);
      if |e.id| > 65535 || !utf8 {
        return false;
      }
      var masked, _ := Pii.MaskPII(digest, e.payload);
      var sane := e.(payload := masked);
      AcceptedIff(digest, e, utf8, sane, arenaSize);
      if Footprint(sane) > arenaSize - NODE {
        return false;
      }
      if closed {
        return false;
      }
      assert DataOf(sane) == data && Holds(data) == room;
      ok := PutEvent(h, hash, sane, capacity);
    }

    /** The tests an event must pass. */
    predicate Accepted(digest: Pii.Digest, e: Event, utf8: bool)
      ensures Accepted(digest, e, utf8) && Typed(e) && arenaSize < U32 ==> EventOk(Sanitised(digest, e))
    {
      Accepts(digest, e, utf8, arenaSize)
    }

    /** Hands over whatever the active arena holds. */
    method Flush()
      requires Valid()
      modifies this`active, this`handed
      ensures Valid() && active.Entries() == [] && All() == old(All()) == Sum(handed)
    {
      if active.nodeCount > 0 {
        Swap();
      }
    }

    /** Rejects later writes and hands over the last arena: then every entry ever written
        has been handed to the flusher, once. */
    method Close()
      requires Valid()
      modifies this`active, this`handed, this`closed
      ensures Valid() && closed && Sum(handed) == old(All())
    {
      closed := true;
      Flush();
    }
  }
}
