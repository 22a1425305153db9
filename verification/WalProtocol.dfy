/** The log as its appenders share it: records are written and numbered under a mutex, the
    mutex is released before the file is synced, and the call returns only after the sync.
    Any number of crashes and reopenings may fall between any two steps. */
module WalProtocol {
  import opened Basics
  import opened Bytes
  import opened WalRecords
  import opened WalReplay
  import opened WalMeaning
  import opened WalLog

  /** How events become records, and which events an appender accepts. Nothing below
      depends on the encoding beyond the width of the length field. */
  datatype Codec = Codec(frame: Event -> Raw, ok: Event -> bool)

  ghost predicate Fits(c: Codec) {
    forall e :: c.ok(e) ==> |c.frame(e).payload| < U32
  }

  predicate AllOk(c: Codec, events: seq<Event>) {
    forall i :: 0 <= i < |events| ==> c.ok(events[i])
  }

  function File(c: Codec, events: seq<Event>): seq<Byte> {
    HEADER + Log(Map(c.frame, events), 0)
  }

  /** How far a released append has come: its records are in the file; a sync is under way
      for everything the file then held; the call has returned success. */
  datatype Phase = Written | Syncing(mark: nat) | Acked

  /** An append or batch whose records took the numbers from `at` on. */
  datatype Append = Append(at: nat, events: seq<Event>, phase: Phase)

  /** The holder of the mutex: its turn, where it began, and how many records it has written. */
  datatype Holder = Holder(turn: nat, at: nat, events: seq<Event>, done: nat)

  /** `file` is what the operating system holds, of which the first `durable` bytes are
      certain to survive a crash; `turns` counts how often the mutex was taken. */
  datatype Wal = Wal(
    file: seq<Byte>, durable: nat, nextSeq: nat, open: bool,
    turns: nat, lock: Option<Holder>, appends: map<nat, Append>)

  /** The state after a new log was created. */
  const FRESH: Wal := Wal(HEADER, 8, 0, true, 0, None, map[])

  datatype Step =
    | Lock(events: seq<Event>)     // an appender takes the mutex
    | Write                        // the holder writes one record and consumes its number
    | Unlock                       // the holder has written all and releases the mutex
    | GiveUp                       // a record was refused or a write failed; the call returns an error
    | SyncBegin(turn: nat)         // an appender asks for its sync
    | Flush(n: nat)                // the operating system makes more of the file durable
    | SyncOk(turn: nat)            // the sync and the call return success
    | SyncFail(turn: nat)          // the sync and the call return an error
    | Close
    | Crash(n: nat)                // the first `n` bytes survive, every running call is gone
    | Reopen

  /** When a step can happen. A sync that succeeds has made durable what the file held when
      it began; a crash keeps at least what is durable. */
  predicate Enabled(c: Codec, w: Wal, s: Step) {
    match s
    case Lock(events) => w.open && w.lock.None? && AllOk(c, events)
    case Write => w.lock.Some? && w.lock.value.done < |w.lock.value.events| && w.nextSeq + 1 < U64
    case Unlock => w.lock.Some? && w.lock.value.done == |w.lock.value.events|
    case GiveUp => w.lock.Some?
    case SyncBegin(t) => t in w.appends && w.appends[t].phase.Written?
    case Flush(n) => w.durable <= n <= |w.file|
    case SyncOk(t) => t in w.appends && w.appends[t].phase.Syncing? && w.appends[t].phase.mark <= w.durable
    case SyncFail(t) => t in w.appends && w.appends[t].phase.Syncing?
    case Close => w.open && w.lock.None?
    case Crash(n) => w.durable <= n <= |w.file|
    case Reopen => !w.open && w.lock.None? && |w.file| >= 8
  }

  function Apply(c: Codec, w: Wal, s: Step): Wal
    requires Enabled(c, w, s)
  {
    match s
    case Lock(events) => w.(turns := w.turns + 1, lock := Some(Holder(w.turns, w.nextSeq, events, 0)))
    case Write => WriteNext(c, w, w.lock.value)
    case Unlock => Released(w, w.lock.value)
    case GiveUp => w.(lock := None)
    case SyncBegin(t) => WithPhase(w, t, Syncing(|w.file|))
    case Flush(n) => w.(durable := n)
    case SyncOk(t) => WithPhase(w, t, Acked)
    case SyncFail(t) => w.(appends := w.appends - {t})
    case Close => w.(open := false)
    case Crash(n) => w.(file := w.file[..n], open := false, lock := None, appends := AckedOf(w.appends))
    case Reopen => Reopened(w, Repaired(w.file))
  }

  function WriteNext(c: Codec, w: Wal, h: Holder): Wal
    requires h.done < |h.events|
  {
    w.(file := w.file + RecordBytes(w.nextSeq, c.frame(h.events[h.done])), nextSeq := w.nextSeq + 1,
       lock := Some(h.(done := h.done + 1)))
  }

  function Released(w: Wal, h: Holder): Wal {
    w.(lock := None, appends := w.appends[h.turn := Append(h.at, h.events, Written)])
  }

  function WithPhase(w: Wal, t: nat, p: Phase): Wal
    requires t in w.appends
  {
    w.(appends := w.appends[t := w.appends[t].(phase := p)])
  }

  function AckedOf(appends: map<nat, Append>): map<nat, Append> {
    map t | t in appends && appends[t].phase.Acked? :: appends[t]
  }

  function Reopened(w: Wal, file: seq<Byte>): Wal
    requires |w.file| >= 8
  {
    w.(file := file, durable := if w.durable <= |file| then w.durable else |file|,
       nextSeq := ScanOf(Parse(w.file[8..]).pieces).nextSeq, open := true)
  }

  // ---- The invariant ----------------------------------------------------------------------------------------

  /** Where the records end: `Ends(..)[k]` is the byte after the first `k` of them. */
  function Ends(c: Codec, events: seq<Event>): (ends: seq<nat>)
    ensures |ends| == |events| + 1 && ends[0] == 8
  {
    if events == [] then [8]
    else
      var n, before := |events| - 1, Ends(c, events[..|events| - 1]);
      before + [before[n] + 13 + |c.frame(events[n]).payload|]
  }

  /** The append's events stand where its records were numbered. */
  predicate Placed(a: Append, events: seq<Event>) {
    a.at + |a.events| <= |events| && events[a.at..a.at + |a.events|] == a.events
  }

  /** The file is what was written for `events`, or after a crash the part of it that
      survived; an open log continues with the next number. */
  predicate FileInv(c: Codec, w: Wal, events: seq<Event>) {
    && AllOk(c, events) && |events| < U64
    && 8 <= w.durable <= |w.file| <= |File(c, events)| && w.file == File(c, events)[..|w.file|]
    && (w.open ==> w.file == File(c, events) && w.nextSeq == |events|)
  }

  predicate AppendInv(a: Append, events: seq<Event>, ends: seq<nat>, size: nat, durable: nat)
    requires |ends| == |events| + 1
  {
    && Placed(a, events)
    && var end := ends[a.at + |a.events|];
       && end <= size
       && (a.phase.Syncing? ==> end <= a.phase.mark)
       && (a.phase.Acked? ==> end <= durable)
  }

  predicate AppendsInv(w: Wal, events: seq<Event>, ends: seq<nat>)
    requires |ends| == |events| + 1
  {
    forall t :: t in w.appends ==> t < w.turns && AppendInv(w.appends[t], events, ends, |w.file|, w.durable)
  }

  /** Appends that took the mutex earlier have the earlier records. */
  predicate InOrder(appends: map<nat, Append>) {
    forall t, u :: t in appends && u in appends && t < u ==> appends[t].at + |appends[t].events| <= appends[u].at
  }

  predicate HolderInv(c: Codec, w: Wal, events: seq<Event>) {
    w.lock.Some? ==>
      var h := w.lock.value;
      && w.open && h.turn < w.turns && h.done <= |h.events| && AllOk(c, h.events)
      && h.at + h.done == |events| && events[h.at..] == h.events[..h.done]
      && forall t :: t in w.appends ==> t < h.turn && w.appends[t].at + |w.appends[t].events| <= h.at
  }

  predicate Inv(c: Codec, w: Wal, events: seq<Event>) {
    FileInv(c, w, events) && AppendsInv(w, events, Ends(c, events)) && InOrder(w.appends) && HolderInv(c, w, events)
  }

  // ---- The file of a list of events -------------------------------------------------------------------------

  lemma OneMore(c: Codec, events: seq<Event>, e: Event)
    ensures File(c, events + [e]) == File(c, events) + RecordBytes(|events|, c.frame(e))
  {
    var a := Map(c.frame, events);
    assert [e][..0] == [];
    MapConcat(c.frame, events, [e]);
    FileConcat(a, [c.frame(e)]);
    assert [c.frame(e)][1..] == [];
    assert Log([c.frame(e)], |a|) == RecordBytes(|a|, c.frame(e)) + [];
  }

  lemma EndsSnoc(c: Codec, events: seq<Event>, e: Event)
    ensures Ends(c, events) <= Ends(c, events + [e])
  {
    assert (events + [e])[..|events|] == events;
  }

  lemma {:induction false} EndsPrefix(c: Codec, events: seq<Event>, k: nat)
    requires k <= |events|
    ensures Ends(c, events[..k]) <= Ends(c, events)
  {
    if k == |events| {
      assert events[..k] == events;
    } else {
      var init := events[..|events| - 1];
      EndsPrefix(c, init, k);
      assert init[..k] == events[..k];
    }
  }

  /** The last entry is the greatest. */
  predicate Capped(ends: seq<nat>) {
    forall j :: 0 <= j < |ends| ==> ends[j] <= ends[|ends| - 1]
  }

  lemma {:induction false} EndsCapped(c: Codec, events: seq<Event>)
    ensures Capped(Ends(c, events))
  {
    if events != [] {
      EndsCapped(c, events[..|events| - 1]);
    }
  }

  lemma {:induction false} FileEnd(c: Codec, events: seq<Event>)
    ensures |File(c, events)| == Ends(c, events)[|events|]
  {
    if events != [] {
      var n := |events| - 1;
      FileEnd(c, events[..n]);
      OneMore(c, events[..n], events[n]);
      assert events[..n] + [events[n]] == events;
    }
  }

  lemma WholePrefix<T>(s: seq<T>)
    ensures s[..|s|] == s
  {
  }

  // ---- Steps that leave the file ------------------------------------------------------------------------------

  lemma SameFile(c: Codec, w: Wal, events: seq<Event>, w': Wal)
    requires FileInv(c, w, events) && w'.file == w.file && w'.durable == w.durable && w'.nextSeq == w.nextSeq
    requires w'.open ==> w.open
    ensures FileInv(c, w', events)
  {
  }

  lemma PhaseKeeps(c: Codec, w: Wal, events: seq<Event>, ends: seq<nat>, t: nat, p: Phase)
    requires |ends| == |events| + 1 && AppendsInv(w, events, ends)
    requires InOrder(w.appends) && HolderInv(c, w, events) && t in w.appends
    requires AppendInv(w.appends[t].(phase := p), events, ends, |w.file|, w.durable)
    ensures var w' := WithPhase(w, t, p); AppendsInv(w', events, ends) && InOrder(w'.appends) && HolderInv(c, w', events)
  {
  }

  lemma SyncPhase(a: Append, events: seq<Event>, ends: seq<nat>, size: nat, durable: nat, p: Phase)
    requires |ends| == |events| + 1 && AppendInv(a, events, ends, size, durable)
    requires p == Syncing(size) || (p == Acked && a.phase.Syncing? && a.phase.mark <= durable)
    ensures AppendInv(a.(phase := p), events, ends, size, durable)
  {
  }

  lemma SyncKeeps(c: Codec, w: Wal, events: seq<Event>, t: nat, p: Phase)
    requires Inv(c, w, events) && t in w.appends
    requires p == Syncing(|w.file|) || (p == Acked && w.appends[t].phase.Syncing? && w.appends[t].phase.mark <= w.durable)
    ensures Inv(c, WithPhase(w, t, p), events)
  {
    SyncPhase(w.appends[t], events, Ends(c, events), |w.file|, w.durable, p);
    PhaseKeeps(c, w, events, Ends(c, events), t, p);
    SameFile(c, w, events, WithPhase(w, t, p));
  }

  lemma FlushKeeps(c: Codec, w: Wal, events: seq<Event>, n: nat)
    requires Inv(c, w, events) && w.durable <= n <= |w.file|
    ensures Inv(c, w.(durable := n), events)
  {
    MoreDurable(w, events, Ends(c, events), n);
  }

  lemma MoreDurable(w: Wal, events: seq<Event>, ends: seq<nat>, n: nat)
    requires |ends| == |events| + 1 && AppendsInv(w, events, ends) && w.durable <= n
    ensures AppendsInv(w.(durable := n), events, ends)
  {
  }

  lemma SyncFailKeeps(c: Codec, w: Wal, events: seq<Event>, t: nat)
    requires Inv(c, w, events)
    ensures Inv(c, w.(appends := w.appends - {t}), events)
  {
  }

  lemma LockKeeps(c: Codec, w: Wal, events: seq<Event>, s: Step)
    requires Inv(c, w, events) && Enabled(c, w, s) && (s.Lock? || s.GiveUp? || s.Close?)
    ensures Inv(c, Apply(c, w, s), events)
  {
    SameFile(c, w, events, Apply(c, w, s));
  }

  lemma UnlockPlaces(h: Holder, events: seq<Event>, ends: seq<nat>, size: nat, durable: nat)
    requires |ends| == |events| + 1 && ends[|events|] <= size
    requires h.at + |h.events| == |events| && events[h.at..] == h.events
    ensures AppendInv(Append(h.at, h.events, Written), events, ends, size, durable)
  {
  }

  lemma ReleaseOrdered(c: Codec, w: Wal, events: seq<Event>, ends: seq<nat>, h: Holder)
    requires |ends| == |events| + 1 && AppendsInv(w, events, ends)
    requires InOrder(w.appends) && HolderInv(c, w, events) && w.lock == Some(h)
    requires AppendInv(Append(h.at, h.events, Written), events, ends, |w.file|, w.durable)
    ensures AppendsInv(Released(w, h), events, ends) && InOrder(Released(w, h).appends)
  {
  }

  lemma UnlockKeeps(c: Codec, w: Wal, events: seq<Event>, h: Holder)
    requires Inv(c, w, events) && w.lock == Some(h) && h.done == |h.events|
    ensures Inv(c, Released(w, h), events)
  {
    WholePrefix(h.events);
    FileEnd(c, events);
    UnlockPlaces(h, events, Ends(c, events), |w.file|, w.durable);
    ReleaseOrdered(c, w, events, Ends(c, events), h);
    SameFile(c, w, events, Released(w, h));
  }

  // ---- Writing a record -----------------------------------------------------------------------------------------

  lemma WriteKeepsFile(c: Codec, w: Wal, events: seq<Event>, h: Holder)
    requires FileInv(c, w, events) && w.open && |events| + 1 < U64
    requires h.done < |h.events| && AllOk(c, h.events)
    ensures FileInv(c, WriteNext(c, w, h), events + [h.events[h.done]])
  {
    var e := h.events[h.done];
    OneMore(c, events, e);
    WholePrefix(File(c, events + [e]));
  }

  lemma WriteKeepsHolder(c: Codec, w: Wal, events: seq<Event>, h: Holder)
    requires HolderInv(c, w, events) && w.lock == Some(h) && h.done < |h.events|
    ensures HolderInv(c, WriteNext(c, w, h), events + [h.events[h.done]])
  {
    var e := h.events[h.done];
    assert (events + [e])[h.at..] == events[h.at..] + [e];
    assert h.events[..h.done] + [e] == h.events[..h.done + 1];
  }

  lemma AppendWithin(a: Append, events: seq<Event>, ends: seq<nat>, e: Event, longer: seq<nat>, size: nat, bigger: nat, durable: nat)
    requires |ends| == |events| + 1 && |longer| == |ends| + 1 && ends <= longer
    requires AppendInv(a, events, ends, size, durable) && size <= bigger
    ensures AppendInv(a, events + [e], longer, bigger, durable)
  {
    assert (events + [e])[a.at..a.at + |a.events|] == events[a.at..a.at + |a.events|];
  }

  lemma WriteKeepsAppends(w: Wal, events: seq<Event>, ends: seq<nat>, w': Wal, e: Event, longer: seq<nat>)
    requires |ends| == |events| + 1 && |longer| == |ends| + 1 && ends <= longer
    requires AppendsInv(w, events, ends) && w'.appends == w.appends && w'.turns == w.turns
    requires |w.file| <= |w'.file| && w'.durable == w.durable
    ensures AppendsInv(w', events + [e], longer)
  {
    forall t | t in w.appends ensures AppendInv(w.appends[t], events + [e], longer, |w'.file|, w.durable) {
      AppendWithin(w.appends[t], events, ends, e, longer, |w.file|, |w'.file|, w.durable);
    }
  }

  lemma WriteKeeps(c: Codec, w: Wal, events: seq<Event>, h: Holder)
    requires Inv(c, w, events) && w.lock == Some(h) && h.done < |h.events| && |events| + 1 < U64
    ensures Inv(c, WriteNext(c, w, h), events + [h.events[h.done]])
  {
    var e := h.events[h.done];
    WriteKeepsFile(c, w, events, h);
    WriteKeepsHolder(c, w, events, h);
    EndsSnoc(c, events, e);
    WriteKeepsAppends(w, events, Ends(c, events), WriteNext(c, w, h), e, Ends(c, events + [e]));
  }

  // ---- Crashing and reopening --------------------------------------------------------------------------------------

  lemma CrashKeeps(c: Codec, w: Wal, events: seq<Event>, n: nat)
    requires Inv(c, w, events) && w.durable <= n <= |w.file|
    ensures Inv(c, w.(file := w.file[..n], open := false, lock := None, appends := AckedOf(w.appends)), events)
  {
    assert w.file[..n] == File(c, events)[..n];
  }

  /** Records that end within the first `n` bytes are among the whole ones. */
  lemma {:induction false} WholeReaches(raws: seq<Raw>, start: nat, n: nat, j: nat)
    requires j <= |raws| && |Log(raws[..j], start)| <= n
    ensures j <= WholeIn(raws, n)
  {
    if j > 0 {
      assert raws[..j][1..] == raws[1..][..j - 1] && raws[..j][0] == raws[0];
      WholeReaches(raws[1..], start + 1, n - 13 - |raws[0].payload|, j - 1);
    }
  }

  /** How many whole records the first `n` bytes of the file hold. */
  function Kept(c: Codec, events: seq<Event>, n: nat): (k: nat)
    requires n >= 8
    ensures k <= |events|
  {
    WholeIn(Map(c.frame, events), n - 8)
  }

  lemma Survives(c: Codec, events: seq<Event>, n: nat, j: nat)
    requires 8 <= n && j <= |events| && Ends(c, events)[j] <= n
    ensures j <= Kept(c, events, n)
  {
    EndsPrefix(c, events, j);
    FileEnd(c, events[..j]);
    MapPrefix(c.frame, events, j);
    WholeReaches(Map(c.frame, events), 0, n - 8, j);
  }

  lemma RepairedFile(c: Codec, file: seq<Byte>, events: seq<Event>, n: nat)
    requires Fits(c) && AllOk(c, events) && |events| < U64
    requires 8 <= n <= |File(c, events)| && file == File(c, events)[..n]
    ensures Repaired(file) == File(c, events[..Kept(c, events, n)])
    ensures ScanOf(Parse(file[8..]).pieces).nextSeq == Kept(c, events, n)
  {
    RepairCut(file, Map(c.frame, events), n);
    MapPrefix(c.frame, events, Kept(c, events, n));
  }

  lemma AppendSurvives(a: Append, events: seq<Event>, ends: seq<nat>, size: nat, durable: nat, k: nat, left: seq<nat>)
    requires |ends| == |events| + 1 && AppendInv(a, events, ends, size, durable)
    requires a.at + |a.events| <= k <= |events| && |left| == k + 1 && left <= ends && Capped(left)
    ensures AppendInv(a, events[..k], left, left[k], if durable <= left[k] then durable else left[k])
  {
    assert events[..k][a.at..a.at + |a.events|] == events[a.at..a.at + |a.events|];
  }

  /** Whatever ends within `n` bytes is among the first `k` records. */
  predicate Reaches(ends: seq<nat>, n: nat, k: nat) {
    forall j :: 0 <= j < |ends| && ends[j] <= n ==> j <= k
  }

  lemma AllSurvive(c: Codec, events: seq<Event>, n: nat)
    requires 8 <= n
    ensures Reaches(Ends(c, events), n, Kept(c, events, n))
  {
    forall j | 0 <= j <= |events| && Ends(c, events)[j] <= n ensures j <= Kept(c, events, n) {
      Survives(c, events, n, j);
    }
  }

  lemma ReopenKeepsAppends(w: Wal, events: seq<Event>, ends: seq<nat>, k: nat, left: seq<nat>, w': Wal)
    requires |ends| == |events| + 1 && k <= |events| && |left| == k + 1 && left <= ends && Capped(left)
    requires AppendsInv(w, events, ends) && Reaches(ends, |w.file|, k)
    requires w'.appends == w.appends && w'.turns == w.turns && |w'.file| == left[k]
    requires w'.durable == if w.durable <= |w'.file| then w.durable else |w'.file|
    ensures AppendsInv(w', events[..k], left)
  {
    forall t | t in w.appends ensures AppendInv(w.appends[t], events[..k], left, |w'.file|, w'.durable) {
      AppendSurvives(w.appends[t], events, ends, |w.file|, w.durable, k, left);
    }
  }

  lemma ReopenKeeps(c: Codec, w: Wal, events: seq<Event>, k: nat)
    requires Fits(c) && Inv(c, w, events) && w.lock.None? && |w.file| >= 8 && k == Kept(c, events, |w.file|)
    ensures Inv(c, Reopened(w, Repaired(w.file)), events[..k])
  {
    RepairedFile(c, w.file, events, |w.file|);
    var kept := events[..k];
    FileEnd(c, kept);
    WholePrefix(File(c, kept));
    EndsPrefix(c, events, k);
    EndsCapped(c, kept);
    AllSurvive(c, events, |w.file|);
    ReopenKeepsAppends(w, events, Ends(c, events), k, Ends(c, kept), Reopened(w, File(c, kept)));
  }

  // ---- Runs --------------------------------------------------------------------------------------------------------

  /** The records of the log after a step. */
  function Next(c: Codec, w: Wal, events: seq<Event>, s: Step): seq<Event>
    requires Enabled(c, w, s)
  {
    if s.Write? then events + [w.lock.value.events[w.lock.value.done]]
    else if s.Reopen? then events[..Kept(c, events, |w.file|)]
    else events
  }

  lemma StepKeeps(c: Codec, w: Wal, events: seq<Event>, s: Step)
    requires Fits(c) && Inv(c, w, events) && Enabled(c, w, s)
    ensures Inv(c, Apply(c, w, s), Next(c, w, events, s))
  {
    match s
    case Write => WriteKeeps(c, w, events, w.lock.value);
    case Unlock => UnlockKeeps(c, w, events, w.lock.value);
    case Crash(n) => CrashKeeps(c, w, events, n);
    case Reopen => ReopenKeeps(c, w, events, Kept(c, events, |w.file|));
    case Lock(_) => LockKeeps(c, w, events, s);
    case GiveUp => LockKeeps(c, w, events, s);
    case Close => LockKeeps(c, w, events, s);
    case SyncBegin(t) => SyncKeeps(c, w, events, t, Syncing(|w.file|));
    case SyncOk(t) => SyncKeeps(c, w, events, t, Acked);
    case SyncFail(t) => SyncFailKeeps(c, w, events, t);
    case Flush(n) => FlushKeeps(c, w, events, n);
  }

  /** A run: every step enabled where it happens. */
  predicate Runs(c: Codec, w: Wal, steps: seq<Step>)
    decreases |steps|, 0
  {
    steps == [] || (Runs(c, w, steps[..|steps| - 1]) && Enabled(c, Exec(c, w, steps[..|steps| - 1]), steps[|steps| - 1]))
  }

  function Exec(c: Codec, w: Wal, steps: seq<Step>): Wal
    requires Runs(c, w, steps)
    decreases |steps|, 1
  {
    if steps == [] then w else Apply(c, Exec(c, w, steps[..|steps| - 1]), steps[|steps| - 1])
  }

  lemma FreshInv(c: Codec)
    ensures Inv(c, FRESH, [])
  {
    assert File(c, []) == HEADER + [];
  }

  lemma {:induction false} RunKeeps(c: Codec, steps: seq<Step>) returns (events: seq<Event>)
    requires Fits(c) && Runs(c, FRESH, steps)
    ensures Inv(c, Exec(c, FRESH, steps), events)
  {
    if steps == [] {
      events := [];
      FreshInv(c);
    } else {
      var before := RunKeeps(c, steps[..|steps| - 1]);
      var w, s := Exec(c, FRESH, steps[..|steps| - 1]), steps[|steps| - 1];
      StepKeeps(c, w, before, s);
      events := Next(c, w, before, s);
    }
  }

  lemma AckedStep(c: Codec, w: Wal, events: seq<Event>, s: Step, t: nat)
    requires Inv(c, w, events) && Enabled(c, w, s) && t in w.appends && w.appends[t].phase.Acked?
    ensures t in Apply(c, w, s).appends && Apply(c, w, s).appends[t] == w.appends[t]
  {
  }

  /** An append that has returned success is never forgotten, whatever follows. */
  lemma {:induction false} AckedStays(c: Codec, steps: seq<Step>, more: seq<Step>, t: nat)
    requires Fits(c) && Runs(c, FRESH, steps) && Runs(c, FRESH, steps + more)
    requires t in Exec(c, FRESH, steps).appends && Exec(c, FRESH, steps).appends[t].phase.Acked?
    ensures t in Exec(c, FRESH, steps + more).appends
    ensures Exec(c, FRESH, steps + more).appends[t] == Exec(c, FRESH, steps).appends[t]
  {
    if more == [] {
      assert steps + more == steps;
    } else {
      var n := |more| - 1;
      assert (steps + more)[..|steps + more| - 1] == steps + more[..n];
      AckedStays(c, steps, more[..n], t);
      var events := RunKeeps(c, steps + more[..n]);
      AckedStep(c, Exec(c, FRESH, steps + more[..n]), events, more[n], t);
    }
  }

  // ---- What a run promises -----------------------------------------------------------------------------------------

  /** The events the appenders accept and replay can read back. */
  predicate Appendable(e: Event) {
    EventOk(e) && Bounded(e)
  }

  /** The encoding of this log. */
  const CODEC: Codec := Codec(FrameOf, Appendable)

  lemma CodecFits()
    ensures Fits(CODEC)
  {
    forall e | Appendable(e) ensures |FrameOf(e).payload| < U32 {
      FrameLength(e);
    }
  }

  lemma AppendableOk(events: seq<Event>)
    requires AllOk(CODEC, events)
    ensures EventsOk(events) && AllBounded(events) && FileOf(events) == File(CODEC, events)
  {
    forall i | 0 <= i < |events| ensures Appendable(events[i]) {
      assert CODEC.ok(events[i]);
    }
  }

  /** Every append that has returned success stands in `events` where it was numbered. */
  predicate AckedIn(appends: map<nat, Append>, events: seq<Event>) {
    forall t :: t in appends && appends[t].phase.Acked? ==> Placed(appends[t], events)
  }

  /** Every mutation and advance of an append that has returned success is handed back under
      its own number. */
  predicate AckedOrdered(appends: map<nat, Append>, ordered: seq<Ordered>) {
    forall t, i :: t in appends && appends[t].phase.Acked? && 0 <= i < |appends[t].events|
                   && !appends[t].events[i].Checkpointed? ==>
                     Ordered(appends[t].at + i, appends[t].events[i]) in ordered
  }

  /** What can be read back from the first `n` bytes of the file: replay succeeds with what
      `events` mean, and the writer that opens them goes on with the number after the last. */
  ghost predicate Recovers(file: seq<Byte>, n: nat, events: seq<Event>) {
    && 8 <= n <= |file|
    && Replay(file[..n]).Ok? && Means(Replay(file[..n]).value, AsReplayed(events))
    && ScanOf(Parse(file[..n][8..]).pieces).nextSeq == |events|
  }

  lemma CutRecovers(file: seq<Byte>, all: seq<Event>, n: nat)
    requires AllOk(CODEC, all) && |all| < U64 && 8 <= n <= |file| <= |File(CODEC, all)|
    requires file == File(CODEC, all)[..|file|]
    ensures Recovers(file, n, all[..Kept(CODEC, all, n)])
  {
    CodecFits();
    AppendableOk(all);
    assert file[..n] == File(CODEC, all)[..n];
    RepairedFile(CODEC, file[..n], all, n);
    CutReplays(all, n);
  }

  lemma AckedStand(w: Wal, all: seq<Event>, ends: seq<nat>, n: nat, k: nat)
    requires |ends| == |all| + 1 && AppendsInv(w, all, ends) && w.durable <= n && k <= |all| && Reaches(ends, n, k)
    ensures AckedIn(w.appends, all[..k])
  {
    forall t | t in w.appends && w.appends[t].phase.Acked? ensures Placed(w.appends[t], all[..k]) {
      var a := w.appends[t];
      assert all[..k][a.at..a.at + |a.events|] == all[a.at..a.at + |a.events|];
    }
  }

  /** In every run, whatever a crash now leaves of the file recovers, with every append that
      returned success in it, whole and once, and in the order the appends took the mutex. */
  lemma AckedRecovered(steps: seq<Step>, n: nat) returns (events: seq<Event>)
    requires Runs(CODEC, FRESH, steps)
    requires Exec(CODEC, FRESH, steps).durable <= n <= |Exec(CODEC, FRESH, steps).file|
    ensures var w := Exec(CODEC, FRESH, steps);
            && Recovers(w.file, n, events) && AckedIn(w.appends, events) && InOrder(w.appends)
            && AckedOrdered(w.appends, Replay(w.file[..n]).value.ordered)
  {
    CodecFits();
    var all := RunKeeps(CODEC, steps);
    var w := Exec(CODEC, FRESH, steps);
    events := all[..Kept(CODEC, all, n)];
    CutRecovers(w.file, all, n);
    AllSurvive(CODEC, all, n);
    AckedStand(w, all, Ends(CODEC, all), n, Kept(CODEC, all, n));
    HandedBack(w.appends, events, Replay(w.file[..n]).value);
  }

  lemma HandedBack(appends: map<nat, Append>, events: seq<Event>, out: Replayed)
    requires AckedIn(appends, events) && Means(out, AsReplayed(events))
    ensures AckedOrdered(appends, out.ordered)
  {
    forall t, i | t in appends && appends[t].phase.Acked? && 0 <= i < |appends[t].events|
                  && !appends[t].events[i].Checkpointed?
      ensures Ordered(appends[t].at + i, appends[t].events[i]) in out.ordered
    {
      var a := appends[t];
      assert Placed(a, events);
      assert events[a.at..a.at + |a.events|][i] == events[a.at + i];
      assert AsReplayed(events)[a.at + i] == Replayable(events[a.at + i]) == a.events[i];
    }
  }

  // ---- A write that fails part-way ---------------------------------------------------------------------------------

  /** A failed write is taken to leave no bytes. Were it to leave a record's header or more,
      the appends after it could succeed and yet be hidden: as long as they are shorter than
      what the header announces, replay stops before them. */
  lemma PartialWriteHides(events: seq<Event>, e: Event, m: nat, more: seq<Event>)
    requires EventsOk(events) && AllBounded(events) && EventsOk(more) && |events| + 1 < U64 && Appendable(e)
    requires 13 <= m && m + |Log(Frames(more), |events|)| < 13 + |FrameOf(e).payload|
    ensures var r := Replay(FileOf(events) + (RecordBytes(|events|, FrameOf(e))[..m] + Log(Frames(more), |events|)));
            r.Ok? && Means(r.value, AsReplayed(events))
  {
    var tail := RecordBytes(|events|, FrameOf(e))[..m] + Log(Frames(more), |events|);
    FrameLength(e);
    HiddenTail(|events|, FrameOf(e), m, Log(Frames(more), |events|));
    FramesDecode(events);
    HiddenBy(Decode, Frames(events), AsReplayed(events), FrameOf(e), tail);
    FoldMeans(AsReplayed(events));
    Assoc(HEADER, Log(Frames(events), 0), tail);
  }

  lemma HiddenTail(n: nat, r: Raw, m: nat, rest: seq<Byte>)
    requires n < U64 && |r.payload| < U32 && 13 <= m && m + |rest| < 13 + |r.payload|
    ensures Parse(RecordBytes(n, r)[..m] + rest) == Parsed([], Some(Head(n, r.kind, |r.payload|)))
  {
    var whole := RecordBytes(n, r);
    HeadOfRecord(n, r, []);
    assert whole + [] == whole;
    HiddenBytes(whole, m, rest, Head(n, r.kind, |r.payload|));
  }

  lemma HiddenBytes(whole: seq<Byte>, m: nat, rest: seq<Byte>, h: Head)
    requires 13 <= m <= |whole| && HeadOf(whole) == h && m + |rest| < 13 + h.len
    ensures Parse(whole[..m] + rest) == Parsed([], Some(h))
  {
    var tail := whole[..m] + rest;
    SameHead(whole, tail);
    ShortParses(tail, h);
  }

  lemma SameHead(a: seq<Byte>, b: seq<Byte>)
    requires |a| >= 13 && |b| >= 13 && a[..13] == b[..13]
    ensures HeadOf(a) == HeadOf(b)
  {
    HeadOfCut(a, 13);
    HeadOfCut(b, 13);
  }

  lemma ShortParses(data: seq<Byte>, h: Head)
    requires |data| >= 13 && HeadOf(data) == h && |data| < 13 + h.len
    ensures Parse(data) == Parsed([], Some(h))
  {
  }

  lemma HiddenBy(decode: Decoder, raws: seq<Raw>, events: seq<Event>, r: Raw, tail: seq<Byte>)
    requires DecodesTo(decode, raws, events) && |raws| < U64 && |r.payload| <= MAX_PAYLOAD
    requires Parse(tail) == Parsed([], Some(Head(|raws|, r.kind, |r.payload|)))
    ensures ReplayBy(decode, HEADER + (Log(raws, 0) + tail)) == Ok(FoldAll(events))
  {
    ParseEnd(raws, tail);
    WholeHeader(Log(raws, 0) + tail);
    CleanPrefix(decode, raws, events, |raws|);
    WholePrefix(raws);
    WholePrefix(events);
    TornAccepted(Decoded(decode, Numbered(raws, 0)), events, Parse(tail).torn);
  }
}
