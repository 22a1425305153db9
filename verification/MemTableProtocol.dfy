/** The memtable under concurrent writers: writers put under a shared lock, a writer that finds
    the arena full swaps it under the exclusive lock and leaves it to a background flush, and
    calls of flush and close take what is left and upload it themselves. Arenas are numbered;
    the active one is the last. */
module MemTableProtocol {
  import opened Basics

  /** A writer: not started; holding the shared lock; past the closed check with the arena it
      loaded; waiting for the exclusive lock, and holding it, because that arena was full or
      held its quota; returned nil; returned an error. */
  datatype Phase =
    | Start(tries: nat)
    | Held(tries: nat)
    | Reading(arena: nat, tries: nat)
    | Waiting(arena: nat, tries: nat)
    | Locked(arena: nat, tries: nat)
    | Landed
    | Failed

  /** The put of writer `id` went into `arena`. */
  datatype Landing = Landing(id: nat, arena: nat)

  /** Who flushes an arena: a background flush, which close waits for, or the call of flush or
      close that took it. */
  datatype Taker = Background | Caller(call: nat)

  /** Still being flushed; every partition uploaded or saved to disk; or not every one. */
  datatype Fate = Running | Kept | Lost

  datatype Handover = Handover(arena: nat, taker: Taker, fate: Fate)

  /** A call of flush or close: before it has the lock; uploading the arena it took; a close
      that is past its own flush; returned nil; returned an error. */
  datatype Stage = Begun | Uploading(arena: nat) | Draining | Returned | Erred

  datatype Call = Call(close: bool, stage: Stage)

  datatype Table = Table(
    active: nat, closed: bool, readers: set<nat>, exclusive: Option<nat>, writers: map<nat, Phase>,
    log: seq<Landing>, handed: seq<Handover>, calls: map<nat, Call>)

  const FRESH: Table := Table(0, false, {}, None, map[], [], [], map[])

  const MAX_RETRIES: nat := 3

  datatype Step =
    | Arrive(id: nat)
    | RLock(id: nat)
    | Check(id: nat)        // the closed flag is read and the arena loaded
    | PutOk(id: nat)
    | PutFull(id: nat)
    | Quota(id: nat)        // the arena holds its quota of entries
    | Lock(id: nat)
    | Swap(id: nat)         // under the exclusive lock, unless someone else has swapped
    | SwapFail(id: nat)     // the flush may not start
    | BackgroundEnds(arena: nat, kept: bool)
    | CallFlush(call: nat)
    | CallClose(call: nat)  // the closed flag is set
    | Take(call: nat)       // under the exclusive lock, which is released at once
    | UploadEnds(call: nat, kept: bool)
    | CloseReturns(call: nat)

  predicate Holds(t: Table, a: nat) {
    exists i :: 0 <= i < |t.log| && t.log[i].arena == a
  }

  predicate Unlocked(t: Table) {
    t.readers == {} && t.exclusive.None?
  }

  /** No background flush is under way: the wait group is at zero. */
  predicate Drained(t: Table) {
    forall a :: 0 <= a < |t.handed| && t.handed[a].taker.Background? ==> !t.handed[a].fate.Running?
  }

  predicate InFlight(t: Table, call: nat) {
    call in t.calls && t.calls[call].stage.Uploading? && t.calls[call].stage.arena < |t.handed|
  }

  predicate Enabled(t: Table, s: Step) {
    match s
    case Arrive(id) => id !in t.writers
    case RLock(id) => id in t.writers && t.writers[id].Start? && t.exclusive.None?
    case Check(id) => id in t.writers && t.writers[id].Held?
    case PutOk(id) => id in t.writers && t.writers[id].Reading?
    case PutFull(id) => id in t.writers && t.writers[id].Reading?
    case Quota(id) => id in t.writers && t.writers[id].Reading?
    case Lock(id) => id in t.writers && t.writers[id].Waiting? && Unlocked(t)
    case Swap(id) => id in t.writers && t.writers[id].Locked?
    case SwapFail(id) => id in t.writers && t.writers[id].Locked? && t.writers[id].arena == t.active && Holds(t, t.active)
    case BackgroundEnds(a, _) => a < |t.handed| && t.handed[a].taker.Background? && t.handed[a].fate.Running?
    case CallFlush(c) => c !in t.calls
    case CallClose(c) => c !in t.calls
    case Take(c) => c in t.calls && t.calls[c].stage.Begun? && Unlocked(t)
    case UploadEnds(c, _) => InFlight(t, c)
    case CloseReturns(c) => c in t.calls && t.calls[c].stage.Draining? && Drained(t)
  }

  /** The active arena is frozen and handed over, unless nothing is in it. */
  function Swapped(t: Table, taker: Taker): Table {
    if Holds(t, t.active) then t.(active := t.active + 1, handed := t.handed + [Handover(t.active, taker, Running)])
    else t
  }

  function Moved(t: Table, id: nat, p: Phase): Table {
    t.(writers := t.writers[id := p])
  }

  function Staged(t: Table, c: nat, close: bool, stage: Stage): Table {
    t.(calls := t.calls[c := Call(close, stage)])
  }

  function Ended(t: Table, a: nat, kept: bool): Table
    requires a < |t.handed|
  {
    t.(handed := t.handed[a := t.handed[a].(fate := if kept then Kept else Lost)])
  }

  /** What follows a call's own flush: flush returns, close goes on to wait. */
  function AfterFlush(close: bool): Stage {
    if close then Draining else Returned
  }

  function Apply(t: Table, s: Step): Table
    requires Enabled(t, s)
  {
    match s
    case Arrive(id) => Moved(t, id, Start(0))
    case RLock(id) => Moved(t, id, Held(t.writers[id].tries)).(readers := t.readers + {id})
    case Check(id) =>
      if t.closed then Moved(t, id, Failed).(readers := t.readers - {id})
      else Moved(t, id, Reading(t.active, t.writers[id].tries))
    case PutOk(id) => Moved(t, id, Landed).(readers := t.readers - {id}, log := t.log + [Landing(id, t.writers[id].arena)])
    case PutFull(id) =>
      var Reading(a, tries) := t.writers[id];
      Moved(t, id, if tries < MAX_RETRIES then Waiting(a, tries + 1) else Failed).(readers := t.readers - {id})
    case Quota(id) => Moved(t, id, Waiting(t.writers[id].arena, t.writers[id].tries)).(readers := t.readers - {id})
    case Lock(id) => Moved(t, id, Locked(t.writers[id].arena, t.writers[id].tries)).(exclusive := Some(id))
    case Swap(id) =>
      var Locked(a, tries) := t.writers[id];
      Moved(if t.active == a then Swapped(t, Background) else t, id, Start(tries)).(exclusive := None)
    case SwapFail(id) => Moved(t, id, Failed).(exclusive := None)
    case BackgroundEnds(a, kept) => Ended(t, a, kept)
    case CallFlush(c) => Staged(t, c, false, Begun)
    case CallClose(c) => Staged(t, c, true, Begun).(closed := true)
    case Take(c) =>
      var close := t.calls[c].close;
      if Holds(t, t.active) then Staged(Swapped(t, Caller(c)), c, close, Uploading(t.active))
      else Staged(t, c, close, AfterFlush(close))
    case UploadEnds(c, kept) =>
      var Call(close, Uploading(a)) := t.calls[c];
      Staged(Ended(t, a, kept), c, close, if kept then AfterFlush(close) else Erred)
    case CloseReturns(c) => Staged(t, c, true, Returned)
  }

  // ---- The invariant ------------------------------------------------------------------------------

  /** The shared lock is held by just the writers between taking and releasing it, the
      exclusive lock by at most one, and never both. */
  ghost predicate LockInv(t: Table) {
    && (forall id :: id in t.readers <==> id in t.writers && (t.writers[id].Held? || t.writers[id].Reading?))
    && (t.exclusive.Some? ==> t.exclusive.value in t.writers && t.writers[t.exclusive.value].Locked? && t.readers == {})
    && (forall id :: id in t.writers && t.writers[id].Locked? ==> t.exclusive == Some(id))
  }

  /** Whoever is about to put has the active arena. */
  predicate ReadersCurrent(t: Table) {
    forall id :: id in t.writers && t.writers[id].Reading? ==> t.writers[id].arena == t.active
  }

  predicate LogInv(t: Table) {
    && (forall i :: 0 <= i < |t.log| ==>
          t.log[i].arena <= t.active && t.log[i].id in t.writers && t.writers[t.log[i].id].Landed?)
    && (forall i, j :: 0 <= i < j < |t.log| ==> t.log[i].id != t.log[j].id)
    && (forall id :: id in t.writers && t.writers[id].Landed? ==> InLog(t.log, id))
  }

  predicate InLog(log: seq<Landing>, id: nat) {
    exists i :: 0 <= i < |log| && log[i].id == id
  }

  /** The arenas before the active one have been handed over, each once, in order, and none
      was empty. */
  predicate HandedInv(t: Table) {
    && |t.handed| == t.active
    && (forall a :: 0 <= a < |t.handed| ==> t.handed[a].arena == a && Holds(t, a))
  }

  /** An arena that a call took is still being flushed just when that call is at it. */
  predicate CallInv(t: Table) {
    CallsMatch(t.handed, t.calls)
  }

  predicate CallsMatch(handed: seq<Handover>, calls: map<nat, Call>) {
    && (forall c :: c in calls && calls[c].stage.Uploading? ==> UploadingOwn(handed, calls[c].stage.arena, c))
    && (forall a :: 0 <= a < |handed| && handed[a].taker.Caller? && handed[a].fate.Running? ==>
          handed[a].taker.call in calls && calls[handed[a].taker.call].stage == Uploading(a))
  }

  predicate UploadingOwn(handed: seq<Handover>, a: nat, c: nat) {
    a < |handed| && handed[a].taker == Caller(c) && handed[a].fate.Running?
  }

  /** Once a close is past its own taking, nothing is in the active arena and no put is under
      way; once one has returned nil, no background flush is either. */
  predicate CloseInv(t: Table) {
    forall c :: c in t.calls ==> CallOk(t.calls[c], t.closed, Quiet(t), Drained(t))
  }

  predicate CallOk(call: Call, closed: bool, quiet: bool, drained: bool) {
    && (call.close ==> closed)
    && (call.close && !call.stage.Begun? ==> quiet)
    && (call.close && call.stage.Returned? ==> drained)
    && (call.stage.Draining? ==> call.close)
  }

  predicate Quiet(t: Table) {
    !Holds(t, t.active) && forall id :: id in t.writers ==> !t.writers[id].Reading?
  }

  ghost predicate Inv(t: Table) {
    LockInv(t) && ReadersCurrent(t) && LogInv(t) && HandedInv(t) && CallInv(t) && CloseInv(t)
  }

  // ---- Each step keeps it --------------------------------------------------------------------------

  lemma LockKeeps(t: Table, s: Step)
    requires LockInv(t) && Enabled(t, s)
    ensures LockInv(Apply(t, s))
  {
  }

  lemma ReadersKeep(t: Table, s: Step)
    requires LockInv(t) && ReadersCurrent(t) && Enabled(t, s)
    ensures ReadersCurrent(Apply(t, s))
  {
  }

  lemma InLogSnoc(log: seq<Landing>, l: Landing, id: nat)
    requires InLog(log, id) || l.id == id
    ensures InLog(log + [l], id)
  {
    if InLog(log, id) {
      var i :| 0 <= i < |log| && log[i].id == id;
      assert (log + [l])[i].id == id;
    } else {
      assert (log + [l])[|log|].id == id;
    }
  }

  lemma PutKeepsLog(t: Table, id: nat)
    requires ReadersCurrent(t) && LogInv(t) && Enabled(t, PutOk(id))
    ensures LogInv(Apply(t, PutOk(id)))
  {
    var u, l := Apply(t, PutOk(id)), Landing(id, t.writers[id].arena);
    forall x | x in u.writers && u.writers[x].Landed? ensures InLog(u.log, x) {
      InLogSnoc(t.log, l, x);
    }
  }

  lemma LogKeeps(t: Table, s: Step)
    requires ReadersCurrent(t) && LogInv(t) && Enabled(t, s)
    ensures LogInv(Apply(t, s))
  {
    if s.PutOk? {
      PutKeepsLog(t, s.id);
    } else {
      OthersKeepLog(t, s);
    }
  }

  lemma OthersKeepLog(t: Table, s: Step)
    requires LogInv(t) && Enabled(t, s) && !s.PutOk?
    ensures LogInv(Apply(t, s))
  {
    assert Apply(t, s).log == t.log;
  }

  lemma HoldsMore(t: Table, u: Table, a: nat)
    requires t.log <= u.log && Holds(t, a)
    ensures Holds(u, a)
  {
    var i :| 0 <= i < |t.log| && t.log[i].arena == a;
    assert u.log[i].arena == a;
  }

  lemma HandedKeeps(t: Table, s: Step)
    requires HandedInv(t) && Enabled(t, s)
    ensures HandedInv(Apply(t, s))
  {
    var u := Apply(t, s);
    forall a | 0 <= a < |u.handed| ensures u.handed[a].arena == a && Holds(u, a) {
      if a < |t.handed| {
        HoldsMore(t, u, a);
      } else {
        HoldsMore(t, u, t.active);
      }
    }
  }

  lemma CallKeeps(t: Table, s: Step)
    requires HandedInv(t) && CallInv(t) && Enabled(t, s)
    ensures CallInv(Apply(t, s))
  {
    var u := Apply(t, s);
    match s
    case BackgroundEnds(a, _) =>
    case CallFlush(_) =>
    case CallClose(_) =>
    case Take(_) =>
    case UploadEnds(c, kept) => UploadEndsMatch(t, c, kept);
    case CloseReturns(_) =>
    case Swap(_) =>
    case _ => assert u.handed == t.handed && u.calls == t.calls;
  }

  lemma UploadEndsMatch(t: Table, c: nat, kept: bool)
    requires CallInv(t) && Enabled(t, UploadEnds(c, kept))
    ensures CallInv(Apply(t, UploadEnds(c, kept)))
  {
    assert UploadingOwn(t.handed, t.calls[c].stage.arena, c);
  }

  lemma SwappedEmpty(t: Table, taker: Taker)
    requires LogInv(t)
    ensures !Holds(Swapped(t, taker), Swapped(t, taker).active)
  {
  }

  /** A quiet, closed table stays quiet: nothing can be put and nothing is left to hand over. */
  lemma QuietStays(t: Table, s: Step)
    requires Quiet(t) && t.closed && Enabled(t, s)
    ensures Quiet(Apply(t, s)) && (Drained(t) ==> Drained(Apply(t, s)))
  {
    assert Apply(t, s).log == t.log && Apply(t, s).active == t.active;
  }

  lemma TakeQuiets(t: Table, c: nat)
    requires LockInv(t) && LogInv(t) && Enabled(t, Take(c))
    ensures Quiet(Apply(t, Take(c)))
  {
    SwappedEmpty(t, Caller(c));
    assert Apply(t, Take(c)).log == t.log;
  }

  lemma CloseKeeps(t: Table, s: Step)
    requires LockInv(t) && LogInv(t) && CloseInv(t) && Enabled(t, s)
    ensures CloseInv(Apply(t, s))
  {
    if Quiet(t) && t.closed {
      QuietStays(t, s);
    }
    if s.Take? {
      TakeQuiets(t, s.call);
    }
    var u := Apply(t, s);
    forall c | c in u.calls ensures CallOk(u.calls[c], u.closed, Quiet(u), Drained(u)) {
      if c in t.calls && u.calls[c] == t.calls[c] {
        assert CallOk(t.calls[c], t.closed, Quiet(t), Drained(t));
      } else {
        CalledOk(t, s, c);
      }
    }
  }

  /** The call whose step it is. */
  lemma CalledOk(t: Table, s: Step, c: nat)
    requires CloseInv(t) && Enabled(t, s) && c in Apply(t, s).calls
    requires c !in t.calls || Apply(t, s).calls[c] != t.calls[c]
    requires Quiet(t) && t.closed ==> Quiet(Apply(t, s)) && (Drained(t) ==> Drained(Apply(t, s)))
    requires s.Take? ==> Quiet(Apply(t, s))
    ensures var u := Apply(t, s); CallOk(u.calls[c], u.closed, Quiet(u), Drained(u))
  {
    if c in t.calls {
      assert CallOk(t.calls[c], t.closed, Quiet(t), Drained(t));
    }
  }

  lemma StepKeeps(t: Table, s: Step)
    requires Inv(t) && Enabled(t, s)
    ensures Inv(Apply(t, s))
  {
    LockKeeps(t, s);
    ReadersKeep(t, s);
    LogKeeps(t, s);
    HandedKeeps(t, s);
    CallKeeps(t, s);
    CloseKeeps(t, s);
  }

  // ---- Runs -------------------------------------------------------------------------------------------

  predicate Runs(t: Table, steps: seq<Step>)
    decreases |steps|, 0
  {
    steps == [] || (Runs(t, steps[..|steps| - 1]) && Enabled(Exec(t, steps[..|steps| - 1]), steps[|steps| - 1]))
  }

  function Exec(t: Table, steps: seq<Step>): Table
    requires Runs(t, steps)
    decreases |steps|, 1
  {
    if steps == [] then t else Apply(Exec(t, steps[..|steps| - 1]), steps[|steps| - 1])
  }

  lemma {:induction false} RunKeeps(steps: seq<Step>)
    requires Runs(FRESH, steps)
    ensures Inv(Exec(FRESH, steps))
  {
    if steps != [] {
      RunKeeps(steps[..|steps| - 1]);
      StepKeeps(Exec(FRESH, steps[..|steps| - 1]), steps[|steps| - 1]);
    }
  }

  /** In every interleaving, a put goes into an arena that has not been handed over. */
  lemma NoFrozenWrites(steps: seq<Step>, id: nat)
    requires Runs(FRESH, steps) && Enabled(Exec(FRESH, steps), PutOk(id))
    ensures var t := Exec(FRESH, steps);
            && t.writers[id].arena == t.active
            && forall a :: 0 <= a < |t.handed| ==> t.handed[a].arena != t.writers[id].arena
  {
    RunKeeps(steps);
  }

  /** How often a writer's put is in the log. */
  function Times(log: seq<Landing>, id: nat): nat {
    if log == [] then 0
    else Times(log[..|log| - 1], id) + (if log[|log| - 1].id == id then 1 else 0)
  }

  lemma {:induction false} TimesOnce(log: seq<Landing>, id: nat, i: nat)
    requires i < |log| && log[i].id == id && forall a, b :: 0 <= a < b < |log| ==> log[a].id != log[b].id
    ensures Times(log, id) == 1
  {
    var n := |log| - 1;
    if i == n {
      TimesNone(log[..n], id);
    } else {
      TimesOnce(log[..n], id, i);
    }
  }

  lemma {:induction false} TimesNone(log: seq<Landing>, id: nat)
    requires forall a :: 0 <= a < |log| ==> log[a].id != id
    ensures Times(log, id) == 0
  {
    if log != [] {
      TimesNone(log[..|log| - 1], id);
    }
  }

  /** In every interleaving, once any close is past its own taking, each write that returned
      nil was put once and its arena was handed over, once. */
  lemma HandedOnceAtClose(steps: seq<Step>, c: nat, id: nat) returns (i: nat)
    requires Runs(FRESH, steps) && c in Exec(FRESH, steps).calls
    requires Exec(FRESH, steps).calls[c].close && !Exec(FRESH, steps).calls[c].stage.Begun?
    requires id in Exec(FRESH, steps).writers && Exec(FRESH, steps).writers[id].Landed?
    ensures var t := Exec(FRESH, steps);
            && Times(t.log, id) == 1 && i < |t.log| && t.log[i].id == id && t.log[i].arena < |t.handed|
            && (forall a :: 0 <= a < |t.handed| ==> (t.handed[a].arena == t.log[i].arena <==> a == t.log[i].arena))
  {
    RunKeeps(steps);
    var t := Exec(FRESH, steps);
    assert InLog(t.log, id);
    i :| 0 <= i < |t.log| && t.log[i].id == id;
    TimesOnce(t.log, id, i);
    assert t.log[i].arena != t.active;
  }

  /** Every write that returned nil is in an arena whose flush has ended, in the second form
      with every partition kept. */
  predicate AllEnded(t: Table) {
    forall i :: 0 <= i < |t.log| ==> t.log[i].arena < |t.handed| && !t.handed[t.log[i].arena].fate.Running?
  }

  predicate AllKept(t: Table) {
    forall i :: 0 <= i < |t.log| ==> t.log[i].arena < |t.handed| && t.handed[t.log[i].arena].fate.Kept?
  }

  /** No call of flush or close is uploading. */
  predicate NoneUploading(t: Table) {
    forall c :: c in t.calls ==> !t.calls[c].stage.Uploading?
  }

  /** No flush has ended without keeping every partition. */
  predicate NoneLost(t: Table) {
    forall a :: 0 <= a < |t.handed| ==> !t.handed[a].fate.Lost?
  }

  /** The fates of the writes are the fates of the arenas: every write is in an arena that was
      handed over, and every such arena has a write. */
  lemma WritesAreArenas(t: Table)
    requires HandedInv(t) && LogInv(t) && !Holds(t, t.active)
    ensures AllEnded(t) <==> forall a :: 0 <= a < |t.handed| ==> !t.handed[a].fate.Running?
    ensures AllKept(t) <==> forall a :: 0 <= a < |t.handed| ==> t.handed[a].fate.Kept?
  {
    forall i | 0 <= i < |t.log| ensures t.log[i].arena < |t.handed| {
      assert t.log[i].arena != t.active;
    }
    forall a | 0 <= a < |t.handed|
      ensures AllEnded(t) ==> !t.handed[a].fate.Running?
      ensures AllKept(t) ==> t.handed[a].fate.Kept?
    {
      assert Holds(t, a);
      var i :| 0 <= i < |t.log| && t.log[i].arena == a;
    }
  }

  /** In every interleaving, when a close has returned nil, everything written has been flushed
      exactly when no call of flush or of another close is still uploading, and it has been
      kept exactly when, besides, no flush has lost a partition. */
  lemma FlushedAtCloseIff(steps: seq<Step>, c: nat)
    requires Runs(FRESH, steps) && c in Exec(FRESH, steps).calls
    requires Exec(FRESH, steps).calls[c] == Call(true, Returned)
    ensures var t := Exec(FRESH, steps); AllEnded(t) <==> NoneUploading(t)
    ensures var t := Exec(FRESH, steps); AllKept(t) <==> NoneUploading(t) && NoneLost(t)
  {
    RunKeeps(steps);
    var t := Exec(FRESH, steps);
    WritesAreArenas(t);
    UploadingIsRunning(t);
  }

  lemma UploadingIsRunning(t: Table)
    requires CallInv(t) && Drained(t)
    ensures NoneUploading(t) <==> forall a :: 0 <= a < |t.handed| ==> !t.handed[a].fate.Running?
  {
    if !NoneUploading(t) {
      var c :| c in t.calls && t.calls[c].stage.Uploading?;
      assert UploadingOwn(t.handed, t.calls[c].stage.arena, c);
    }
  }

  /** A write lands, a call of flush or close takes its arena, and a second close, finding
      nothing in the active one and no background flush, returns nil while that arena is still
      being uploaded. */
  lemma CloseReturnsEarly(first: Step)
    requires first == CallFlush(1) || first == CallClose(1)
    ensures var steps := [Arrive(0), RLock(0), Check(0), PutOk(0), first, Take(1), CallClose(2), Take(2), CloseReturns(2)];
            && Runs(FRESH, steps)
            && Exec(FRESH, steps).calls[2] == Call(true, Returned)
            && Exec(FRESH, steps).log == [Landing(0, 0)]
            && Exec(FRESH, steps).handed == [Handover(0, Caller(1), Running)]
  {
    var steps := Landed4();
    var t := Exec(FRESH, steps);
    assert Holds(t, 0) by { assert t.log[0].arena == 0; }
    RunOn(steps, first);
    RunOn(steps + [first], Take(1));
    SecondClose(steps + [first] + [Take(1)]);
    assert steps + [first] + [Take(1)] + [CallClose(2), Take(2), CloseReturns(2)]
        == [Arrive(0), RLock(0), Check(0), PutOk(0), first, Take(1), CallClose(2), Take(2), CloseReturns(2)];
  }

  /** With the one arena in another call's hands, a close runs through. */
  lemma SecondClose(steps: seq<Step>)
    requires Runs(FRESH, steps) && 2 !in Exec(FRESH, steps).calls && Exec(FRESH, steps).active == 1
    requires Exec(FRESH, steps).log == [Landing(0, 0)] && Unlocked(Exec(FRESH, steps))
    requires Exec(FRESH, steps).handed == [Handover(0, Caller(1), Running)]
    ensures var run := steps + [CallClose(2), Take(2), CloseReturns(2)];
            && Runs(FRESH, run)
            && Exec(FRESH, run).calls[2] == Call(true, Returned)
            && Exec(FRESH, run).log == [Landing(0, 0)]
            && Exec(FRESH, run).handed == [Handover(0, Caller(1), Running)]
  {
    RunOn(steps, CallClose(2));
    RunOn(steps + [CallClose(2)], Take(2));
    RunOn(steps + [CallClose(2)] + [Take(2)], CloseReturns(2));
    assert steps + [CallClose(2)] + [Take(2)] + [CloseReturns(2)] == steps + [CallClose(2), Take(2), CloseReturns(2)];
  }

  lemma RunOn(steps: seq<Step>, s: Step)
    requires Runs(FRESH, steps) && Enabled(Exec(FRESH, steps), s)
    ensures Runs(FRESH, steps + [s]) && Exec(FRESH, steps + [s]) == Apply(Exec(FRESH, steps), s)
  {
    assert (steps + [s])[..|steps|] == steps;
  }

  /** One write, into the first arena. */
  lemma Landed4() returns (steps: seq<Step>)
    ensures steps == [Arrive(0), RLock(0), Check(0), PutOk(0)] && Runs(FRESH, steps)
    ensures Exec(FRESH, steps) == FRESH.(writers := map[0 := Landed], log := [Landing(0, 0)])
  {
    steps := [];
    RunOn(steps, Arrive(0));
    steps := steps + [Arrive(0)];
    RunOn(steps, RLock(0));
    steps := steps + [RLock(0)];
    RunOn(steps, Check(0));
    steps := steps + [Check(0)];
    RunOn(steps, PutOk(0));
    steps := steps + [PutOk(0)];
  }
}
