/** One entity's directory in the object store as a state machine: flushes, compactions
    and reaper sweeps interleave one object access at a time. Objects are identified by
    the first system time in their name. */
module Store {
  import opened Basics
  import opened Rows
  import opened Pruning
  import opened Merging
  import opened ObjectKeys

  type File = seq<Row>

  datatype Manifest = Manifest(l1Key: int, l0Keys: seq<int>)

  /** A compaction job between two object accesses. */
  datatype Job =
    | NoJob
    | Reading(listed: seq<int>, next: nat, rows: seq<Row>)
    | Uploaded(listed: seq<int>, l1Key: int)

  /** A reaper sweep between two object accesses, on the manifest it has parsed and whose
      L1 it has probed. */
  datatype Reap =
    | NoReap
    | Deleting(manifestKey: int, l0Keys: seq<int>, next: nat)

  /** `eid` and `width` never change: the entity of the directory and the decimal width
      of every file name in it. `hist` is the history of flushed files; no operation
      reads it. */
  datatype State = State(
    eid: seq<int>,
    width: nat,
    hist: seq<File>,
    l0: map<int, File>,
    l1: map<int, File>,
    manifests: map<int, Manifest>,
    horizon: int,
    job: Job,
    reap: Reap)

  datatype Action =
    | Flush(file: File)
    | RaiseHorizon(to: int)
    | ListL0(listed: seq<int>)
    | Read
    | ReadFails
    | UploadL1(prune: bool)
    | UploadManifest
    | AbortJob
    | PickManifest(manifestKey: int)
    | DeleteL0
    | DeleteManifest
    | StopReap

  function Init(eid: seq<int>, width: nat, horizon: int): State {
    State(eid, width, [], map[], map[], map[], horizon, NoJob, NoReap)
  }

  // ---- Files and histories --------------------------------------------------------------

  function Flat(files: seq<File>): seq<Row> {
    if files == [] then [] else Flat(files[..|files| - 1]) + files[|files| - 1]
  }

  /** What the flusher writes for the entity of the directory: rows in key order, with
      positive system times, under a name of the directory's width. */
  predicate FileOk(f: File, eid: seq<int>, width: nat) {
    && f != [] && KeySorted(f) && NameOk(FirstSys(f), width)
    && forall x :: x in f ==> x.eid == eid && x.sysT > 0
  }

  predicate NameOk(name: int, width: nat) {
    name > 0 && Width(name) == width
  }

  predicate Before(f: File, g: File) {
    forall x, y :: x in f && y in g ==> x.sysT < y.sysT
  }

  predicate HistOk(hist: seq<File>, eid: seq<int>, width: nat) {
    && (forall i :: 0 <= i < |hist| ==> FileOk(hist[i], eid, width))
    && (forall i, j :: 0 <= i < j < |hist| ==> Before(hist[i], hist[j]))
  }

  function FirstSys(f: File): int
    requires f != []
  {
    f[0].sysT
  }

  function KeySet(keys: seq<int>): set<int> {
    set k | k in keys
  }

  /** What a lister returns for a set of names: all of them, in lexical order. */
  predicate IsListing(listed: seq<int>, keys: set<int>) {
    && (forall i :: 0 <= i < |listed| ==> listed[i] in keys)
    && (forall k :: k in keys ==> k in listed)
    && (forall i, j :: 0 <= i < j < |listed| ==> LexLess(FormatInt(listed[i]), FormatInt(listed[j])))
  }

  // ---- Steps ----------------------------------------------------------------------------

  predicate Enabled(s: State, a: Action) {
    match a
    case Flush(f) => FileOk(f, s.eid, s.width) && forall i :: 0 <= i < |s.hist| ==> Before(s.hist[i], f)
    case RaiseHorizon(to) => to >= s.horizon
    case ListL0(listed) => s.job.NoJob? && listed != [] && IsListing(listed, s.l0.Keys)
    case Read => s.job.Reading? && s.job.next < |s.job.listed| && s.job.listed[s.job.next] in s.l0
    case ReadFails => s.job.Reading? && s.job.next < |s.job.listed|
    case UploadL1(_) => s.job.Reading? && s.job.next == |s.job.listed|
    case UploadManifest => s.job.Uploaded?
    case AbortJob => !s.job.NoJob?
    case PickManifest(mk) => s.reap.NoReap? && mk in s.manifests && s.manifests[mk].l1Key in s.l1
    case DeleteL0 => s.reap.Deleting? && s.reap.next < |s.reap.l0Keys|
    case DeleteManifest => s.reap.Deleting? && s.reap.next == |s.reap.l0Keys|
    case StopReap => !s.reap.NoReap?
  }

  /** The rows of the entity in one file: rows of another entity are passed over. */
  function Extract(f: File, eid: seq<int>): seq<Row> {
    if f == [] then []
    else Extract(f[..|f| - 1], eid) + (if f[|f| - 1].eid == eid then [f[|f| - 1]] else [])
  }

  /** The rows an L1 upload writes: sorted, and pruned when pruning is on. */
  function Merged(rows: seq<Row>, prune: bool, horizon: int): seq<Row> {
    Pruned(StableSort(rows), PruneHorizon(prune, horizon))
  }

  /** Pruning runs only when it is switched on and the horizon is positive. */
  function PruneHorizon(prune: bool, horizon: int): int {
    if prune && horizon > 0 then horizon else 0
  }

  function Apply(s: State, a: Action): State
    requires Enabled(s, a)
  {
    match a
    case Flush(f) => s.(hist := s.hist + [f], l0 := s.l0[FirstSys(f) := f])
    case RaiseHorizon(to) => s.(horizon := to)
    case ListL0(listed) => s.(job := Reading(listed, 0, []))
    case Read =>
      s.(job := s.job.(next := s.job.next + 1, rows := s.job.rows + Extract(s.l0[s.job.listed[s.job.next]], s.eid)))
    case ReadFails => s.(job := s.job.(next := s.job.next + 1))
    case UploadL1(prune) =>
      var out := Merged(s.job.rows, prune, s.horizon);
      if out == [] then s.(job := NoJob)
      else s.(l1 := s.l1[FirstSys(out) := out], job := Uploaded(s.job.listed, FirstSys(out)))
    case UploadManifest =>
      s.(manifests := s.manifests[s.job.l1Key := Manifest(s.job.l1Key, s.job.listed)], job := NoJob)
    case AbortJob => s.(job := NoJob)
    case PickManifest(mk) => s.(reap := Deleting(mk, s.manifests[mk].l0Keys, 0))
    case DeleteL0 =>
      s.(l0 := s.l0 - {s.reap.l0Keys[s.reap.next]}, reap := s.reap.(next := s.reap.next + 1))
    case DeleteManifest => s.(manifests := s.manifests - {s.reap.manifestKey}, reap := NoReap)
    case StopReap => s.(reap := NoReap)
  }

  /** The state after a run, when every action of it was enabled. */
  function Exec(s: State, acts: seq<Action>): Option<State> {
    if acts == [] then Some(s)
    else
      var mid := Exec(s, acts[..|acts| - 1]);
      if mid.Some? && Enabled(mid.value, acts[|acts| - 1])
      then Some(Apply(mid.value, acts[|acts| - 1])) else None
  }

  /** No read of a listed file failed inside a compaction. */
  predicate ReadsSucceed(acts: seq<Action>) {
    forall i :: 0 <= i < |acts| ==> acts[i] != ReadFails
  }

  /** Some run of the state machine leads from `s` to `t`, without a failed read. */
  ghost predicate Leads(s: State, t: State) {
    exists acts :: Exec(s, acts) == Some(t) && ReadsSucceed(acts)
  }

  lemma LeadsNowhere(s: State)
    ensures Leads(s, s)
  {
    assert Exec(s, []) == Some(s) && ReadsSucceed([]);
  }

  lemma LeadsOn(s: State, t: State, a: Action, u: State)
    requires Leads(s, t) && Enabled(t, a) && Apply(t, a) == u && a != ReadFails
    ensures Leads(s, u)
  {
    var acts :| Exec(s, acts) == Some(t) && ReadsSucceed(acts);
    assert (acts + [a])[..|acts|] == acts;
    assert Exec(s, acts + [a]) == Some(u) && ReadsSucceed(acts + [a]);
  }

  lemma ReadStep(s: State, listed: seq<int>, next: nat, rows: seq<Row>, more: seq<Row>)
    requires s.job == Reading(listed, next, rows) && next < |listed| && listed[next] in s.l0
    requires rows + Extract(s.l0[listed[next]], s.eid) == more
    ensures Enabled(s, Read) && Apply(s, Read) == s.(job := Reading(listed, next + 1, more))
  {
  }

  lemma {:induction false} ExecAppend(s: State, a: seq<Action>, b: seq<Action>)
    requires Exec(s, a).Some?
    ensures Exec(s, a + b) == Exec(Exec(s, a).value, b)
  {
    if b == [] {
      assert a + b == a;
    } else {
      ExecAppend(s, a, b[..|b| - 1]);
      assert (a + b)[..|a + b| - 1] == a + b[..|b| - 1];
    }
  }
}
