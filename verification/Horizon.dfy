/** How far back pruning must leave history alone: queries raise a shared frontier by compare
    and swap, and the scheduler derives the horizon from what it reads of it. */
module Horizon {
  import opened Basics
  import opened Bytes

  /** Signed 64-bit arithmetic wraps around. */
  function Wrap(n: int): (r: int)
    ensures IsI64(r) && (IsI64(n) ==> r == n)
  {
    (n - MIN_I64) % U64 + MIN_I64
  }

  function Candidate(floor: int, backoff: int, observed: int): int {
    Max(floor, Wrap(observed - backoff))
  }

  // ---- The compactor's horizon -----------------------------------------------------------------

  class Compactor {
    const floor: int
    const backoff: int
    var pruning: bool
    var horizon: int
    var refused: nat

    /** Pruning without a positive horizon is switched off, and then the horizon and the
        floor are zero. */
    constructor (pruning: bool, horizon: int, backoff: int)
      requires IsI64(horizon) && IsI64(backoff)
      ensures this.pruning <==> pruning && horizon > 0
      ensures this.horizon == floor == (if pruning && horizon <= 0 then 0 else horizon)
      ensures this.backoff == backoff && refused == 0
    {
      var bad := pruning && horizon <= 0;
      this.floor := if bad then 0 else horizon;
      this.horizon := if bad then 0 else horizon;
      this.pruning := pruning && !bad;
      this.backoff := backoff;
      this.refused := 0;
    }

    method EffectiveHorizon(observed: int) returns (h: int)
      ensures h == Candidate(floor, backoff, observed) && h >= floor
    {
      var inferred := Wrap(observed - backoff);
      if inferred < floor {
        return floor;
      }
      return inferred;
    }

    /** The horizon takes the candidate only to rise; a lower one is refused and counted. */
    method SetInferredHorizon(candidate: int) returns (applied: int)
      modifies this`horizon, this`refused
      ensures horizon == applied == Max(old(horizon), candidate)
      ensures refused == old(refused) + (if candidate < old(horizon) then 1 else 0)
    {
      var current := horizon;
      if candidate <= current {
        if candidate < current {
          refused := refused + 1;
        }
        return current;
      }
      horizon := candidate;
      return candidate;
    }

    method InferHorizon(observed: int) returns (applied: int)
      modifies this`horizon, this`refused
      ensures horizon == applied == Max(old(horizon), Candidate(floor, backoff, observed))
      ensures refused == old(refused) + (if Candidate(floor, backoff, observed) < old(horizon) then 1 else 0)
    {
      var effective := EffectiveHorizon(observed);
      applied := SetInferredHorizon(effective);
    }
  }

  // ---- The resolver's frontier -----------------------------------------------------------------

  function MaxAll(n: int, xs: seq<int>): (m: int)
    ensures m >= n && forall i :: 0 <= i < |xs| ==> m >= xs[i]
    ensures m == n || m in xs
  {
    if xs == [] then n else Max(MaxAll(n, xs[..|xs| - 1]), xs[|xs| - 1])
  }

  class Resolver {
    var frontier: int

    constructor ()
      ensures frontier == 0
    {
      frontier := 0;
    }

    /** The compare-and-swap loop; between its load and its swap the next of `rivals` may
        observe too. Whatever they do, the frontier ends as the greatest time seen. */
    method ObserveQueryTxTime(txTime: int, rivals: seq<int>) returns (seen: nat)
      modifies this
      ensures seen <= |rivals| && frontier == Max(MaxAll(old(frontier), rivals[..seen]), txTime)
    {
      seen := 0;
      while true
        invariant seen <= |rivals| && frontier == MaxAll(old(frontier), rivals[..seen])
        decreases |rivals| - seen
      {
        var cur := frontier;
        if cur >= txTime {
          return;
        }
        if seen < |rivals| {
          frontier := Max(frontier, rivals[seen]);
          assert rivals[..seen + 1][..seen] == rivals[..seen];
          seen := seen + 1;
        } else {
          frontier := txTime;
          return;
        }
        if frontier == cur {
          frontier := txTime;
          return;
        }
      }
    }
  }

  // ---- Every interleaving ------------------------------------------------------------------------

  /** A query in the loop: about to load the frontier, or holding what it loaded. */
  datatype Observer = Start(tx: int) | Loaded(tx: int, cur: int)

  /** `begun` are the times of all queries so far; `inference` is what a running inference
      step has read, `last` what the last finished one had read. */
  datatype System = System(
    floor: int, backoff: int, frontier: int, begun: seq<int>, observers: map<nat, Observer>,
    horizon: int, refused: nat, inference: Option<int>, last: Option<int>)

  function Initial(floor: int, backoff: int): System {
    System(floor, backoff, 0, [], map[], floor, 0, None, None)
  }

  datatype Step =
    | Query(tx: int)      // a query enters the loop
    | Load(id: nat)       // it loads the frontier and returns if that is high enough
    | Swap(id: nat)       // it compares and swaps, or goes back to load again
    | InferLoad           // the scheduler reads the frontier
    | InferSet            // the scheduler sets the horizon

  predicate Enabled(s: System, a: Step) {
    match a
    case Query(tx) => IsI64(tx)
    case Load(id) => id in s.observers && s.observers[id].Start?
    case Swap(id) => id in s.observers && s.observers[id].Loaded?
    case InferLoad => s.inference.None?
    case InferSet => s.inference.Some?
  }

  function Apply(s: System, a: Step): System
    requires Enabled(s, a)
  {
    match a
    case Query(tx) => s.(begun := s.begun + [tx], observers := s.observers[|s.begun| := Start(tx)])
    case Load(id) =>
      var tx := s.observers[id].tx;
      if s.frontier >= tx then s.(observers := s.observers - {id})
      else s.(observers := s.observers[id := Loaded(tx, s.frontier)])
    case Swap(id) =>
      var Loaded(tx, cur) := s.observers[id];
      if s.frontier == cur then s.(frontier := tx, observers := s.observers - {id})
      else s.(observers := s.observers[id := Start(tx)])
    case InferLoad => s.(inference := Some(s.frontier))
    case InferSet =>
      var c := Candidate(s.floor, s.backoff, s.inference.value);
      s.(horizon := Max(s.horizon, c), refused := s.refused + (if c < s.horizon then 1 else 0),
         inference := None, last := s.inference)
  }

  predicate Runs(s: System, steps: seq<Step>)
    decreases |steps|, 0
  {
    steps == [] || (Runs(s, steps[..|steps| - 1]) && Enabled(Exec(s, steps[..|steps| - 1]), steps[|steps| - 1]))
  }

  function Exec(s: System, steps: seq<Step>): System
    requires Runs(s, steps)
    decreases |steps|, 1
  {
    if steps == [] then s else Apply(Exec(s, steps[..|steps| - 1]), steps[|steps| - 1])
  }

  /** Each query that is no longer in the loop is at or below the frontier, which is zero or
      the time of some query. */
  predicate FrontierInv(s: System) {
    && 0 <= s.frontier <= MAX_I64 && (s.frontier == 0 || s.frontier in s.begun)
    && (forall i :: 0 <= i < |s.begun| ==> i in s.observers || s.begun[i] <= s.frontier)
    && (forall id :: id in s.observers ==> id < |s.begun| && s.observers[id].tx == s.begun[id] && IsI64(s.begun[id]))
    && (forall id :: id in s.observers && s.observers[id].Loaded? ==> s.observers[id].cur < s.observers[id].tx)
  }

  /** What the horizon is, given what the last inference had read. */
  function Inferred(s: System): int {
    if s.last.None? then s.floor else Candidate(s.floor, s.backoff, s.last.value)
  }

  predicate HorizonInv(s: System) {
    && s.horizon == Inferred(s) && s.refused == 0
    && (s.last.Some? ==> 0 <= s.last.value <= s.frontier)
    && (s.inference.Some? ==> 0 <= s.inference.value <= s.frontier)
    && (s.inference.Some? && s.last.Some? ==> s.last.value <= s.inference.value)
  }

  lemma StepKeepsFrontier(s: System, a: Step)
    requires FrontierInv(s) && Enabled(s, a)
    ensures FrontierInv(Apply(s, a)) && Apply(s, a).frontier >= s.frontier
  {
    var t := Apply(s, a);
    assert a.Query? ==> forall x :: x in s.begun ==> x in t.begun;
  }

  /** The subtraction cannot overflow: nothing observed lies that far beyond a negative backoff. */
  predicate NoOverflow(s: System) {
    s.frontier - s.backoff <= MAX_I64
  }

  lemma CandidateGrows(floor: int, backoff: int, a: int, b: int)
    requires IsI64(backoff) && 0 <= a <= b <= MAX_I64 && b - backoff <= MAX_I64
    ensures Candidate(floor, backoff, a) <= Candidate(floor, backoff, b)
  {
  }

  lemma StepKeepsHorizon(s: System, a: Step)
    requires FrontierInv(s) && HorizonInv(s) && Enabled(s, a) && IsI64(s.backoff) && NoOverflow(s)
    ensures HorizonInv(Apply(s, a)) && Apply(s, a).horizon >= s.horizon
  {
    StepKeepsFrontier(s, a);
    if a.InferSet? && s.last.Some? {
      CandidateGrows(s.floor, s.backoff, s.last.value, s.inference.value);
    }
  }

  lemma {:induction false} RunKeepsFrontier(floor: int, backoff: int, steps: seq<Step>)
    requires Runs(Initial(floor, backoff), steps)
    ensures FrontierInv(Exec(Initial(floor, backoff), steps))
  {
    if steps != [] {
      RunKeepsFrontier(floor, backoff, steps[..|steps| - 1]);
      StepKeepsFrontier(Exec(Initial(floor, backoff), steps[..|steps| - 1]), steps[|steps| - 1]);
    }
  }

  /** Once no query is in the loop, the frontier is the greatest time any query asked for,
      zero if none was positive. */
  lemma FrontierIsMax(floor: int, backoff: int, steps: seq<Step>)
    requires Runs(Initial(floor, backoff), steps) && Exec(Initial(floor, backoff), steps).observers == map[]
    ensures var s := Exec(Initial(floor, backoff), steps); s.frontier == MaxAll(0, s.begun)
  {
    RunKeepsFrontier(floor, backoff, steps);
  }

  lemma {:induction false} RunKeepsHorizon(floor: int, backoff: int, steps: seq<Step>)
    requires 0 <= backoff <= MAX_I64 && Runs(Initial(floor, backoff), steps)
    ensures var s := Exec(Initial(floor, backoff), steps); HorizonInv(s) && s.floor == floor && s.backoff == backoff
  {
    if steps != [] {
      var init := steps[..|steps| - 1];
      RunKeepsFrontier(floor, backoff, init);
      RunKeepsHorizon(floor, backoff, init);
      StepKeepsHorizon(Exec(Initial(floor, backoff), init), steps[|steps| - 1]);
    }
  }

  lemma {:induction false} NothingFalls(floor: int, backoff: int, steps: seq<Step>, more: seq<Step>)
    requires 0 <= backoff <= MAX_I64 && Runs(Initial(floor, backoff), steps) && Runs(Initial(floor, backoff), steps + more)
    ensures Exec(Initial(floor, backoff), steps).horizon <= Exec(Initial(floor, backoff), steps + more).horizon
    ensures Exec(Initial(floor, backoff), steps).frontier <= Exec(Initial(floor, backoff), steps + more).frontier
  {
    if more == [] {
      assert steps + more == steps;
    } else {
      var n := |more| - 1;
      assert (steps + more)[..|steps + more| - 1] == steps + more[..n];
      NothingFalls(floor, backoff, steps, more[..n]);
      LastStep(floor, backoff, steps + more[..n], more[n]);
    }
  }

  lemma LastStep(floor: int, backoff: int, steps: seq<Step>, a: Step)
    requires 0 <= backoff <= MAX_I64 && Runs(Initial(floor, backoff), steps) && Enabled(Exec(Initial(floor, backoff), steps), a)
    ensures var s := Exec(Initial(floor, backoff), steps);
            s.horizon <= Apply(s, a).horizon && s.frontier <= Apply(s, a).frontier
  {
    RunKeepsFrontier(floor, backoff, steps);
    RunKeepsHorizon(floor, backoff, steps);
    StepKeepsFrontier(Exec(Initial(floor, backoff), steps), a);
    StepKeepsHorizon(Exec(Initial(floor, backoff), steps), a);
  }

  /** In every interleaving, with a backoff that is not negative: the horizon is the floor or
      lies the backoff behind what the last inference read, whichever is higher, so never
      below the floor; and no inference is refused. */
  lemma HorizonOverRuns(floor: int, backoff: int, steps: seq<Step>)
    requires 0 <= backoff <= MAX_I64 && Runs(Initial(floor, backoff), steps)
    ensures var s := Exec(Initial(floor, backoff), steps);
            && s.horizon == (if s.last.None? then floor else Max(floor, s.last.value - backoff))
            && s.horizon >= floor && s.refused == 0
  {
    RunKeepsFrontier(floor, backoff, steps);
    RunKeepsHorizon(floor, backoff, steps);
  }

  /** With any backoff, the horizon is the floor or what some inference so far made of what it
      read. */
  predicate FromRead(s: System, u: int) {
    s.last.Some? && 0 <= u <= s.last.value && s.horizon == Candidate(s.floor, s.backoff, u)
  }

  ghost predicate ReadInv(s: System) {
    && (s.horizon == s.floor || exists u :: FromRead(s, u))
    && (s.last.Some? ==> 0 <= s.last.value <= s.frontier)
    && (s.inference.Some? ==> 0 <= s.inference.value <= s.frontier)
    && (s.inference.Some? && s.last.Some? ==> s.last.value <= s.inference.value)
  }

  lemma StepKeepsRead(s: System, a: Step)
    requires FrontierInv(s) && ReadInv(s) && Enabled(s, a)
    ensures ReadInv(Apply(s, a))
  {
    var t := Apply(s, a);
    StepKeepsFrontier(s, a);
    if a.InferSet? && t.horizon != s.horizon {
      assert FromRead(t, s.inference.value);
    } else if s.horizon != s.floor {
      var u :| FromRead(s, u);
      assert FromRead(t, u);
    }
  }

  lemma {:induction false} RunKeepsRead(floor: int, backoff: int, steps: seq<Step>)
    requires Runs(Initial(floor, backoff), steps)
    ensures var s := Exec(Initial(floor, backoff), steps);
            ReadInv(s) && FrontierInv(s) && s.floor == floor && s.backoff == backoff
  {
    RunKeepsFrontier(floor, backoff, steps);
    if steps != [] {
      var init := steps[..|steps| - 1];
      RunKeepsRead(floor, backoff, init);
      StepKeepsRead(Exec(Initial(floor, backoff), init), steps[|steps| - 1]);
    }
  }

  /** What was read only grows, so an inference that does not overflow has none before it that
      did, and is not refused. */
  lemma NoRetreat(s: System)
    requires ReadInv(s) && FrontierInv(s) && s.inference.Some? && IsI64(s.backoff)
    requires s.inference.value - s.backoff <= MAX_I64
    ensures Apply(s, InferSet).refused == s.refused
  {
    if s.horizon != s.floor {
      var u :| FromRead(s, u);
      CandidateGrows(s.floor, s.backoff, u, s.inference.value);
    }
  }

  /** In every interleaving and with any backoff, the next inference is refused only when the
      subtraction overflows; with a floor that is not negative, exactly when it does while the
      horizon stands above the floor, and it then leaves the horizon where it was. */
  lemma RefusedIffOverflow(floor: int, backoff: int, steps: seq<Step>)
    requires IsI64(backoff) && Runs(Initial(floor, backoff), steps) && Exec(Initial(floor, backoff), steps).inference.Some?
    ensures var s := Exec(Initial(floor, backoff), steps);
            var refused := Apply(s, InferSet).refused == s.refused + 1;
            && (refused ==> s.inference.value - backoff > MAX_I64 && Apply(s, InferSet).horizon == s.horizon)
            && (floor >= 0 ==> (refused <==> s.inference.value - backoff > MAX_I64 && s.horizon > floor))
  {
    RunKeepsRead(floor, backoff, steps);
    var s := Exec(Initial(floor, backoff), steps);
    var n := s.inference.value - backoff;
    if n > MAX_I64 {
      assert Wrap(n) == n - U64 < 0;
    } else {
      NoRetreat(s);
    }
  }

  lemma Then(s: System, steps: seq<Step>, a: Step, t: System)
    requires Runs(s, steps) && Exec(s, steps) == t && Enabled(t, a)
    ensures Runs(s, steps + [a]) && Exec(s, steps + [a]) == Apply(t, a)
  {
    assert (steps + [a])[..|steps|] == steps;
  }

  /** A query that meets no rival, and the inference after it. */
  lemma QueryAndInfer(s0: System, steps: seq<Step>, s: System, tx: int) returns (all: seq<Step>)
    requires Runs(s0, steps) && Exec(s0, steps) == s && s.observers == map[] && s.inference.None?
    requires IsI64(tx) && s.frontier < tx
    ensures Runs(s0, all)
    ensures Exec(s0, all) == Apply(s.(frontier := tx, begun := s.begun + [tx], inference := Some(tx)), InferSet)
  {
    var id := |s.begun|;
    Then(s0, steps, Query(tx), s);
    var s1 := s.(begun := s.begun + [tx], observers := map[id := Start(tx)]);
    Then(s0, steps + [Query(tx)], Load(id), s1);
    var s2 := s1.(observers := map[id := Loaded(tx, s.frontier)]);
    Then(s0, steps + [Query(tx)] + [Load(id)], Swap(id), s2);
    var s3 := s.(begun := s.begun + [tx], frontier := tx);
    assert s2.observers - {id} == map[];
    Then(s0, steps + [Query(tx)] + [Load(id)] + [Swap(id)], InferLoad, s3);
    all := steps + [Query(tx)] + [Load(id)] + [Swap(id)] + [InferLoad];
    Then(s0, all, InferSet, s3.(inference := Some(tx)));
    all := all + [InferSet];
  }

  /** With a backoff of -1 the horizon passes every query, and a query at the end of the time
      scale makes the next inference a refused retreat. */
  lemma NegativeBackoffRetreats() returns (steps: seq<Step>)
    ensures Runs(Initial(1, -1), steps)
    ensures var s := Exec(Initial(1, -1), steps); s.horizon == 6 && s.refused == 1 && s.begun == [5, MAX_I64]
  {
    var s0 := Initial(1, -1);
    var first := QueryAndInfer(s0, [], s0, 5);
    var s := Exec(s0, first);
    assert s == System(1, -1, 5, [5], map[], 6, 0, None, Some(5));
    steps := QueryAndInfer(s0, first, s, MAX_I64);
  }
}
