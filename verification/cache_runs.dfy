/**
 Runs of public operations, each stamped with the time it reads from the
 clock. This is where the properties that span many calls live: the
 throttle lets at most one sweep start per interval, the claim time never
 goes backwards on a monotone clock, and only `Set` ever adds or changes an
 entry.
 */
module CacheRuns {
  import opened ExpireCache

  datatype Op<V> = GetOp(key: string) | SetOp(key: string, v: V, d: int) | DeleteOp(key: string) | ItemsOp

  /** An operation together with the time the clock showed when it ran. */
  datatype Step<V> = Step(op: Op<V>, at: int)

  /** The cache after one step. */
  function Apply<V>(c: Cache<V>, s: Step<V>): Cache<V>
  {
    match s.op
    case GetOp(k) => Get(c, k, s.at).cache
    case SetOp(k, v, d) => Set(c, k, v, d, s.at)
    case DeleteOp(k) => Delete(c, k, s.at)
    case ItemsOp => Items(c, s.at).cache
  }

  /** The cache after all the steps, in order. */
  function Run<V>(c: Cache<V>, steps: seq<Step<V>>): Cache<V>
    decreases |steps|
  {
    if |steps| == 0 then c else Run(Apply(c, steps[0]), steps[1..])
  }

  /** Whether the step starts a sweep: `Get`, `Set` and `Delete` end with
      `clear`, which sweeps unless throttled; `Items` never calls it. */
  predicate StartsSweep<V>(c: Cache<V>, s: Step<V>)
  {
    !s.op.ItemsOp? && !Throttled(c, s.at)
  }

  /** How many sweeps the steps start. */
  function Sweeps<V>(c: Cache<V>, steps: seq<Step<V>>): nat
    decreases |steps|
  {
    if |steps| == 0 then 0
    else (if StartsSweep(c, steps[0]) then 1 else 0) + Sweeps(Apply(c, steps[0]), steps[1..])
  }

  /** No step of the run writes `key`. */
  predicate NeverSets<V>(steps: seq<Step<V>>, key: string)
  {
    forall i :: 0 <= i < |steps| ==> !(steps[i].op.SetOp? && steps[i].op.key == key)
  }

  /** One step keeps the interval, moves the claim time only when it starts
      a sweep, and changes no entry except by writing it with `Set`. */
  lemma ApplyStep<V>(c: Cache<V>, s: Step<V>)
    ensures Apply(c, s).clearInterval == c.clearInterval
    ensures StartsSweep(c, s) ==> Apply(c, s).lastClearTime == s.at
    ensures !StartsSweep(c, s) ==> Apply(c, s).lastClearTime == c.lastClearTime
    ensures forall k :: !(s.op.SetOp? && s.op.key == k) && k in Apply(c, s).mp ==>
              k in c.mp && Apply(c, s).mp[k] == c.mp[k]
  {
  }

  /** While every step falls less than one interval after the last claim,
      no sweep starts and the claim time stays put. */
  lemma {:induction false} NoSweepWithinInterval<V>(c: Cache<V>, steps: seq<Step<V>>)
    requires forall i :: 0 <= i < |steps| ==> steps[i].at - c.lastClearTime < c.clearInterval
    ensures Sweeps(c, steps) == 0
    ensures Run(c, steps).lastClearTime == c.lastClearTime
    decreases |steps|
  {
    if |steps| > 0 {
      var c' := Apply(c, steps[0]);
      ApplyStep(c, steps[0]);
      assert !StartsSweep(c, steps[0]);
      assert forall i :: 0 <= i < |steps[1..]| ==> steps[1..][i] == steps[i + 1];
      NoSweepWithinInterval(c', steps[1..]);
    }
  }

  /** The throttle: whatever the order of the steps, if they all fall in a
      window shorter than the interval, at most one of them starts a sweep. */
  lemma {:induction false} AtMostOneSweepPerInterval<V>(c: Cache<V>, steps: seq<Step<V>>, lo: int)
    requires forall i :: 0 <= i < |steps| ==> lo <= steps[i].at < lo + c.clearInterval
    ensures Sweeps(c, steps) <= 1
    decreases |steps|
  {
    if |steps| > 0 {
      var c' := Apply(c, steps[0]);
      ApplyStep(c, steps[0]);
      assert forall i :: 0 <= i < |steps[1..]| ==> steps[1..][i] == steps[i + 1];
      if StartsSweep(c, steps[0]) {
        NoSweepWithinInterval(c', steps[1..]);
      } else {
        AtMostOneSweepPerInterval(c', steps[1..], lo);
      }
    }
  }

  /** On a clock that never goes backwards, starting from a claim time no
      later than the first step, the claim time never decreases and never
      passes the time of the latest step. */
  lemma {:induction false} ClaimTimeMonotone<V>(c: Cache<V>, steps: seq<Step<V>>)
    requires forall i :: 0 <= i < |steps| ==> c.lastClearTime <= steps[i].at
    requires forall i, j :: 0 <= i < j < |steps| ==> steps[i].at <= steps[j].at
    ensures c.lastClearTime <= Run(c, steps).lastClearTime
    ensures |steps| > 0 ==> Run(c, steps).lastClearTime <= steps[|steps| - 1].at
    decreases |steps|
  {
    if |steps| > 0 {
      var c' := Apply(c, steps[0]);
      ApplyStep(c, steps[0]);
      assert forall i :: 0 <= i < |steps[1..]| ==> steps[1..][i] == steps[i + 1];
      ClaimTimeMonotone(c', steps[1..]);
    }
  }

  /** A key that no step writes is only ever removed: if it is still there
      at the end, it holds the entry it held at the start. */
  lemma {:induction false} OnlySetWrites<V>(c: Cache<V>, steps: seq<Step<V>>, key: string)
    requires NeverSets(steps, key)
    ensures key in Run(c, steps).mp ==> key in c.mp && Run(c, steps).mp[key] == c.mp[key]
    decreases |steps|
  {
    if |steps| > 0 {
      var c' := Apply(c, steps[0]);
      ApplyStep(c, steps[0]);
      assert forall i :: 0 <= i < |steps[1..]| ==> steps[1..][i] == steps[i + 1];
      OnlySetWrites(c', steps[1..], key);
    }
  }

  /** A key never written since the cache was created is never found. */
  lemma NeverSetNeverFound<V>(interval: int, created: int, steps: seq<Step<V>>, key: string, now: int)
    requires NeverSets(steps, key)
    ensures Get(Run(NewCache<V>(interval, created), steps), key, now).value == None
    ensures key !in Items(Run(NewCache<V>(interval, created), steps), now).snapshot
  {
    OnlySetWrites(NewCache<V>(interval, created), steps, key);
  }

  /** Once the duration given to `Set` has run out, the key is not found,
      neither by `Get` nor in the snapshot of `Items`, whatever happened in
      between as long as the key was not written again. */
  lemma ExpiredAfterSet<V>(c: Cache<V>, key: string, v: V, d: int, t0: int,
                           steps: seq<Step<V>>, now: int)
    requires NeverSets(steps, key)
    requires now > t0 + d
    ensures Get(Run(Set(c, key, v, d, t0), steps), key, now).value == None
    ensures key !in Items(Run(Set(c, key, v, d, t0), steps), now).snapshot
  {
    OnlySetWrites(Set(c, key, v, d, t0), steps, key);
  }

  /** The timeline of the repository's `TestName`, with every `Set` taken
      at time 0 and each sleep added to the clock: the first two `Get`s
      (at 0.5 s and about 0.83 s) find their keys, the last two (after the
      one-second duration has run out) do not. */
  lemma TestNameTimeline()
    ensures var second := 1_000_000_000;
            var c0 := NewCache<int>(second + second / 3, 0);
            var c1 := Run(c0, [Step(SetOp("1", 1, second), 0), Step(SetOp("2", 1, second), 0),
                               Step(SetOp("3", 1, second), 0), Step(SetOp("4", 1, second), 0)]);
            var g1 := Get(c1, "1", 500_000_000);
            var g2 := Get(g1.cache, "2", 833_333_333);
            var g3 := Get(g2.cache, "3", 1_333_333_333);
            var g4 := Get(g3.cache, "4", 1_833_333_333);
            g1.value == Some(1) && g2.value == Some(1) && g3.value == None && g4.value == None
  {
    var second := 1_000_000_000;
    var c0 := NewCache<int>(second + second / 3, 0);
    var steps := [Step(SetOp("1", 1, second), 0), Step(SetOp("2", 1, second), 0),
                  Step(SetOp("3", 1, second), 0), Step(SetOp("4", 1, second), 0)];
    // All four writes fall inside the first interval, so none of them sweeps.
    var a1 := Set(c0, "1", 1, second, 0);
    var a2 := Set(a1, "2", 1, second, 0);
    var a3 := Set(a2, "3", 1, second, 0);
    var a4 := Set(a3, "4", 1, second, 0);
    assert Run(c0, steps) == Run(a1, steps[1..]);
    assert Run(a1, steps[1..]) == Run(a2, steps[2..]);
    assert Run(a2, steps[2..]) == Run(a3, steps[3..]);
    assert Run(a3, steps[3..]) == Run(a4, []);
    assert a4.lastClearTime == 0 && "3" in a4.mp && "4" in a4.mp;
    // The third read is the first call a full interval after creation: its
    // sweep removes "4" as well.
    var g3 := Get(Get(Get(a4, "1", 500_000_000).cache, "2", 833_333_333).cache, "3", 1_333_333_333);
    assert "4" !in g3.cache.mp;
  }
}
