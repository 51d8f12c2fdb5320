/** The worker-count bound, the race that exceeds it by one, and the bound on outstanding tasks. */
module Capacity {
  import opened Counting
  import opened Scaling
  import opened Tasks
  import opened TaskBufferSpec
  import opened Protocol
  import opened Invariant
  import opened Steps
  import opened Safety

  /**
   runningWorkersNum counts the goroutines before their park decrement and the slots reserved by a
   cold start or the scaler; with single-atomic steps it never exceeds capacity + 1.
   */
  lemma RunningBound(c: Config, s: State)
    requires c.Valid() && Reachable(c, s)
    ensures s.running == Count(s.gors, Alive) + Count(s.jobs, Reserving) + ScalerReserved(s.scaler)
    ensures 0 <= s.running <= c.knobs.capacity + 1
  {
    ReachableInv(c, s);
  }

  lemma SubRunning(c: Config, s: State, id: Id)
    requires SubEnabled(c, s, id)
    ensures SubStep(c, s, id).running <= Max(s.running, 1) && SubStep(c, s, id).scaler == s.scaler
  {
  }

  lemma WorkRunning(c: Config, s: State, g: Gid, now: int, panics: bool)
    requires WorkEnabled(c, s, g)
    ensures WorkStep(c, s, g, now, panics).running <= s.running && WorkStep(c, s, g, now, panics).scaler == s.scaler
  {
  }

  predicate IsAdd(s: State, a: Action) {
    a.ScalerStep? && s.scaler.Add?
  }

  /** Apart from the scaler's add, a step raises the count only from 0 to 1; an Add state carries the count just read. */
  lemma RunningStep(c: Config, s: State, a: Action)
    requires Enabled(c, s, a) && !IsAdd(s, a)
    ensures Apply(c, s, a).running <= Max(s.running, 1)
    ensures Apply(c, s, a).scaler.Add? && !s.scaler.Add? ==> Apply(c, s, a).scaler.current == Apply(c, s, a).running
  {
    if a.Sub? {
      SubRunning(c, s, a.id);
    } else if a.Work? {
      WorkRunning(c, s, a.g, a.now, a.panics);
    }
  }

  /**
   A step takes the count over capacity exactly when it is the scaler's add, its re-check had read 0
   and granted the whole capacity, and a cold start has won its CAS since.
   */
  lemma OvershootExactly(c: Config, s: State, a: Action)
    requires c.Valid() && Reachable(c, s) && Enabled(c, s, a) && s.running <= c.knobs.capacity
    ensures Apply(c, s, a).running > c.knobs.capacity
      <==> a.ScalerStep? && s.scaler == Add(0, c.knobs.capacity) && s.running == 1
  {
    ReachableInv(c, s);
    Overshoots(c, s, a);
  }

  lemma Overshoots(c: Config, s: State, a: Action)
    requires c.Valid() && ScalerOk(c, s) && Enabled(c, s, a) && s.running <= c.knobs.capacity
    ensures Apply(c, s, a).running > c.knobs.capacity
      <==> a.ScalerStep? && s.scaler == Add(0, c.knobs.capacity) && s.running == 1
  {
    if !IsAdd(s, a) {
      RunningStep(c, s, a);
    }
  }

  /** In the run the locked re-check and the add are one step: no other action comes between them. */
  predicate LockedPair(c: Config, s: State, run: seq<Action>)
    requires Fires(c, s, run)
    decreases |run|
  {
    run != [] ==> (s.scaler.Add? ==> run[0].ScalerStep?) && LockedPair(c, Apply(c, s, run[0]), run[1..])
  }

  lemma {:induction false} LockedBoundFrom(c: Config, s: State, run: seq<Action>)
    requires c.Valid() && Inv(c, s) && Fires(c, s, run) && LockedPair(c, s, run)
    requires s.running <= c.knobs.capacity && (s.scaler.Add? ==> s.scaler.current == s.running)
    ensures After(c, s, run).running <= c.knobs.capacity
    decreases |run|
  {
    if run != [] {
      StepKeepsInv(c, s, run[0]);
      if !IsAdd(s, run[0]) {
        RunningStep(c, s, run[0]);
      }
      LockedBoundFrom(c, Apply(c, s, run[0]), run[1..]);
    }
  }

  /** When the re-check and the add are one step, the count never exceeds capacity. */
  lemma LockedBound(c: Config, run: seq<Action>)
    requires c.Valid() && Fires(c, Init(c), run) && LockedPair(c, Init(c), run)
    ensures After(c, Init(c), run).running <= c.knobs.capacity
  {
    InitInv(c);
    LockedBoundFrom(c, Init(c), run);
  }

  // ---- the race happens ----

  function Waiting(): Job { Job(Func(false), AddWg, CountedOnce, 0, []) }

  /** n submit calls have counted themselves and gone no further. */
  function Burst(c: Config, n: nat): State {
    Init(c).(jobs := seq(n, _ => Waiting()), pending := n)
  }

  lemma {:induction false} BurstReachable(c: Config, n: nat)
    requires c.Valid()
    ensures Reachable(c, Burst(c, n))
  {
    if n == 0 {
      assert Fires(c, Init(c), []) && Burst(c, 0) == After(c, Init(c), []);
    } else {
      BurstReachable(c, n - 1);
      var s := Burst(c, n - 1);
      ReachStep(c, s, Call(Func(false)));
      var t := Apply(c, s, Call(Func(false)));
      ReachStep(c, t, Sub(n - 1));
      assert Apply(c, t, Sub(n - 1)).jobs == Burst(c, n).jobs;
      assert Apply(c, t, Sub(n - 1)) == Burst(c, n);
    }
  }

  /** The first submission passes the closed check and the cold-start load. */
  lemma BurstColdCas(c: Config, n: nat) returns (s: State)
    requires c.Valid() && n >= 1
    ensures Reachable(c, s) && s == Burst(c, n).(jobs := s.jobs, wg := 1)
    ensures |s.jobs| == n && s.jobs[0].pc == ColdCas
  {
    BurstReachable(c, n);
    s := Burst(c, n);
    ReachStep(c, s, Sub(0));
    s := Apply(c, s, Sub(0));
    ReachStep(c, s, Sub(0));
    s := Apply(c, s, Sub(0));
    ReachStep(c, s, Sub(0));
    s := Apply(c, s, Sub(0));
  }

  lemma DemandAll(k: Knobs)
    requires k.Valid()
    ensures Demand(k, Readings(0.0, 0.0, 0.0, 0, 0, k.capacity, 0, false)) == k.capacity
  {
  }

  /** The scaler has read 0 running workers, decided to start capacity of them and passed its re-check. */
  lemma BurstRechecked(c: Config) returns (s: State)
    requires c.Valid()
    ensures Reachable(c, s) && s.running == 0 && s.scaler == Add(0, c.knobs.capacity)
    ensures 0 < |s.jobs| && s.jobs[0].pc == ColdCas
  {
    s := BurstColdCas(c, c.knobs.capacity);
    ReachStep(c, s, ScalerStep);
    s := Apply(c, s, ScalerStep);
    ReachStep(c, s, ScalerStep);
    s := Apply(c, s, ScalerStep);
    ReachStep(c, s, ScalerStep);
    s := Apply(c, s, ScalerStep);
    DemandAll(c.knobs);
    var d := Decide(0.0, 0.0, 0.0, 0, false);
    ReachStep(c, s, d);
    s := Apply(c, s, d);
    ReachStep(c, s, ScalerStep);
    s := Apply(c, s, ScalerStep);
  }

  /**
   For every configuration the count reaches capacity + 1 in some interleaving. The model's counters are
   unbounded: at a capacity of 2^63 - 1 the source's int64 counter would wrap at that step.
   */
  lemma CapacityPlusOneReachable(c: Config)
    requires c.Valid()
    ensures exists s :: Reachable(c, s) && s.running == c.knobs.capacity + 1
  {
    var s := BurstRechecked(c);
    ReachStep(c, s, Sub(0));
    var t := Apply(c, s, Sub(0));
    ReachStep(c, t, ScalerStep);
    assert Apply(c, t, ScalerStep).running == c.knobs.capacity + 1;
  }

  // ---- backpressure ----

  function Concat(qs: seq<seq<Id>>): seq<Id> {
    if qs == [] then [] else Concat(qs[..|qs| - 1]) + qs[|qs| - 1]
  }

  function Batches(gors: seq<Goroutine>): seq<Id> {
    if gors == [] then []
    else
      var pc := gors[|gors| - 1].pc;
      Batches(gors[..|gors| - 1]) + (if pc.Run? then pc.batch else [])
  }

  lemma MulNext(n: nat, cap: nat)
    ensures (n + 1) * cap == n * cap + cap
  {
  }

  lemma {:induction false} ConcatHolds(qs: seq<seq<Id>>, cap: nat)
    requires forall k :: 0 <= k < |qs| ==> |qs[k]| <= cap
    ensures |Concat(qs)| <= |qs| * cap
    ensures forall k, id :: 0 <= k < |qs| && id in qs[k] ==> id in Concat(qs)
  {
    if qs != [] {
      var n := |qs| - 1;
      ConcatHolds(qs[..n], cap);
      MulNext(n, cap);
      forall k, id | 0 <= k < |qs| && id in qs[k]
        ensures id in Concat(qs)
      {
        assert k < n ==> qs[..n][k] == qs[k];
      }
    }
  }

  lemma {:induction false} BatchesHold(gors: seq<Goroutine>)
    requires forall g :: 0 <= g < |gors| && gors[g].pc.Run? ==> |gors[g].pc.batch| <= BATCH_SIZE
    ensures |Batches(gors)| <= BATCH_SIZE * Count(gors, Alive)
    ensures forall g, id :: 0 <= g < |gors| && gors[g].pc.Run? && id in gors[g].pc.batch ==> id in Batches(gors)
  {
    if gors != [] {
      var n := |gors| - 1;
      BatchesHold(gors[..n]);
      forall g, id | 0 <= g < |gors| && gors[g].pc.Run? && id in gors[g].pc.batch
        ensures id in Batches(gors)
      {
        assert g < n ==> gors[..n][g] == gors[g];
      }
    }
  }

  /** The tasks that the pool has taken and not finished. */
  function Outstanding(s: State): set<Id> {
    set id | 0 <= id < |s.jobs| && AcceptedPc(s.jobs[id].pc) && id !in s.finished
  }

  lemma OutstandingIsHeld(c: Config, s: State, id: Id)
    requires Inv(c, s) && id in Outstanding(s)
    ensures (exists k :: 0 <= k < |s.shards| && id in s.shards[k]) || id in s.buffer
      || (exists g :: 0 <= g < |s.gors| && s.gors[g].pc.Run? && id in s.gors[g].pc.batch)
  {
    assert JobOk(c, s.jobs[id]);
    var p := StageHasPlace(c, s, id);
    match p
    case ShardSlot(k, i) => assert id in s.shards[k];
    case BufferSlot(i) => assert id in s.buffer;
    case BatchSlot(g, i) => assert id in s.gors[g].pc.batch;
    case FinishedSlot(i) =>
  }

  /** Backpressure: accepted and unfinished tasks are bounded by the queues, the buffer and the workers' batches. */
  lemma BackpressureBound(c: Config, s: State)
    requires c.Valid() && Reachable(c, s)
    ensures |Outstanding(s)| <= c.shards * c.shardCap + 100_000 + 8 * (c.knobs.capacity + 1)
  {
    ReachableInv(c, s);
    forall k | 0 <= k < |s.shards|
      ensures |s.shards[k]| <= c.shardCap
    {
      assert ShardOk(c, s.jobs, s.shards[k], k);
    }
    forall g | 0 <= g < |s.gors| && s.gors[g].pc.Run?
      ensures |s.gors[g].pc.batch| <= BATCH_SIZE
    {
      assert GorOk(c, s.jobs, s.gors[g], g);
    }
    ConcatHolds(s.shards, c.shardCap);
    BatchesHold(s.gors);
    var all := Concat(s.shards) + s.buffer + Batches(s.gors);
    forall id | id in Outstanding(s)
      ensures id in all
    {
      OutstandingIsHeld(c, s, id);
    }
    ElementsBound(all);
    SubsetSize(Outstanding(s), set id | id in all);
  }
}
