/**
 The zero-consume ramp-up as runs of the protocol: scaler ticks and the scans of the workers they
 start, while every task body that is under way stays under way.
 */
module RampUp {
  import opened Counting
  import opened Shards
  import opened Scaling
  import opened ScalingLaws
  import opened Protocol
  import opened Invariant
  import opened Steps
  import opened Capacity
  import opened Drain
  import opened Ramp

  /** A step of the ramp: the scaler's, with an eligible zero-consume decision that reads the true queue depth, or a worker's outside task execution. */
  predicate RampAction(s: State, a: Action) {
    match a
    case ScalerStep => true
    case PopIdle(_) => true
    case Decide(_, consumeMed, exitMed, queued, eligible) => consumeMed == 0.0 && exitMed == 0.0 && eligible && queued == Queued(s)
    case Work(g, _, _) => g < |s.gors| && !s.gors[g].pc.Run?
    case _ => false
  }

  predicate RampRun(c: Config, s: State, run: seq<Action>)
    requires Fires(c, s, run)
    decreases |run|
  {
    run != [] ==> RampAction(s, run[0]) && RampRun(c, Apply(c, s, run[0]), run[1..])
  }

  /** Some ramp run leads from s to t. */
  ghost predicate RampsTo(c: Config, s: State, t: State) {
    exists run :: Fires(c, s, run) && RampRun(c, s, run) && After(c, s, run) == t
  }

  lemma {:induction false} RampRunThen(c: Config, s: State, run: seq<Action>, a: Action)
    requires Fires(c, s, run) && RampRun(c, s, run) && Enabled(c, After(c, s, run), a) && RampAction(After(c, s, run), a)
    ensures Fires(c, s, run + [a]) && RampRun(c, s, run + [a])
    decreases |run|
  {
    FiresThen(c, s, run, a);
    if run != [] {
      RampRunThen(c, Apply(c, s, run[0]), run[1..], a);
      ConsConcat(run, [a]);
    }
  }

  /** s comes from s0 by a ramp run in which no task was finished. */
  ghost predicate Ramped(c: Config, s0: State, s: State) {
    Inv(c, s) && RampsTo(c, s0, s) && s.finished == s0.finished
  }

  lemma WorkKeepsFinished(c: Config, s: State, g: Gid, now: int, panics: bool)
    requires WorkEnabled(c, s, g) && !s.gors[g].pc.Run?
    ensures WorkStep(c, s, g, now, panics).finished == s.finished
  {
  }

  lemma RampKeepsFinished(c: Config, s: State, a: Action)
    requires Enabled(c, s, a) && RampAction(s, a)
    ensures Apply(c, s, a).finished == s.finished
  {
    if a.Work? {
      WorkKeepsFinished(c, s, a.g, a.now, a.panics);
    }
  }

  lemma RampedNow(c: Config, s: State)
    requires Inv(c, s)
    ensures Ramped(c, s, s)
  {
    assert Fires(c, s, []) && RampRun(c, s, []) && After(c, s, []) == s;
  }

  lemma RampsThen(c: Config, s0: State, s: State, a: Action)
    requires RampsTo(c, s0, s) && Enabled(c, s, a) && RampAction(s, a)
    ensures RampsTo(c, s0, Apply(c, s, a))
  {
    var run :| Fires(c, s0, run) && RampRun(c, s0, run) && After(c, s0, run) == s;
    RampRunThen(c, s0, run, a);
    FiresThen(c, s0, run, a);
  }

  lemma RampedThen(c: Config, s0: State, s: State, a: Action) returns (t: State)
    requires c.Valid() && Ramped(c, s0, s) && Enabled(c, s, a) && RampAction(s, a)
    ensures t == Apply(c, s, a) && Ramped(c, s0, t)
  {
    t := Apply(c, s, a);
    StepKeepsInv(c, s, a);
    RampKeepsFinished(c, s, a);
    RampsThen(c, s0, s, a);
  }

  /** A scaler step, by the state it leads to. */
  lemma ScalerRamps(c: Config, s0: State, s: State, t: State)
    requires c.Valid() && Ramped(c, s0, s) && ScalerEnabled(c, s) && ScalerApply(c, s) == t
    ensures Ramped(c, s0, t)
  {
    var u := RampedThen(c, s0, s, ScalerStep);
  }

  // ---- a scanning worker takes queued work ----

  predicate Busy(w: Goroutine) {
    w.pc.Run? && w.pc.phase != Releasing
  }

  /** t differs from s in worker g and in what it took from the queues. */
  predicate OnlyWorker(s: State, t: State, g: Gid) {
    g < |s.gors| == |t.gors| && t.gors == s.gors[g := t.gors[g]]
    && t.running == s.running && t.scaler == s.scaler && t.bufOwner == s.bufOwner
  }

  lemma {:induction false} ConcatTake(qs: seq<seq<Id>>, k: nat)
    requires k < |qs| && qs[k] != []
    ensures |Concat(qs[k := qs[k][1..]])| == |Concat(qs)| - 1
  {
    var n := |qs| - 1;
    if k == n {
      assert qs[k := qs[k][1..]][..n] == qs[..n];
    } else {
      ConcatTake(qs[..n], k);
      assert qs[k := qs[k][1..]][..n] == qs[..n][k := qs[k][1..]];
    }
  }

  lemma {:induction false} ConcatEmpty(qs: seq<seq<Id>>)
    requires forall k :: 0 <= k < |qs| ==> qs[k] == []
    ensures Concat(qs) == []
  {
    if qs != [] {
      ConcatEmpty(qs[..|qs| - 1]);
    }
  }

  /** Which state a probe that finds a task leads to. */
  lemma ScanTakes(c: Config, s: State, g: Gid)
    requires Inv(c, s) && WorkEnabled(c, s, g) && s.gors[g].pc.Scan? && CanTake(c, s, g)
    ensures var t := WorkStep(c, s, g, 0, false);
      OnlyWorker(s, t, g) && Busy(t.gors[g]) && Queued(t) < Queued(s)
  {
    var k := Probe(c, s, g);
    assert ShardOk(c, s.jobs, s.shards[k], k);
    assert JobOk(c, s.jobs[s.shards[k][0]]);
    ConcatTake(s.shards, k);
  }

  lemma BatchTakes(c: Config, s: State, g: Gid)
    requires WorkEnabled(c, s, g) && s.gors[g].pc.Batch? && s.buffer != []
    ensures var t := WorkStep(c, s, g, 0, false);
      OnlyWorker(s, t, g) && Busy(t.gors[g]) && Queued(t) < Queued(s)
  {
  }

  /** A probe that finds nothing, or the end of the scan, moves only the worker. */
  lemma ScanMisses(c: Config, s: State, g: Gid)
    requires WorkEnabled(c, s, g) && s.gors[g].pc.Scan? && !CanTake(c, s, g)
    ensures var pc := if s.gors[g].pc.i >= c.shards then Batch else Scan(s.gors[g].pc.i + 1);
      WorkStep(c, s, g, 0, false) == WithGor(s, g, pc)
  {
  }

  lemma AllSeenEmpty(c: Config, s: State, cursor: nat)
    requires c.Valid() && |s.shards| == c.shards >= 1 && SeenEmpty(c, s, cursor, c.shards)
    ensures Concat(s.shards) == []
  {
    forall k | 0 <= k < |s.shards|
      ensures s.shards[k] == []
    {
      var j := ScanCovers(cursor, c.shards, k);
    }
    ConcatEmpty(s.shards);
  }

  lemma OnlyWorkerTwice(s: State, u: State, t: State, g: Gid)
    requires OnlyWorker(s, u, g) && OnlyWorker(u, t, g)
    ensures OnlyWorker(s, t, g)
  {
    assert u.gors[g := t.gors[g]] == s.gors[g := t.gors[g]];
  }

  lemma WorkerMisses(c: Config, s0: State, s: State, g: Gid) returns (u: State)
    requires c.Valid() && Ramped(c, s0, s) && WorkEnabled(c, s, g) && s.gors[g].pc.Scan? && !CanTake(c, s, g)
    ensures Ramped(c, s0, u) && OnlyWorker(s, u, g) && u.shards == s.shards && u.buffer == s.buffer
    ensures u.gors[g].cursor == s.gors[g].cursor
    ensures u.gors[g].pc == if s.gors[g].pc.i >= c.shards then Batch else Scan(s.gors[g].pc.i + 1)
  {
    ScanMisses(c, s, g);
    u := RampedThen(c, s0, s, Work(g, 0, false));
  }

  lemma WorkerBatches(c: Config, s0: State, s: State, g: Gid) returns (t: State)
    requires c.Valid() && Ramped(c, s0, s) && s.bufOwner.None? && g < |s.gors| && s.gors[g].pc.Batch? && s.buffer != []
    ensures Ramped(c, s0, t) && OnlyWorker(s, t, g) && Busy(t.gors[g]) && Queued(t) < Queued(s)
  {
    WorkReady(c, s, g);
    BatchTakes(c, s, g);
    t := RampedThen(c, s0, s, Work(g, 0, false));
  }

  lemma WorkerProbes(c: Config, s0: State, s: State, g: Gid) returns (t: State)
    requires c.Valid() && Ramped(c, s0, s) && WorkEnabled(c, s, g) && s.gors[g].pc.Scan? && CanTake(c, s, g)
    ensures Ramped(c, s0, t) && OnlyWorker(s, t, g) && Busy(t.gors[g]) && Queued(t) < Queued(s)
  {
    ScanTakes(c, s, g);
    t := RampedThen(c, s0, s, Work(g, 0, false));
  }

  /** A scan, continued from probes that met empty shards, ends with a task of a shard or a batch of the buffer. */
  lemma {:induction false} WorkerTakes(c: Config, s0: State, s: State, g: Gid) returns (t: State)
    requires c.Valid() && Ramped(c, s0, s) && s.bufOwner.None? && Queued(s) > 0
    requires g < |s.gors| && s.gors[g].pc.Scan? && s.gors[g].pc.i <= c.shards && c.shards >= 1
    requires SeenEmpty(c, s, s.gors[g].cursor, s.gors[g].pc.i)
    ensures Ramped(c, s0, t) && OnlyWorker(s, t, g) && Busy(t.gors[g]) && Queued(t) < Queued(s)
    decreases c.shards - s.gors[g].pc.i
  {
    WorkReady(c, s, g);
    if CanTake(c, s, g) {
      t := WorkerProbes(c, s0, s, g);
    } else {
      var u := WorkerMisses(c, s0, s, g);
      if s.gors[g].pc.i < c.shards {
        SeenOneMore(c, s, u, g);
        t := WorkerTakes(c, s0, u, g);
      } else {
        AllSeenEmpty(c, s, s.gors[g].cursor);
        t := WorkerBatches(c, s0, u, g);
      }
      OnlyWorkerTwice(s, u, t, g);
    }
  }

  // ---- between ticks ----

  /** The scaler sleeps, nothing is reserved, and every running worker is busy or has just been started. */
  predicate Ready(s: State) {
    s.bufOwner.None? && s.scaler.Asleep? && s.running == Count(s.gors, Alive)
    && forall g :: 0 <= g < |s.gors| && Alive(s.gors[g]) ==> Busy(s.gors[g]) || s.gors[g].pc.Begin?
  }

  predicate NoneStarting(s: State) {
    forall g :: 0 <= g < |s.gors| ==> !s.gors[g].pc.Begin?
  }

  lemma ReadyIsBusy(c: Config, s: State)
    requires Inv(c, s) && s.bufOwner.None? && s.scaler.Asleep?
    ensures Ready(s) && NoneStarting(s) <==> AllBusy(s)
  {
  }

  /** A worker that has just been started takes queued work. */
  lemma StarterTakes(c: Config, s0: State, s: State, g: Gid) returns (t: State)
    requires c.Valid() && Ramped(c, s0, s) && Ready(s) && Queued(s) > 0 && g < |s.gors| && s.gors[g].pc.Begin?
    ensures Ramped(c, s0, t) && Ready(t) && Queued(t) < Queued(s) && t.running == s.running
  {
    ShardInRange(0, c.shards);
    var u := StarterScans(c, s0, s, g);
    t := WorkerTakes(c, s0, u, g);
    OnlyWorkerTwice(s, u, t, g);
    StillReady(s, t, g);
  }

  lemma StarterScans(c: Config, s0: State, s: State, g: Gid) returns (u: State)
    requires c.Valid() && Ramped(c, s0, s) && g < |s.gors| && s.gors[g].pc.Begin?
    ensures Ramped(c, s0, u) && OnlyWorker(s, u, g) && u.shards == s.shards && u.buffer == s.buffer && u.gors[g].pc == Scan(0)
  {
    WorkReady(c, s, g);
    u := RampedThen(c, s0, s, Work(g, 0, false));
  }

  lemma StillReady(s: State, t: State, g: Gid)
    requires Ready(s) && OnlyWorker(s, t, g) && Alive(s.gors[g]) && Busy(t.gors[g])
    ensures Ready(t)
  {
    CountUpdate(s.gors, g, t.gors[g], Alive);
  }

  // ---- one tick ----

  /** t differs from s in the scaler and in goroutines that it has started. */
  predicate Started(s: State, t: State, n: nat) {
    t.jobs == s.jobs && t.shards == s.shards && t.buffer == s.buffer && t.bufOwner == s.bufOwner
    && t.pending == s.pending && t.closer == s.closer
    && |t.gors| == |s.gors| + n && t.gors[..|s.gors|] == s.gors
    && forall g :: |s.gors| <= g < |t.gors| ==> t.gors[g].pc.Begin?
  }

  lemma StartedTwice(s: State, u: State, t: State, m: nat, n: nat)
    requires Started(s, u, m) && Started(u, t, n)
    ensures Started(s, t, m + n)
  {
    assert t.gors[..|s.gors|] == t.gors[..|u.gors|][..|s.gors|];
    forall g | |s.gors| <= g < |t.gors|
      ensures t.gors[g].pc.Begin?
    {
      assert g < |u.gors| ==> t.gors[g] == t.gors[..|u.gors|][g];
    }
  }

  /** One turn of the spawn loop: a worker object from the idle container or a fresh one, and its goroutine. */
  lemma LaunchOne(c: Config, s0: State, s: State) returns (t: State)
    requires c.Valid() && Ramped(c, s0, s) && s.scaler.Spawn? && s.scaler.left > 0
    ensures Ramped(c, s0, t) && Started(s, t, 1) && t.running == s.running && t.scaler == Spawn(s.scaler.left - 1)
  {
    var u := PopRamps(c, s0, s);
    ShardInRange(0, c.shards);
    StartOnly(c, u);
    t := ScalerApply(c, u);
    StartedTwice(s, u, t, 0, 1);
    ScalerRamps(c, s0, u, t);
  }

  lemma PopRamps(c: Config, s0: State, s: State) returns (u: State)
    requires c.Valid() && Ramped(c, s0, s) && s.scaler.Spawn? && s.scaler.left > 0
    ensures Ramped(c, s0, u) && Started(s, u, 0) && u.running == s.running && u.scaler.Start? && u.scaler.left == s.scaler.left
  {
    PopOnly(c, s);
    u := RampedThen(c, s0, s, PopIdle(0));
  }

  lemma PopOnly(c: Config, s: State)
    requires Inv(c, s) && s.scaler.Spawn? && s.scaler.left > 0
    ensures PopEnabled(s, 0)
    ensures var t := PopApply(s, 0);
      Started(s, t, 0) && t.running == s.running && t.scaler.Start? && t.scaler.left == s.scaler.left
  {
  }

  lemma StartOnly(c: Config, s: State)
    requires c.shards >= 1 && Inv(c, s) && s.scaler.Start?
    ensures ScalerEnabled(c, s)
    ensures var t := ScalerApply(c, s);
      Started(s, t, 1) && t.running == s.running && t.scaler == Spawn(s.scaler.left - 1)
  {
  }

  lemma {:induction false} LaunchAll(c: Config, s0: State, s: State) returns (t: State)
    requires c.Valid() && Ramped(c, s0, s) && s.scaler.Spawn?
    ensures Ramped(c, s0, t) && Started(s, t, s.scaler.left) && t.running == s.running && t.scaler == Spawn(0)
    decreases s.scaler.left
  {
    if s.scaler.left == 0 {
      t := s;
    } else {
      var u := LaunchOne(c, s0, s);
      t := LaunchAll(c, s0, u);
      StartedTwice(s, u, t, 1, s.scaler.left - 1);
    }
  }

  /** The end of a tick: with tasks pending the scaler goes back to sleep, closed or not. */
  lemma TickEnds(c: Config, s0: State, s: State) returns (t: State)
    requires c.Valid() && Ramped(c, s0, s) && s.scaler == Spawn(0) && s.pending > 0
    ensures Ramped(c, s0, t) && t == s.(scaler := Asleep)
  {
    ShardInRange(0, c.shards);
    var u := s.(scaler := ReadClosed);
    t := s.(scaler := Asleep);
    ScalerRamps(c, s0, s, u);
    if s.Closed() {
      var v := s.(scaler := ReadPending);
      ScalerRamps(c, s0, u, v);
      ScalerRamps(c, s0, v, t);
    } else {
      ScalerRamps(c, s0, u, t);
    }
  }

  /** How many workers a tick starts from s. */
  function TickSize(c: Config, s: State): int {
    if s.running == 0 then Min(s.pending, c.knobs.capacity)
    else Min(Min(Queued(s), s.running), Min(c.knobs.maxStep, c.knobs.capacity - s.running))
  }

  lemma TickDemand(c: Config, s: State, submitMed: real, depth: nat)
    requires c.Valid() && Inv(c, s) && AllBusy(s) && s.bufOwner.None? && Queued(s) > 0 && s.running < c.knobs.capacity
    requires submitMed >= 0.0
    ensures Demand(c.knobs, Readings(submitMed, 0.0, 0.0, s.running, depth, s.pending, Queued(s), true)) == TickSize(c, s)
    ensures 1 <= TickSize(c, s) <= c.knobs.capacity - s.running
  {
    var r := Readings(submitMed, 0.0, 0.0, s.running, depth, s.pending, Queued(s), true);
    BusyBacklogInv(c, s);
    if s.running > 0 {
      SnapshotGrows(c, s, r);
      RampStep(c.knobs, r);
    }
  }

  lemma TickReads(c: Config, s0: State, s: State) returns (t: State)
    requires c.Valid() && Ramped(c, s0, s) && s.bufOwner.None? && s.scaler.Asleep?
    ensures Ramped(c, s0, t) && t == s.(scaler := SawBacklog(s.running, |s.buffer|, s.pending))
  {
    ShardInRange(0, c.shards);
    var u, v := s.(scaler := SawRunning(s.running)), s.(scaler := SawDepth(s.running, |s.buffer|));
    t := s.(scaler := SawBacklog(s.running, |s.buffer|, s.pending));
    ScalerRamps(c, s0, s, u);
    ScalerRamps(c, s0, u, v);
    ScalerRamps(c, s0, v, t);
  }

  /** The readings of a tick and its decision. */
  lemma TickDecides(c: Config, s0: State, s: State, submitMed: real) returns (t: State)
    requires c.Valid() && Ramped(c, s0, s) && AllBusy(s) && s.bufOwner.None? && s.scaler.Asleep?
    requires Queued(s) > 0 && s.running < c.knobs.capacity && submitMed >= 0.0
    ensures Ramped(c, s0, t) && t == s.(scaler := Recheck(TickSize(c, s))) && 1 <= TickSize(c, s) <= c.knobs.capacity - s.running
  {
    TickDemand(c, s, submitMed, |s.buffer|);
    t := TickReads(c, s0, s);
    t := RampedThen(c, s0, t, Decide(submitMed, 0.0, 0.0, Queued(s), true));
  }

  /** The locked re-check and the add grant the whole demand. */
  lemma TickAdds(c: Config, s0: State, s: State) returns (t: State)
    requires c.Valid() && Ramped(c, s0, s) && s.scaler.Recheck? && 1 <= s.scaler.demand <= c.knobs.capacity - s.running
    ensures Ramped(c, s0, t) && t == s.(running := s.running + s.scaler.demand, scaler := Spawn(s.scaler.demand))
  {
    ShardInRange(0, c.shards);
    var n := s.scaler.demand;
    var u := s.(scaler := Add(s.running, n));
    t := s.(running := s.running + n, scaler := Spawn(n));
    RecheckIs(c, s);
    ScalerRamps(c, s0, s, u);
    ScalerRamps(c, s0, u, t);
  }

  lemma RecheckIs(c: Config, s: State)
    requires ScalerEnabled(c, s) && s.scaler.Recheck? && 1 <= s.scaler.demand <= c.knobs.capacity - s.running
    ensures ScalerApply(c, s) == s.(scaler := Add(s.running, s.scaler.demand))
  {
  }

  /** An eligible zero-consume tick over a state with all workers busy starts exactly TickSize goroutines and touches nothing else. */
  lemma Tick(c: Config, s0: State, s: State, submitMed: real) returns (t: State)
    requires c.Valid() && Ramped(c, s0, s) && AllBusy(s) && s.bufOwner.None? && s.scaler.Asleep?
    requires Queued(s) > 0 && s.running < c.knobs.capacity && submitMed >= 0.0
    ensures Ramped(c, s0, t) && 1 <= TickSize(c, s) && Started(s, t, TickSize(c, s))
    ensures t.running == s.running + TickSize(c, s) <= c.knobs.capacity && t.scaler.Asleep?
  {
    BusyBacklogInv(c, s);
    var u := TickDecides(c, s0, s, submitMed);
    u := TickAdds(c, s0, u);
    assert Started(s, u, 0);
    t := LaunchAll(c, s0, u);
    StartedTwice(s, u, t, 0, TickSize(c, s));
    t := TickEnds(c, s0, t);
  }

  lemma TickReady(c: Config, s: State, t: State, n: nat)
    requires Inv(c, s) && Inv(c, t) && AllBusy(s) && s.bufOwner.None? && n > 0 && Started(s, t, n) && t.scaler.Asleep?
    ensures Ready(t) && !NoneStarting(t) && Queued(t) == Queued(s)
  {
    assert t.gors[|s.gors|].pc.Begin?;
    forall g | 0 <= g < |t.gors| && Alive(t.gors[g])
      ensures Busy(t.gors[g]) || t.gors[g].pc.Begin?
    {
      assert g < |s.gors| ==> t.gors[g] == t.gors[..|s.gors|][g];
    }
  }

  // ---- the whole ramp ----

  /** Nothing is queued any more, or the pool is at capacity with every worker busy. */
  predicate RampedUp(c: Config, t: State) {
    Queued(t) == 0 || (AllBusy(t) && t.running >= c.knobs.capacity)
  }

  lemma {:induction false} RampsUpFrom(c: Config, s0: State, s: State, submitMed: real) returns (t: State)
    requires c.Valid() && Ramped(c, s0, s) && Ready(s) && submitMed >= 0.0 && s.running <= Max(s0.running, c.knobs.capacity)
    ensures Ramped(c, s0, t) && RampedUp(c, t) && t.running <= Max(s0.running, c.knobs.capacity)
    decreases Queued(s), if NoneStarting(s) then 1 else 0
  {
    ReadyIsBusy(c, s);
    if Queued(s) == 0 {
      t := s;
    } else if g :| 0 <= g < |s.gors| && s.gors[g].pc.Begin? {
      t := StarterTakes(c, s0, s, g);
      t := RampsUpFrom(c, s0, t, submitMed);
    } else if s.running >= c.knobs.capacity {
      t := s;
    } else {
      t := Tick(c, s0, s, submitMed);
      TickReady(c, s, t, TickSize(c, s));
      t := RampsUpFrom(c, s0, t, submitMed);
    }
  }

  /**
   Zero-consume ramp-up: from every reachable state in which every running worker is busy and the scaler
   sleeps, eligible zero-consume ticks and the scans of the workers they start lead, without any task
   finishing, to a state with nothing queued or with capacity reached and every worker busy. Each
   tick on the way starts TickSize workers.
   */
  lemma RampsUp(c: Config, s: State, submitMed: real)
    requires c.Valid() && Reachable(c, s) && AllBusy(s) && s.bufOwner.None? && s.scaler.Asleep? && submitMed >= 0.0
    ensures exists t :: RampsTo(c, s, t) && RampedUp(c, t) && t.finished == s.finished && t.running <= Max(s.running, c.knobs.capacity)
  {
    ReachableInv(c, s);
    RampedNow(c, s);
    ReadyIsBusy(c, s);
    var t := RampsUpFrom(c, s, s, submitMed);
  }
}
