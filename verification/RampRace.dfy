/** A run in which submissions between the scaler's readings make the pending brake clip the ramp. */
module RampRace {
  import opened Counting
  import opened Shards
  import opened Scaling
  import opened ScalingLaws
  import opened Tasks
  import opened Protocol
  import opened Invariant
  import opened Steps
  import opened Capacity
  import opened Ramp

  /** One shard of eight slots, capacity 100, at most four workers per zero-consume tick. */
  function Small(): (c: Config)
    ensures c.shards == 1
  {
    Config(1, 8, false, Knobs(100, 0.5, 4, 1, 1))
  }

  lemma SmallValid()
    ensures Small().Valid()
  {
    assert 1 == Pow2(0);
  }

  function Sent(): Job { Job(Func(false), Announce, InShard(0), 0, []) }

  function Taken(g: Gid): Job { Job(Func(false), Announce, Held(g), 0, []) }

  function On(g: Gid, id: Id): Goroutine { Goroutine(g, 0, Run([id], Touching)) }

  lemma OnlyShard(x: nat)
    ensures ShardOf(x, 1) == 0
  {
  }

  /** A submission to an open pool with running workers and room puts its task into the one shard. */
  lemma Submitted(s: State) returns (t: State)
    requires Reachable(Small(), s) && s.running > 0 && s.closer == Open && |s.shards| == 1 && |s.shards[0]| < 8
    ensures Reachable(Small(), t)
    ensures t == s.(jobs := s.jobs + [Sent()], shards := [s.shards[0] + [|s.jobs|]],
                    pending := s.pending + 1, wg := s.wg + 1, sendSeq := NextCursor(s.sendSeq))
  {
    var id := |s.jobs|;
    t := Entered(s);
    var c := Small();
    OnlyShard(NextCursor(s.sendSeq));
    ReachStep(c, t, Sub(id));
    t := Apply(c, t, Sub(id));
    ReachStep(c, t, Sub(id));
    t := Apply(c, t, Sub(id));
    ReachStep(c, t, Sub(id));
    t := Apply(c, t, Sub(id));
    assert t.jobs == s.jobs + [Sent()];
  }

  /** It has passed the closed check and is about to look at the running count. */
  lemma Entered(s: State) returns (t: State)
    requires Reachable(Small(), s) && s.closer == Open
    ensures Reachable(Small(), t)
    ensures t == s.(jobs := s.jobs + [Job(Func(false), ColdLoad, WithSubmitter, 0, [])], pending := s.pending + 1, wg := s.wg + 1)
  {
    var c, id := Small(), |s.jobs|;
    ReachStep(c, s, Call(Func(false)));
    t := Apply(c, s, Call(Func(false)));
    ReachStep(c, t, Sub(id));
    t := Apply(c, t, Sub(id));
    ReachStep(c, t, Sub(id));
    t := Apply(c, t, Sub(id));
    ReachStep(c, t, Sub(id));
    t := Apply(c, t, Sub(id));
    assert t.jobs == s.jobs + [Job(Func(false), ColdLoad, WithSubmitter, 0, [])];
  }

  function Lone(pc: SubPc): Job { Job(Func(false), pc, WithSubmitter, 0, []) }

  /** The state after the first submission has counted itself, with its program point, goroutines and worker objects. */
  function First(pc: SubPc, running: int, gors: seq<Goroutine>, owner: seq<Owner>, workerSeq: nat): State {
    State([Lone(pc)], [[]], [], None, 1, 1, running, Open, gors, [], owner, seq(|owner|, _ => 0), Asleep, 0, workerSeq, [])
  }

  lemma FirstEntered()
    ensures Reachable(Small(), First(ColdLoad, 0, [], [], 0))
  {
    var c := Small();
    var s := Init(c);
    assert Fires(c, s, []) && After(c, s, []) == s;
    var t := Entered(s);
    assert s.shards == [[]];
    assert t == First(ColdLoad, 0, [], [], 0);
  }

  /** The first submission starts a worker by its compare-and-swap. */
  lemma ColdStarted()
    ensures Reachable(Small(), First(Pick, 1, [Goroutine(0, 0, Begin)], [Worker(0)], 1))
  {
    var c := Small();
    FirstEntered();
    var t := First(ColdLoad, 0, [], [], 0);
    ReachStep(c, t, Sub(0));
    assert Apply(c, t, Sub(0)) == First(ColdCas, 0, [], [], 0);
    t := First(ColdCas, 0, [], [], 0);
    ReachStep(c, t, Sub(0));
    assert Apply(c, t, Sub(0)) == First(ColdGet, 1, [], [], 0);
    ColdLaunched();
  }

  lemma ColdLaunched()
    requires Reachable(Small(), First(ColdGet, 1, [], [], 0))
    ensures Reachable(Small(), First(Pick, 1, [Goroutine(0, 0, Begin)], [Worker(0)], 1))
  {
    var c := Small();
    var t := First(ColdGet, 1, [], [], 0);
    ReachStep(c, t, Sub(0));
    assert Apply(c, t, Sub(0)).lastActive == [0];
    assert Apply(c, t, Sub(0)) == First(ColdStart(0), 1, [], [ColdStarter(0)], 0);
    t := First(ColdStart(0), 1, [], [ColdStarter(0)], 0);
    OnlyShard(1);
    ReachStep(c, t, Sub(0));
    assert Apply(c, t, Sub(0)) == First(Pick, 1, [Goroutine(0, 0, Begin)], [Worker(0)], 1);
  }

  // ---- the race, scene by scene ----

  /** A state with one worker object per goroutine, no finished task and nothing in the overflow buffer. */
  function Scene(jobs: seq<Job>, shard: seq<Id>, gors: seq<Goroutine>, scaler: ScalerPc, sendSeq: nat): State {
    State(jobs, [shard], [], None, |jobs|, |jobs|, |gors|, Open, gors, [], seq(|gors|, g requires 0 <= g < |gors| => Worker(g)), seq(|gors|, _ => 0), scaler,
          sendSeq, |gors|, [])
  }

  ghost predicate Shown(s: State) {
    Reachable(Small(), s)
  }

  lemma Step(s: State, a: Action, t: State)
    requires Shown(s) && Enabled(Small(), s, a) && Apply(Small(), s, a) == t
    ensures Shown(t)
  {
    ReachStep(Small(), s, a);
  }

  /** A worker at its first probe takes the head of the shard. */
  lemma WorkerPicks(jobs: seq<Job>, shard: seq<Id>, gors: seq<Goroutine>, sendSeq: nat, g: Gid)
    requires g < |gors| && gors[g] == Goroutine(g, 0, Begin) && shard != [] && shard[0] < |jobs| && jobs[shard[0]] == Sent()
    requires Shown(Scene(jobs, shard, gors, Asleep, sendSeq))
    ensures Shown(Scene(jobs[shard[0] := Taken(g)], shard[1..], gors[g := On(g, shard[0])], Asleep, sendSeq))
  {
    var a := Work(g, 0, false);
    var w := Goroutine(g, 0, Scan(0));
    var s, t := Scene(jobs, shard, gors, Asleep, sendSeq), Scene(jobs, shard, gors[g := w], Asleep, sendSeq);
    assert Apply(Small(), s, a).lastActive == t.lastActive;
    Step(s, a, t);
    OnlyShard(0);
    assert Probe(Small(), t, g) == 0;
    Step(t, a, Scene(jobs[shard[0] := Taken(g)], shard[1..], gors[g := On(g, shard[0])], Asleep, sendSeq));
  }

  lemma FirstSent()
    ensures Shown(Scene([Sent()], [0], [Goroutine(0, 0, Begin)], Asleep, 1))
  {
    ColdStarted();
    var s := First(Pick, 1, [Goroutine(0, 0, Begin)], [Worker(0)], 1);
    OnlyShard(1);
    var t := s.(jobs := [Lone(Offer(0))], sendSeq := 1);
    Step(s, Sub(0), t);
    var u := Scene([Sent()], [0], [Goroutine(0, 0, Begin)], Asleep, 1);
    assert u.owner == [Worker(0)] && u.lastActive == s.lastActive;
    assert t.shards[0] + [0] == [0];
    assert t.shards[0 := t.shards[0] + [0]] == u.shards && t.jobs[0 := Sent()] == u.jobs;
    Step(t, Sub(0), u);
  }

  lemma SubmittedScene(jobs: seq<Job>, shard: seq<Id>, gors: seq<Goroutine>, scaler: ScalerPc, sendSeq: nat)
    requires Shown(Scene(jobs, shard, gors, scaler, sendSeq)) && gors != [] && |shard| < 8 && sendSeq < 100
    ensures Shown(Scene(jobs + [Sent()], shard + [|jobs|], gors, scaler, sendSeq + 1))
  {
    var t := Submitted(Scene(jobs, shard, gors, scaler, sendSeq));
    assert t == Scene(jobs + [Sent()], shard + [|jobs|], gors, scaler, sendSeq + 1);
  }

  /** The three readings of a tick. */
  lemma TickReadings(jobs: seq<Job>, shard: seq<Id>, gors: seq<Goroutine>, sendSeq: nat)
    requires Shown(Scene(jobs, shard, gors, Asleep, sendSeq))
    ensures Shown(Scene(jobs, shard, gors, SawBacklog(|gors|, 0, |jobs|), sendSeq))
  {
    Step(Scene(jobs, shard, gors, Asleep, sendSeq), ScalerStep, Scene(jobs, shard, gors, SawRunning(|gors|), sendSeq));
    Step(Scene(jobs, shard, gors, SawRunning(|gors|), sendSeq), ScalerStep, Scene(jobs, shard, gors, SawDepth(|gors|, 0), sendSeq));
    Step(Scene(jobs, shard, gors, SawDepth(|gors|, 0), sendSeq), ScalerStep, Scene(jobs, shard, gors, SawBacklog(|gors|, 0, |jobs|), sendSeq));
  }

  function TwoQueued(): seq<Job> { [Taken(0), Sent(), Sent()] }

  /** Worker 0 is busy and two tasks are queued; the tick reads that. */
  lemma OneBusyTwoQueued()
    ensures Shown(Scene(TwoQueued(), [1, 2], [On(0, 0)], SawBacklog(1, 0, 3), 3))
  {
    FirstSent();
    WorkerPicks([Sent()], [0], [Goroutine(0, 0, Begin)], 1, 0);
    assert [Sent()][0 := Taken(0)] == [Taken(0)] && [0][1..] == [] && [Goroutine(0, 0, Begin)][0 := On(0, 0)] == [On(0, 0)];
    SubmittedScene([Taken(0)], [], [On(0, 0)], Asleep, 1);
    assert [Taken(0)] + [Sent()] == [Taken(0), Sent()] && [] + [1] == [1];
    SubmittedScene([Taken(0), Sent()], [1], [On(0, 0)], Asleep, 2);
    assert [Taken(0), Sent()] + [Sent()] == TwoQueued() && [1] + [2] == [1, 2];
    TickReadings(TwoQueued(), [1, 2], [On(0, 0)], 3);
  }

  /** That tick adds one worker. */
  lemma SecondAdded()
    ensures Shown(Scene(TwoQueued(), [1, 2], [On(0, 0)], Spawn(1), 3).(running := 2))
  {
    OneBusyTwoQueued();
    var s := Scene(TwoQueued(), [1, 2], [On(0, 0)], SawBacklog(1, 0, 3), 3);
    var a := Decide(0.0, 0.0, 0.0, 2, true);
    SmallValid();
    RampStep(Small().knobs, Reading(s, a));
    Step(s, a, s.(scaler := Recheck(1)));
    Step(s.(scaler := Recheck(1)), ScalerStep, s.(scaler := Add(1, 1)));
    Step(s.(scaler := Add(1, 1)), ScalerStep, s.(scaler := Spawn(1), running := 2));
  }

  lemma SecondStarted()
    ensures Shown(Scene(TwoQueued(), [1, 2], [On(0, 0), Goroutine(1, 0, Begin)], Spawn(0), 3))
  {
    SecondAdded();
    var s := Scene(TwoQueued(), [1, 2], [On(0, 0)], Spawn(1), 3).(running := 2);
    var t := s.(scaler := Protocol.Start(1, 1), owner := [Worker(0), Protocol.Scaler], lastActive := [0, 0]);
    assert s.owner == [Worker(0)] && s.lastActive == [0];
    Step(s, PopIdle(0), t);
    OnlyShard(2);
    var u := Scene(TwoQueued(), [1, 2], [On(0, 0), Goroutine(1, 0, Begin)], Spawn(0), 3);
    assert u.owner == [Worker(0), Worker(1)] && u.lastActive == [0, 0];
    Step(t, ScalerStep, u);
  }

  function TwoTaken(): seq<Job> { [Taken(0), Taken(1), Sent()] }

  /** Both workers are busy, one task is queued, and the next tick has read 2 running and 3 pending. */
  lemma TwoBusy()
    ensures Shown(Scene(TwoTaken(), [2], [On(0, 0), On(1, 1)], Asleep, 3))
    ensures Shown(Scene(TwoTaken(), [2], [On(0, 0), On(1, 1)], SawBacklog(2, 0, 3), 3))
  {
    SecondStarted();
    var gors := [On(0, 0), Goroutine(1, 0, Begin)];
    Step(Scene(TwoQueued(), [1, 2], gors, Spawn(0), 3), ScalerStep, Scene(TwoQueued(), [1, 2], gors, ReadClosed, 3));
    Step(Scene(TwoQueued(), [1, 2], gors, ReadClosed, 3), ScalerStep, Scene(TwoQueued(), [1, 2], gors, Asleep, 3));
    WorkerPicks(TwoQueued(), [1, 2], gors, 3, 1);
    assert TwoQueued()[1 := Taken(1)] == TwoTaken() && [1, 2][1..] == [2] && gors[1 := On(1, 1)] == [On(0, 0), On(1, 1)];
    TickReadings(TwoTaken(), [2], [On(0, 0), On(1, 1)], 3);
  }

  /** Five more submissions land before the queue depth is read. */
  lemma {:induction false} MoreLand(n: nat)
    requires n <= 5
    ensures Shown(Scene(TwoTaken() + seq(n, _ => Sent()), seq(n + 1, i => i + 2), [On(0, 0), On(1, 1)], SawBacklog(2, 0, 3), 3 + n))
  {
    if n == 0 {
      TwoBusy();
      assert TwoTaken() + seq(0, _ => Sent()) == TwoTaken() && seq(1, i => i + 2) == [2];
    } else {
      MoreLand(n - 1);
      var jobs, shard := TwoTaken() + seq(n - 1, _ => Sent()), seq(n, i => i + 2);
      SubmittedScene(jobs, shard, [On(0, 0), On(1, 1)], SawBacklog(2, 0, 3), 2 + n);
      assert jobs + [Sent()] == TwoTaken() + seq(n, _ => Sent());
      assert shard + [|jobs|] == seq(n + 1, i => i + 2);
    }
  }

  /**
   The brake can clip: both workers are busy and work is queued all along, the tick has read 2 running
   and 3 pending, and 6 tasks are queued when it decides. The growth is 2, the re-check is asked for 1.
   */
  lemma BrakeClips() returns (s: State, a: Action)
    ensures Reachable(Small(), s) && AllBusy(s) && s.bufOwner.None? && Queued(s) == 6 && s.pending == 8
    ensures s.scaler == SawBacklog(2, 0, 3) && s.running == 2 && a == Decide(0.0, 0.0, 0.0, Queued(s), true)
    ensures DecideEnabled(Small(), s, a) && RampGrowth(Small().knobs, Reading(s, a)) == 2
    ensures DecideApply(Small(), s, a).scaler == Recheck(1)
  {
    MoreLand(5);
    s := Scene(TwoTaken() + seq(5, _ => Sent()), seq(6, i => i + 2), [On(0, 0), On(1, 1)], SawBacklog(2, 0, 3), 8);
    BothBusy(s);
    a := Decide(0.0, 0.0, 0.0, 6, true);
    SmallValid();
    RampStep(Small().knobs, Reading(s, a));
  }

  lemma BothBusy(s: State)
    requires s.gors == [On(0, 0), On(1, 1)] && |s.shards| == 1 && s.scaler.SawBacklog?
    requires forall id :: 0 <= id < |s.jobs| ==> s.jobs[id].pc.Announce?
    ensures AllBusy(s) && Queued(s) == |s.shards[0]| + |s.buffer|
  {
    assert Concat(s.shards[..0]) == [] && Concat(s.shards) == s.shards[0];
    CountPositive(s.jobs, Reserving);
  }
}
