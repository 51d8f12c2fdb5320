/** The inductive invariant of the pool protocol. */
module Invariant {
  import opened Counting
  import opened Scaling
  import opened Tasks
  import opened TaskBufferSpec
  import opened Protocol

  // ---- one submit call ----

  /** The task has left its submitter and was not rejected. */
  predicate InSystem(st: Stage) {
    st.InShard? || st.InBuffer? || st.Held? || st.Exec? || st.Settled? || st.Finished?
  }

  predicate WorkerHas(st: Stage) {
    st.Held? || st.Exec? || st.Settled?
  }

  predicate IsForwarding(pc: SubPc) {
    pc.FwdPick? || pc.FwdSend? || pc.FwdPop?
  }

  predicate StageMatchesPc(c: Config, j: Job) {
    match j.pc
    case Enter => j.stage.Fresh?
    case AddWg => j.stage.CountedOnce?
    case Offer(k) => j.stage.WithSubmitter? && k < c.shards
    case FullWait(k) => j.stage.WithSubmitter? && k < c.shards
    case FwdSend(k) => InSystem(j.stage) && k < c.shards
    case FwdPick | FwdPop | Announce => InSystem(j.stage)
    case DropWg => j.stage.Dropping?
    case Returned(ok) => if ok then InSystem(j.stage) else j.stage.Rejected?
    case _ => j.stage.WithSubmitter?
  }

  predicate HasRun(log: seq<Event>) {
    |log| == 3 && log[0] == Started && log[1].Ran? && log[2] == Completed
  }

  predicate LogMatchesStage(j: Job) {
    match j.stage
    case Exec(_, Starting) => j.log == []
    case Exec(_, Running) => j.log == [Started]
    case Exec(_, Completing) => |j.log| == 2 && j.log[0] == Started && j.log[1].Ran?
    case Exec(_, Settling) => HasRun(j.log)
    case Exec(_, _) => false
    case Settled(_) => HasRun(j.log)
    case Finished => HasRun(j.log)
    case _ => j.log == []
  }

  predicate JobOk(c: Config, j: Job) {
    StageMatchesPc(c, j) && LogMatchesStage(j) && !IsNilTask(j.body)
    && j.enqueued == (if j.pc == Returned(true) then 1 else 0)
  }

  predicate JobsOk(c: Config, jobs: seq<Job>) {
    forall id :: 0 <= id < |jobs| ==> JobOk(c, jobs[id])
  }

  // ---- the queues ----

  predicate ShardOk(c: Config, jobs: seq<Job>, q: seq<Id>, k: nat) {
    |q| <= c.shardCap && Distinct(q)
    && forall i :: 0 <= i < |q| ==> q[i] < |jobs| && jobs[q[i]].stage == InShard(k)
  }

  predicate ShardsOk(c: Config, jobs: seq<Job>, shards: seq<seq<Id>>) {
    |shards| == c.shards
    && (forall k :: 0 <= k < |shards| ==> ShardOk(c, jobs, shards[k], k))
    && (forall id :: 0 <= id < |jobs| && jobs[id].stage.InShard? ==>
          jobs[id].stage.k < |shards| && id in shards[jobs[id].stage.k])
  }

  predicate HeadSent(jobs: seq<Job>, bufOwner: Option<Id>) {
    bufOwner.Some? && bufOwner.value < |jobs| && jobs[bufOwner.value].pc.FwdPop?
  }

  /** The buffered tasks that are not also in a shard: the head is left out between its send and its pop. */
  function Unsent(jobs: seq<Job>, buffer: seq<Id>, bufOwner: Option<Id>): seq<Id> {
    if HeadSent(jobs, bufOwner) && buffer != [] then buffer[1..] else buffer
  }

  predicate LockOk(jobs: seq<Job>, buffer: seq<Id>, bufOwner: Option<Id>) {
    (bufOwner.Some? ==> bufOwner.value < |jobs| && IsForwarding(jobs[bufOwner.value].pc) && buffer != [])
    && (forall id :: 0 <= id < |jobs| && IsForwarding(jobs[id].pc) ==> bufOwner == Some(id))
  }

  predicate QueueOk(jobs: seq<Job>, q: seq<Id>) {
    Distinct(q)
    && (forall i :: 0 <= i < |q| ==> q[i] < |jobs| && jobs[q[i]].stage.InBuffer?)
    && (forall id :: 0 <= id < |jobs| && jobs[id].stage.InBuffer? ==> id in q)
  }

  predicate BufferOk(jobs: seq<Job>, buffer: seq<Id>, bufOwner: Option<Id>) {
    |buffer| <= MAX_CHUNK_LEN && LockOk(jobs, buffer, bufOwner) && QueueOk(jobs, Unsent(jobs, buffer, bufOwner))
  }

  // ---- the workers ----

  function ExpectedStage(g: Gid, phase: Phase, i: nat): Stage {
    if i > 0 || phase == Touching then Held(g)
    else if phase == Releasing then Settled(g)
    else Exec(g, phase)
  }

  predicate BatchOk(jobs: seq<Job>, batch: seq<Id>, phase: Phase, g: Gid) {
    1 <= |batch| <= BATCH_SIZE && Distinct(batch)
    && forall i :: 0 <= i < |batch| ==> batch[i] < |jobs| && jobs[batch[i]].stage == ExpectedStage(g, phase, i)
  }

  predicate GorOk(c: Config, jobs: seq<Job>, w: Goroutine, g: Gid) {
    w.cursor < c.shards
    && (w.pc.Run? ==> BatchOk(jobs, w.pc.batch, w.pc.phase, g))
  }

  predicate GorsOk(c: Config, jobs: seq<Job>, gors: seq<Goroutine>) {
    (forall g :: 0 <= g < |gors| ==> GorOk(c, jobs, gors[g], g))
    && (forall id :: 0 <= id < |jobs| && WorkerHas(jobs[id].stage) ==>
          jobs[id].stage.g < |gors| && gors[jobs[id].stage.g].pc.Run? && id in gors[jobs[id].stage.g].pc.batch)
  }

  predicate FinishedOk(jobs: seq<Job>, finished: seq<Id>) {
    Distinct(finished)
    && (forall i :: 0 <= i < |finished| ==> finished[i] < |jobs| && jobs[finished[i]].stage.Finished?)
    && (forall id :: 0 <= id < |jobs| && jobs[id].stage.Finished? ==> id in finished)
  }

  predicate OwnersOk(jobs: seq<Job>, gors: seq<Goroutine>, idle: seq<Obj>, owner: seq<Owner>, scaler: ScalerPc) {
    (forall g :: 0 <= g < |gors| && !gors[g].pc.Exited? ==> gors[g].obj < |owner| && owner[gors[g].obj] == Worker(g))
    && (forall id :: 0 <= id < |jobs| && jobs[id].pc.ColdStart? ==>
          jobs[id].pc.obj < |owner| && owner[jobs[id].pc.obj] == ColdStarter(id))
    && (scaler.Start? ==> scaler.obj < |owner| && owner[scaler.obj] == Scaler)
    && Distinct(idle)
    && (forall i :: 0 <= i < |idle| ==> idle[i] < |owner| && owner[idle[i]] == Parked)
  }

  // ---- the counters ----

  predicate InPending(j: Job) {
    j.stage.CountedOnce? || j.stage.WithSubmitter? || j.stage.InShard? || j.stage.InBuffer? || j.stage.Held? || j.stage.Exec?
  }

  predicate InWg(j: Job) {
    j.stage.WithSubmitter? || j.stage.InShard? || j.stage.InBuffer? || j.stage.Held? || j.stage.Exec?
    || j.stage.Settled? || j.stage.Dropping?
  }

  /** A submitter that won the cold-start CAS and has not launched its worker yet. */
  predicate Reserving(j: Job) {
    j.pc.ColdGet? || j.pc.ColdStart?
  }

  /** A goroutine that has not passed its park decrement. */
  predicate Alive(w: Goroutine) {
    !w.pc.ParkIdle? && !w.pc.Exited?
  }

  function ScalerReserved(scaler: ScalerPc): nat {
    if scaler.Spawn? || scaler.Start? then scaler.left else 0
  }

  predicate PendingOk(s: State) {
    s.pending == Count(s.jobs, InPending)
  }

  predicate WgOk(s: State) {
    s.wg == Count(s.jobs, InWg)
  }

  predicate RunningOk(s: State) {
    s.running == Count(s.gors, Alive) + Count(s.jobs, Reserving) + ScalerReserved(s.scaler)
  }

  predicate ScalerOk(c: Config, s: State) {
    s.running <= c.knobs.capacity + 1 &&
    match s.scaler
    case SawRunning(r) => r >= 0
    case SawDepth(r, d) => r >= 0 && d >= 0
    case SawBacklog(r, d, b) => r >= 0 && d >= 0 && b >= 0
    case Recheck(demand) => demand > 0
    case Add(current, actual) => 0 <= current && 1 <= actual <= c.knobs.capacity - current && s.running <= Max(current, 1)
    case Start(left, _) => left > 0
    case _ => true
  }

  /** A submission that the closed flag will turn away, or has just turned away. */
  predicate TurnedAway(j: Job) {
    j.pc.AddWg? || j.pc.CheckClosed? || j.pc.DropPending?
  }

  predicate ShutdownOk(s: State) {
    (s.scaler.ReadPending? || s.scaler.Stopped? ==> s.Closed())
    && (s.scaler.Stopped? ==> forall id :: 0 <= id < |s.jobs| && InPending(s.jobs[id]) ==> TurnedAway(s.jobs[id]))
  }

  /** Every task is where its submit call, its queue or its worker says. */
  predicate Places(c: Config, s: State) {
    JobsOk(c, s.jobs)
    && ShardsOk(c, s.jobs, s.shards)
    && BufferOk(s.jobs, s.buffer, s.bufOwner)
    && GorsOk(c, s.jobs, s.gors)
    && FinishedOk(s.jobs, s.finished)
  }

  /** The counters, the worker objects and the scaler agree with those places. */
  predicate Books(c: Config, s: State) {
    OwnersOk(s.jobs, s.gors, s.idle, s.owner, s.scaler) && |s.lastActive| == |s.owner|
    && PendingOk(s) && WgOk(s) && RunningOk(s)
    && ScalerOk(c, s) && ShutdownOk(s)
  }

  predicate Inv(c: Config, s: State) {
    Places(c, s) && Books(c, s)
  }

  lemma InitInv(c: Config)
    requires c.Valid()
    ensures Inv(c, Init(c))
  {
  }

  // ---- frames: a group is kept when the tasks it speaks about keep their places ----

  /** jobs' extends jobs, and same(old, new) holds wherever both exist; new jobs are Fresh at Enter. */
  predicate Extends(jobs: seq<Job>, jobs': seq<Job>) {
    |jobs| <= |jobs'|
    && forall id :: |jobs| <= id < |jobs'| ==> jobs'[id].pc.Enter? && jobs'[id].stage.Fresh?
  }

  lemma ShardsFrame(c: Config, jobs: seq<Job>, jobs': seq<Job>, shards: seq<seq<Id>>)
    requires ShardsOk(c, jobs, shards) && Extends(jobs, jobs')
    requires forall id :: 0 <= id < |jobs| ==>
      jobs[id].stage == jobs'[id].stage || (!jobs[id].stage.InShard? && !jobs'[id].stage.InShard?)
    ensures ShardsOk(c, jobs', shards)
  {
    forall k | 0 <= k < |shards|
      ensures ShardOk(c, jobs', shards[k], k)
    {
      assert ShardOk(c, jobs, shards[k], k);
    }
  }

  lemma BufferFrame(jobs: seq<Job>, jobs': seq<Job>, buffer: seq<Id>, bufOwner: Option<Id>)
    requires BufferOk(jobs, buffer, bufOwner) && Extends(jobs, jobs')
    requires forall id :: 0 <= id < |jobs| ==>
      jobs[id].stage.InBuffer? == jobs'[id].stage.InBuffer?
      && IsForwarding(jobs[id].pc) == IsForwarding(jobs'[id].pc)
      && jobs[id].pc.FwdPop? == jobs'[id].pc.FwdPop?
    ensures BufferOk(jobs', buffer, bufOwner)
    ensures Unsent(jobs', buffer, bufOwner) == Unsent(jobs, buffer, bufOwner)
  {
  }

  lemma GorsFrame(c: Config, jobs: seq<Job>, jobs': seq<Job>, gors: seq<Goroutine>)
    requires GorsOk(c, jobs, gors) && Extends(jobs, jobs')
    requires forall id :: 0 <= id < |jobs| ==>
      jobs[id].stage == jobs'[id].stage || (!WorkerHas(jobs[id].stage) && !WorkerHas(jobs'[id].stage))
    ensures GorsOk(c, jobs', gors)
  {
    forall g | 0 <= g < |gors|
      ensures GorOk(c, jobs', gors[g], g)
    {
      assert GorOk(c, jobs, gors[g], g);
    }
  }

  lemma FinishedFrame(jobs: seq<Job>, jobs': seq<Job>, finished: seq<Id>)
    requires FinishedOk(jobs, finished) && Extends(jobs, jobs')
    requires forall id :: 0 <= id < |jobs| ==> jobs[id].stage.Finished? == jobs'[id].stage.Finished?
    ensures FinishedOk(jobs', finished)
  {
  }

  // ---- moves ----

  /** A send puts a task that was in no shard at the end of shard k. */
  lemma ShardsSend(c: Config, jobs: seq<Job>, shards: seq<seq<Id>>, id: Id, k: nat, j: Job)
    requires ShardsOk(c, jobs, shards) && id < |jobs| && k < |shards| && |shards[k]| < c.shardCap
    requires !jobs[id].stage.InShard? && j.stage == InShard(k)
    ensures ShardsOk(c, jobs[id := j], shards[k := shards[k] + [id]])
  {
    var jobs', shards' := jobs[id := j], shards[k := shards[k] + [id]];
    forall m | 0 <= m < |shards'|
      ensures ShardOk(c, jobs', shards'[m], m)
    {
      assert ShardOk(c, jobs, shards[m], m);
    }
    forall x | 0 <= x < |jobs'| && jobs'[x].stage.InShard?
      ensures jobs'[x].stage.k < |shards'| && x in shards'[jobs'[x].stage.k]
    {
      assert x != id ==> x in shards[jobs[x].stage.k];
    }
  }

  /** A receive removes the head of shard k. */
  lemma ShardsTake(c: Config, jobs: seq<Job>, shards: seq<seq<Id>>, k: nat, j: Job)
    requires ShardsOk(c, jobs, shards) && k < |shards| && shards[k] != [] && !j.stage.InShard?
    ensures shards[k][0] < |jobs| && jobs[shards[k][0]].stage == InShard(k)
    ensures ShardsOk(c, jobs[shards[k][0] := j], shards[k := shards[k][1..]])
  {
    assert ShardOk(c, jobs, shards[k], k);
    var id := shards[k][0];
    var jobs', shards' := jobs[id := j], shards[k := shards[k][1..]];
    forall m | 0 <= m < |shards'|
      ensures ShardOk(c, jobs', shards'[m], m)
    {
      assert ShardOk(c, jobs, shards[m], m);
      assert m != k ==> id !in shards[m];
    }
    forall x | 0 <= x < |jobs'| && jobs'[x].stage.InShard?
      ensures jobs'[x].stage.k < |shards'| && x in shards'[jobs'[x].stage.k]
    {
      assert x != id && x in shards[jobs[x].stage.k];
      assert shards[k] == [id] + shards[k][1..];
    }
  }

  /** A counter over jobs moves by what happens at the updated job. */
  lemma JobCounts(jobs: seq<Job>, id: Id, j: Job)
    requires id < |jobs|
    ensures Count(jobs[id := j], InPending) == Count(jobs, InPending) - (if InPending(jobs[id]) then 1 else 0) + (if InPending(j) then 1 else 0)
    ensures Count(jobs[id := j], InWg) == Count(jobs, InWg) - (if InWg(jobs[id]) then 1 else 0) + (if InWg(j) then 1 else 0)
    ensures Count(jobs[id := j], Reserving) == Count(jobs, Reserving) - (if Reserving(jobs[id]) then 1 else 0) + (if Reserving(j) then 1 else 0)
  {
    CountUpdate(jobs, id, j, InPending);
    CountUpdate(jobs, id, j, InWg);
    CountUpdate(jobs, id, j, Reserving);
  }
}
