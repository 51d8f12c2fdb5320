/** Every step of a worker goroutine keeps the invariant. */
module WorkerSteps {
  import opened Counting
  import opened TaskBufferSpec
  import opened Protocol
  import opened Invariant
  import opened SubmitSteps

  // ---- the batches ----

  lemma GorsSwitch(c: Config, jobs: seq<Job>, gors: seq<Goroutine>, g: Gid, w: Goroutine)
    requires GorsOk(c, jobs, gors) && g < |gors| && !gors[g].pc.Run? && !w.pc.Run? && w.cursor < c.shards
    ensures GorsOk(c, jobs, gors[g := w])
  {
    var gors' := gors[g := w];
    forall h | 0 <= h < |gors'|
      ensures GorOk(c, jobs, gors'[h], h)
    {
      assert GorOk(c, jobs, gors[h], h);
    }
  }

  /** A goroutine without tasks takes a batch of tasks that no worker had. */
  lemma GorsTake(c: Config, jobs: seq<Job>, gors: seq<Goroutine>, g: Gid, w: Goroutine, jobs': seq<Job>)
    requires GorsOk(c, jobs, gors) && g < |gors| && !gors[g].pc.Run? && w.cursor < c.shards
    requires w.pc.Run? && w.pc.phase.Touching? && 1 <= |w.pc.batch| <= BATCH_SIZE && Distinct(w.pc.batch)
    requires |jobs'| == |jobs|
    requires forall i :: 0 <= i < |w.pc.batch| ==> w.pc.batch[i] < |jobs| && !WorkerHas(jobs[w.pc.batch[i]].stage)
    requires forall id :: 0 <= id < |jobs| ==> jobs'[id].stage == (if id in w.pc.batch then Held(g) else jobs[id].stage)
    ensures GorsOk(c, jobs', gors[g := w])
  {
    var gors' := gors[g := w];
    forall h | 0 <= h < |gors'|
      ensures GorOk(c, jobs', gors'[h], h)
    {
      assert GorOk(c, jobs, gors[h], h);
    }
  }

  /** The other goroutines hold other tasks. */
  lemma OthersKeep(c: Config, jobs: seq<Job>, gors: seq<Goroutine>, g: Gid, id: Id, j: Job)
    requires GorsOk(c, jobs, gors) && id < |jobs| && WorkerHas(jobs[id].stage) && jobs[id].stage.g == g
    ensures forall h :: 0 <= h < |gors| && h != g ==> GorOk(c, jobs[id := j], gors[h], h)
  {
    forall h | 0 <= h < |gors| && h != g
      ensures GorOk(c, jobs[id := j], gors[h], h)
    {
      assert GorOk(c, jobs, gors[h], h);
      if gors[h].pc.Run? {
        assert forall i :: 0 <= i < |gors[h].pc.batch| ==> jobs[gors[h].pc.batch[i]].stage.g == h;
      }
    }
  }

  /** The task being executed moves to the next phase of runTask. */
  lemma GorsAdvance(c: Config, jobs: seq<Job>, gors: seq<Goroutine>, g: Gid, phase: Phase, j: Job)
    requires GorsOk(c, jobs, gors) && g < |gors| && gors[g].pc.Run?
    requires j.stage == ExpectedStage(g, phase, 0)
    ensures gors[g].pc.batch != [] && gors[g].pc.batch[0] < |jobs|
    ensures GorsOk(c, jobs[gors[g].pc.batch[0] := j], gors[g := gors[g].(pc := Run(gors[g].pc.batch, phase))])
  {
    assert GorOk(c, jobs, gors[g], g);
    var batch := gors[g].pc.batch;
    var id := batch[0];
    assert jobs[id].stage == ExpectedStage(g, gors[g].pc.phase, 0);
    OthersKeep(c, jobs, gors, g, id, j);
  }

  /** What remains of a batch when its head finishes. */
  lemma BatchTail(jobs: seq<Job>, batch: seq<Id>, phase: Phase, g: Gid, j: Job)
    requires BatchOk(jobs, batch, phase, g) && |batch| > 1
    ensures BatchOk(jobs[batch[0] := j], batch[1..], Touching, g)
  {
    forall i | 0 <= i < |batch| - 1
      ensures batch[1..][i] < |jobs| && jobs[batch[0] := j][batch[1..][i]].stage == Held(g)
    {
      assert batch[1..][i] == batch[i + 1] != batch[0];
    }
  }

  /** The executed task leaves its batch as finished. */
  lemma GorsRelease(c: Config, jobs: seq<Job>, gors: seq<Goroutine>, g: Gid, w: Goroutine, j: Job)
    requires GorsOk(c, jobs, gors) && g < |gors| && gors[g].pc.Run? && gors[g].pc.batch != []
    requires j.stage.Finished? && w.cursor < c.shards
    requires w.pc == NextTask(gors[g].pc.batch)
    ensures gors[g].pc.batch[0] < |jobs| && GorsOk(c, jobs[gors[g].pc.batch[0] := j], gors[g := w])
  {
    assert GorOk(c, jobs, gors[g], g);
    var batch := gors[g].pc.batch;
    var id := batch[0];
    assert jobs[id].stage == ExpectedStage(g, gors[g].pc.phase, 0);
    assert batch == [id] + batch[1..];
    OthersKeep(c, jobs, gors, g, id, j);
    if |batch| > 1 {
      BatchTail(jobs, batch, gors[g].pc.phase, g, j);
    }
  }

  // ---- the counters ----

  lemma SameObjOwners(s: State, jobs': seq<Job>, g: Gid, w: Goroutine)
    requires OwnersOk(s.jobs, s.gors, s.idle, s.owner, s.scaler) && g < |s.gors|
    requires w.obj == s.gors[g].obj && !s.gors[g].pc.Exited?
    requires |jobs'| == |s.jobs| && forall id :: 0 <= id < |s.jobs| ==> jobs'[id].pc == s.jobs[id].pc
    ensures OwnersOk(jobs', s.gors[g := w], s.idle, s.owner, s.scaler)
  {
  }

  /** A goroutine changes its program counter; only the park decrement changes the running count. */
  lemma SwitchBooks(c: Config, s: State, g: Gid, w: Goroutine, r: int)
    requires c.Valid() && Books(c, s) && g < |s.gors| && w.obj == s.gors[g].obj && !s.gors[g].pc.Exited?
    requires r == s.running - Bit(Alive(s.gors[g])) + Bit(Alive(w)) <= s.running
    ensures Books(c, s.(gors := s.gors[g := w], running := r))
  {
    SameObjOwners(s, s.jobs, g, w);
    CountUpdate(s.gors, g, w, Alive);
  }

  /** A live goroutine moves one task along and stays alive. */
  lemma WorkBooks(c: Config, s: State, g: Gid, w: Goroutine, id: Id, j: Job, p: int, v: int)
    requires c.Valid() && Books(c, s) && g < |s.gors| && w.obj == s.gors[g].obj && Alive(s.gors[g]) && Alive(w)
    requires id < |s.jobs| && j.pc == s.jobs[id].pc
    requires p == s.pending - Bit(InPending(s.jobs[id])) + Bit(InPending(j))
    requires v == s.wg - Bit(InWg(s.jobs[id])) + Bit(InWg(j))
    requires InPending(j) ==> InPending(s.jobs[id])
    ensures Books(c, s.(jobs := s.jobs[id := j], gors := s.gors[g := w], pending := p, wg := v))
  {
    SameObjOwners(s, s.jobs[id := j], g, w);
    JobCounts(s.jobs, id, j);
    CountUpdate(s.gors, g, w, Alive);
  }

  // ---- steps that move no task ----

  lemma QuietStep(c: Config, s: State, g: Gid, w: Goroutine, r: int)
    requires c.Valid() && Inv(c, s) && g < |s.gors| && w.obj == s.gors[g].obj && w.cursor == s.gors[g].cursor
    requires !s.gors[g].pc.Exited? && !s.gors[g].pc.Run? && !w.pc.Run?
    requires r == s.running - Bit(Alive(s.gors[g])) + Bit(Alive(w)) <= s.running
    ensures Inv(c, s.(gors := s.gors[g := w], running := r))
  {
    assert GorOk(c, s.jobs, s.gors[g], g);
    GorsSwitch(c, s.jobs, s.gors, g, w);
    SwitchBooks(c, s, g, w, r);
  }

  lemma ParkIdleStep(c: Config, s: State, g: Gid)
    requires c.Valid() && Inv(c, s) && g < |s.gors| && s.gors[g].pc.ParkIdle?
    ensures s.gors[g].obj < |s.owner|
    ensures Inv(c, WithGor(s, g, Exited).(idle := s.idle + [s.gors[g].obj], owner := s.owner[s.gors[g].obj := Parked]))
  {
    var w := s.gors[g].(pc := Exited);
    assert GorOk(c, s.jobs, s.gors[g], g);
    GorsSwitch(c, s.jobs, s.gors, g, w);
    CountUpdate(s.gors, g, w, Alive);
    ParkOwners(s, g);
  }

  lemma ParkOwners(s: State, g: Gid)
    requires OwnersOk(s.jobs, s.gors, s.idle, s.owner, s.scaler) && g < |s.gors| && s.gors[g].pc.ParkIdle?
    ensures s.gors[g].obj < |s.owner|
    ensures OwnersOk(s.jobs, s.gors[g := s.gors[g].(pc := Exited)], s.idle + [s.gors[g].obj],
                     s.owner[s.gors[g].obj := Parked], s.scaler)
  {
    var obj := s.gors[g].obj;
    assert obj !in s.idle;
  }

  // ---- taking tasks ----

  lemma ScanTakePlaces(c: Config, s: State, g: Gid, k: nat)
    requires Places(c, s) && g < |s.gors| && s.gors[g].pc.Scan? && k < |s.shards| && s.shards[k] != []
    ensures s.shards[k][0] < |s.jobs| && s.jobs[s.shards[k][0]].stage == InShard(k)
    ensures var id := s.shards[k][0];
      Places(c, s.(shards := s.shards[k := s.shards[k][1..]], jobs := s.jobs[id := s.jobs[id].(stage := Held(g))],
                   gors := s.gors[g := s.gors[g].(cursor := k, pc := Run([id], Touching))]))
  {
    assert ShardOk(c, s.jobs, s.shards[k], k);
    var id := s.shards[k][0];
    var j := s.jobs[id].(stage := Held(g));
    var jobs' := s.jobs[id := j];
    assert JobOk(c, s.jobs[id]);
    JobUpdateOk(c, s.jobs, id, j);
    ShardsTake(c, s.jobs, s.shards, k, j);
    BufferFrame(s.jobs, jobs', s.buffer, s.bufOwner);
    GorsTake(c, s.jobs, s.gors, g, s.gors[g].(cursor := k, pc := Run([id], Touching)), jobs');
    FinishedFrame(s.jobs, jobs', s.finished);
  }

  lemma ScanTakeStep(c: Config, s: State, g: Gid)
    requires c.Valid() && Inv(c, s) && WorkEnabled(c, s, g)
    requires s.gors[g].pc.Scan? && s.gors[g].pc.i < c.shards && s.shards[Probe(c, s, g)] != []
    ensures Inv(c, ScanStep(c, s, g))
  {
    var k := Probe(c, s, g);
    var id := s.shards[k][0];
    ScanTakePlaces(c, s, g, k);
    assert JobOk(c, s.jobs[id]);
    WorkBooks(c, s, g, s.gors[g].(cursor := k, pc := Run([id], Touching)), id, s.jobs[id].(stage := Held(g)), s.pending, s.wg);
  }

  /** A batch leaves the front of the buffer, which nobody has locked. */
  lemma TakeBuffer(jobs: seq<Job>, buffer: seq<Id>, g: Gid, jobs': seq<Job>)
    requires BufferOk(jobs, buffer, None)
    requires jobs' == HoldAll(jobs, TakeBatch(buffer, BATCH_SIZE), g)
    ensures BufferOk(jobs', LeaveBatch(buffer, BATCH_SIZE), None)
    ensures Distinct(TakeBatch(buffer, BATCH_SIZE))
    ensures forall i :: 0 <= i < |TakeBatch(buffer, BATCH_SIZE)| ==>
      TakeBatch(buffer, BATCH_SIZE)[i] < |jobs| && jobs[TakeBatch(buffer, BATCH_SIZE)[i]].stage.InBuffer?
  {
    var taken, rest := TakeBatch(buffer, BATCH_SIZE), LeaveBatch(buffer, BATCH_SIZE);
    assert Unsent(jobs, buffer, None) == buffer && Unsent(jobs', rest, None) == rest;
    BatchParts(buffer);
    TakeQueue(jobs, buffer, taken, rest, g);
  }

  lemma BatchParts(q: seq<Id>)
    requires Distinct(q)
    ensures var taken, rest := TakeBatch(q, BATCH_SIZE), LeaveBatch(q, BATCH_SIZE);
      q == taken + rest && Distinct(taken) && Distinct(rest) && forall i :: 0 <= i < |rest| ==> rest[i] !in taken
  {
    var taken, rest := TakeBatch(q, BATCH_SIZE), LeaveBatch(q, BATCH_SIZE);
    assert forall i :: 0 <= i < |rest| ==> rest[i] == q[|taken| + i];
    assert forall m :: 0 <= m < |taken| ==> taken[m] == q[m];
  }

  lemma TakeQueue(jobs: seq<Job>, q: seq<Id>, taken: seq<Id>, rest: seq<Id>, g: Gid)
    requires QueueOk(jobs, q) && q == taken + rest && Distinct(rest) && forall i :: 0 <= i < |rest| ==> rest[i] !in taken
    ensures QueueOk(HoldAll(jobs, taken, g), rest)
    ensures forall i :: 0 <= i < |taken| ==> taken[i] < |jobs| && jobs[taken[i]].stage.InBuffer?
  {
    forall i | 0 <= i < |taken|
      ensures taken[i] < |jobs| && jobs[taken[i]].stage.InBuffer?
    {
      assert taken[i] == q[i];
    }
    forall i | 0 <= i < |rest|
      ensures rest[i] < |jobs| && jobs[rest[i]].stage.InBuffer?
    {
      assert rest[i] == q[|taken| + i];
    }
  }

  /** Taking buffered tasks into a batch changes no counter and no program counter. */
  lemma HoldAllSame(c: Config, jobs: seq<Job>, taken: seq<Id>, g: Gid)
    requires forall i :: 0 <= i < |taken| ==> taken[i] < |jobs| && jobs[taken[i]].stage.InBuffer?
    ensures var jobs' := HoldAll(jobs, taken, g);
      |jobs'| == |jobs|
      && (forall id :: 0 <= id < |jobs| ==> jobs'[id].pc == jobs[id].pc && InPending(jobs'[id]) == InPending(jobs[id]))
      && (JobsOk(c, jobs) ==> JobsOk(c, jobs'))
      && Count(jobs', InPending) == Count(jobs, InPending) && Count(jobs', InWg) == Count(jobs, InWg)
      && Count(jobs', Reserving) == Count(jobs, Reserving)
  {
    var jobs' := HoldAll(jobs, taken, g);
    CountSame(jobs, jobs', InPending);
    CountSame(jobs, jobs', InWg);
    CountSame(jobs, jobs', Reserving);
    if JobsOk(c, jobs) {
      forall id | 0 <= id < |jobs'|
        ensures JobOk(c, jobs'[id])
      {
        assert JobOk(c, jobs[id]);
      }
    }
  }

  lemma BatchTakePlaces(c: Config, s: State, g: Gid, taken: seq<Id>, w: Goroutine)
    requires Places(c, s) && g < |s.gors| && s.gors[g].pc.Batch? && s.bufOwner.None? && s.buffer != []
    requires taken == TakeBatch(s.buffer, BATCH_SIZE) && w == s.gors[g].(pc := Run(taken, Touching))
    ensures Places(c, s.(jobs := HoldAll(s.jobs, taken, g), buffer := LeaveBatch(s.buffer, BATCH_SIZE), gors := s.gors[g := w]))
  {
    var jobs' := HoldAll(s.jobs, taken, g);
    TakeBuffer(s.jobs, s.buffer, g, jobs');
    HoldAllSame(c, s.jobs, taken, g);
    assert GorOk(c, s.jobs, s.gors[g], g);
    HoldAllFrames(c, s.jobs, taken, g, s.shards, s.finished);
    GorsTake(c, s.jobs, s.gors, g, w, jobs');
  }

  /** Taking buffered tasks leaves the shards and the finished log as they were. */
  lemma HoldAllFrames(c: Config, jobs: seq<Job>, taken: seq<Id>, g: Gid, shards: seq<seq<Id>>, finished: seq<Id>)
    requires forall i :: 0 <= i < |taken| ==> taken[i] < |jobs| && jobs[taken[i]].stage.InBuffer?
    requires ShardsOk(c, jobs, shards) && FinishedOk(jobs, finished)
    ensures ShardsOk(c, HoldAll(jobs, taken, g), shards) && FinishedOk(HoldAll(jobs, taken, g), finished)
  {
    var jobs' := HoldAll(jobs, taken, g);
    ShardsFrame(c, jobs, jobs', shards);
    FinishedFrame(jobs, jobs', finished);
  }

  lemma BatchTakeBooks(c: Config, s: State, g: Gid, taken: seq<Id>, w: Goroutine)
    requires c.Valid() && Books(c, s) && g < |s.gors| && s.gors[g].pc.Batch? && w == s.gors[g].(pc := Run(taken, Touching))
    requires forall i :: 0 <= i < |taken| ==> taken[i] < |s.jobs| && s.jobs[taken[i]].stage.InBuffer?
    ensures Books(c, s.(jobs := HoldAll(s.jobs, taken, g), gors := s.gors[g := w]))
  {
    HoldAllSame(c, s.jobs, taken, g);
    CountUpdate(s.gors, g, w, Alive);
    SameObjOwners(s, HoldAll(s.jobs, taken, g), g, w);
  }

  lemma BatchTakeStep(c: Config, s: State, g: Gid)
    requires c.Valid() && Inv(c, s) && g < |s.gors| && s.gors[g].pc.Batch? && s.bufOwner.None? && s.buffer != []
    ensures Inv(c, BatchStep(s, g))
  {
    var taken := TakeBatch(s.buffer, BATCH_SIZE);
    var w := s.gors[g].(pc := Run(taken, Touching));
    TakeBuffer(s.jobs, s.buffer, g, HoldAll(s.jobs, taken, g));
    BatchTakePlaces(c, s, g, taken, w);
    BatchTakeBooks(c, s, g, taken, w);
  }

  // ---- running tasks ----

  /** Goroutine g is executing task id, the head of its batch. */
  predicate Executing(s: State, g: Gid, id: Id) {
    g < |s.gors| && s.gors[g].pc.Run? && s.gors[g].pc.batch != [] && s.gors[g].pc.batch[0] == id < |s.jobs|
  }

  lemma RunPlaces(c: Config, s: State, g: Gid, id: Id, phase: Phase, j: Job)
    requires Places(c, s) && Executing(s, g, id)
    requires JobOk(c, j) && j.pc == s.jobs[id].pc && WorkerHas(s.jobs[id].stage)
    requires WorkerHas(j.stage) && j.stage == ExpectedStage(g, phase, 0)
    ensures Places(c, s.(jobs := s.jobs[id := j], gors := s.gors[g := s.gors[g].(pc := Run(s.gors[g].pc.batch, phase))]))
  {
    var jobs' := s.jobs[id := j];
    JobUpdateOk(c, s.jobs, id, j);
    ShardsFrame(c, s.jobs, jobs', s.shards);
    BufferFrame(s.jobs, jobs', s.buffer, s.bufOwner);
    GorsAdvance(c, s.jobs, s.gors, g, phase, j);
    FinishedFrame(s.jobs, jobs', s.finished);
  }

  /** One phase of runTask: the head of the batch advances and p follows. */
  lemma Advance(c: Config, s: State, g: Gid, id: Id, phase: Phase, j: Job, p: int)
    requires c.Valid() && Inv(c, s) && Executing(s, g, id)
    requires WorkerHas(s.jobs[id].stage) && !s.jobs[id].stage.Settled?
    requires JobOk(c, j) && j.pc == s.jobs[id].pc && p == s.pending - 1 + Bit(InPending(j))
    requires WorkerHas(j.stage) && j.stage == ExpectedStage(g, phase, 0)
    ensures Inv(c, s.(jobs := s.jobs[id := j], pending := p,
                      gors := s.gors[g := s.gors[g].(pc := Run(s.gors[g].pc.batch, phase))]))
  {
    RunPlaces(c, s, g, id, phase, j);
    WorkBooks(c, s, g, s.gors[g].(pc := Run(s.gors[g].pc.batch, phase)), id, j, p, s.wg);
  }

  /** The phase of runTask after the given one, and the task once the given one is done. */
  function NextPhase(phase: Phase): Phase {
    match phase
    case Touching => Starting
    case Starting => Running
    case Running => Completing
    case Completing => Settling
    case _ => Releasing
  }

  function NextJob(j: Job, g: Gid, phase: Phase, panics: bool): Job {
    match phase
    case Touching => j.(stage := Exec(g, Starting))
    case Starting => j.(stage := Exec(g, Running), log := j.log + [Started])
    case Running => j.(stage := Exec(g, Completing), log := j.log + [Ran(panics)])
    case Completing => j.(stage := Exec(g, Settling), log := j.log + [Completed])
    case _ => j.(stage := Settled(g))
  }

  lemma NextJobOk(c: Config, j: Job, g: Gid, phase: Phase, panics: bool)
    requires JobOk(c, j) && j.stage == ExpectedStage(g, phase, 0) && !phase.Releasing?
    ensures JobOk(c, NextJob(j, g, phase, panics))
  {
  }

  lemma RunStepIs(s: State, g: Gid, now: int, panics: bool)
    requires g < |s.gors| && s.gors[g].pc.Run? && s.gors[g].obj < |s.lastActive| && !s.gors[g].pc.phase.Releasing?
    requires s.gors[g].pc.batch != [] && s.gors[g].pc.batch[0] < |s.jobs|
    ensures var Run(batch, phase) := s.gors[g].pc; var t := RunStep(s, g, now, panics);
      t == s.(jobs := s.jobs[batch[0] := NextJob(s.jobs[batch[0]], g, phase, panics)],
              pending := if phase == Settling then s.pending - 1 else s.pending,
              gors := s.gors[g := s.gors[g].(pc := Run(batch, NextPhase(phase)))],
              lastActive := t.lastActive)
      && |t.lastActive| == |s.lastActive|
  {
  }

  lemma RunPhaseStep(c: Config, s: State, g: Gid, now: int, panics: bool)
    requires c.Valid() && Inv(c, s) && WorkEnabled(c, s, g) && s.gors[g].pc.Run? && !s.gors[g].pc.phase.Releasing?
    ensures Inv(c, RunStep(s, g, now, panics))
  {
    var Run(batch, phase) := s.gors[g].pc;
    assert GorOk(c, s.jobs, s.gors[g], g);
    var id := batch[0];
    var j := s.jobs[id];
    assert JobOk(c, j) && j.stage == ExpectedStage(g, phase, 0);
    NextJobOk(c, j, g, phase, panics);
    RunStepIs(s, g, now, panics);
    Advance(c, s, g, id, NextPhase(phase), NextJob(j, g, phase, panics), if phase == Settling then s.pending - 1 else s.pending);
  }

  lemma ReleasePlaces(c: Config, s: State, g: Gid, id: Id, w: Goroutine)
    requires Places(c, s) && Executing(s, g, id) && s.jobs[id].stage.Settled? && w.cursor == s.gors[g].cursor
    requires w.pc == NextTask(s.gors[g].pc.batch)
    ensures Places(c, s.(jobs := s.jobs[id := s.jobs[id].(stage := Finished)], gors := s.gors[g := w], finished := s.finished + [id]))
  {
    assert GorOk(c, s.jobs, s.gors[g], g);
    var j := s.jobs[id].(stage := Finished);
    var jobs' := s.jobs[id := j];
    assert JobOk(c, s.jobs[id]);
    JobUpdateOk(c, s.jobs, id, j);
    ShardsFrame(c, s.jobs, jobs', s.shards);
    BufferFrame(s.jobs, jobs', s.buffer, s.bufOwner);
    GorsRelease(c, s.jobs, s.gors, g, w, j);
    FinishMore(s.jobs, s.finished, id, j);
  }

  lemma FinishMore(jobs: seq<Job>, finished: seq<Id>, id: Id, j: Job)
    requires FinishedOk(jobs, finished) && id < |jobs| && !jobs[id].stage.Finished? && j.stage.Finished?
    ensures FinishedOk(jobs[id := j], finished + [id])
  {
    assert id !in finished;
    forall x | 0 <= x < |jobs| && jobs[id := j][x].stage.Finished?
      ensures x in finished + [id]
    {
      assert x != id ==> x in finished;
    }
  }

  lemma Release(c: Config, s: State, g: Gid, id: Id, w: Goroutine)
    requires c.Valid() && Inv(c, s) && Executing(s, g, id) && s.jobs[id].stage.Settled?
    requires w.cursor == s.gors[g].cursor && w.obj == s.gors[g].obj
    requires w.pc == NextTask(s.gors[g].pc.batch)
    ensures Inv(c, s.(jobs := s.jobs[id := s.jobs[id].(stage := Finished)], gors := s.gors[g := w], wg := s.wg - 1, finished := s.finished + [id]))
  {
    ReleasePlaces(c, s, g, id, w);
    WorkBooks(c, s, g, w, id, s.jobs[id].(stage := Finished), s.pending, s.wg - 1);
  }

  lemma ReleaseIs(s: State, g: Gid, now: int, panics: bool)
    requires g < |s.gors| && s.gors[g].pc.Run? && s.gors[g].obj < |s.lastActive| && s.gors[g].pc.phase.Releasing?
    requires s.gors[g].pc.batch != [] && s.gors[g].pc.batch[0] < |s.jobs|
    ensures var batch := s.gors[g].pc.batch;
      RunStep(s, g, now, panics) == s.(jobs := s.jobs[batch[0] := s.jobs[batch[0]].(stage := Finished)],
        gors := s.gors[g := s.gors[g].(pc := NextTask(batch))], wg := s.wg - 1, finished := s.finished + [batch[0]])
  {
  }

  lemma ReleaseStep(c: Config, s: State, g: Gid, now: int, panics: bool)
    requires c.Valid() && Inv(c, s) && WorkEnabled(c, s, g) && s.gors[g].pc.Run? && s.gors[g].pc.phase.Releasing?
    ensures Inv(c, RunStep(s, g, now, panics))
  {
    assert GorOk(c, s.jobs, s.gors[g], g);
    var id := s.gors[g].pc.batch[0];
    assert s.jobs[id].stage == Settled(g);
    ReleaseIs(s, g, now, panics);
    Release(c, s, g, id, s.gors[g].(pc := NextTask(s.gors[g].pc.batch)));
  }

  lemma ScanMissStep(c: Config, s: State, g: Gid, pc: WorkerPc)
    requires c.Valid() && Inv(c, s) && g < |s.gors| && s.gors[g].pc.Scan? && (pc.Scan? || pc.Batch?)
    ensures Inv(c, WithGor(s, g, pc))
  {
    QuietStep(c, s, g, s.gors[g].(pc := pc), s.running);
  }

  lemma ScanKeepsInv(c: Config, s: State, g: Gid)
    requires c.Valid() && Inv(c, s) && WorkEnabled(c, s, g) && s.gors[g].pc.Scan?
    ensures Inv(c, ScanStep(c, s, g))
  {
    if ScanMisses(c, s, g) {
      ScanMissKeeps(c, s, g);
    } else {
      ScanTakeStep(c, s, g);
    }
  }

  /** The scan is over, or the probed shard is empty. */
  predicate ScanMisses(c: Config, s: State, g: Gid)
    requires WorkEnabled(c, s, g) && s.gors[g].pc.Scan?
  {
    s.gors[g].pc.i >= c.shards || s.shards[Probe(c, s, g)] == []
  }

  lemma ScanMissKeeps(c: Config, s: State, g: Gid)
    requires c.Valid() && Inv(c, s) && WorkEnabled(c, s, g) && s.gors[g].pc.Scan? && ScanMisses(c, s, g)
    ensures Inv(c, ScanStep(c, s, g))
  {
    ScanMissIs(c, s, g);
    ScanMissStep(c, s, g, if s.gors[g].pc.i >= c.shards then Batch else Scan(s.gors[g].pc.i + 1));
  }

  lemma ScanMissIs(c: Config, s: State, g: Gid)
    requires WorkEnabled(c, s, g) && s.gors[g].pc.Scan? && ScanMisses(c, s, g)
    ensures ScanStep(c, s, g) == WithGor(s, g, if s.gors[g].pc.i >= c.shards then Batch else Scan(s.gors[g].pc.i + 1))
  {
  }

  lemma WorkKeepsInv(c: Config, s: State, g: Gid, now: int, panics: bool)
    requires c.Valid() && Inv(c, s) && WorkEnabled(c, s, g)
    ensures Inv(c, WorkStep(c, s, g, now, panics))
  {
    var w := s.gors[g];
    match w.pc
    case Begin => QuietStep(c, s, g, w.(pc := Scan(0)), s.running);
    case Scan(_) => ScanKeepsInv(c, s, g);
    case Batch =>
      if s.buffer == [] {
        QuietStep(c, s, g, w.(pc := ParkDec), s.running);
      } else {
        BatchTakeStep(c, s, g);
      }
    case Run(_, phase) => if phase.Releasing? { ReleaseStep(c, s, g, now, panics); } else { RunPhaseStep(c, s, g, now, panics); }
    case ParkDec => QuietStep(c, s, g, w.(pc := ParkIdle), s.running - 1);
    case ParkIdle => ParkIdleStep(c, s, g);
  }
}
